/**
 The ordered key index for Android builds (go/androidbuild/androidbuild.go): zero-padded decimals
 are byte-inverted, so that a forward seek in a sorted store finds the build at or before an ID.
 */
module AndroidBuild {
  import opened Common
  import opened ByteStrings

  const COLON: byte := 58
  const SPACE: byte := 32
  const ZERO: byte := 48
  const MINUS: byte := 45
  const PLUS: byte := 43

  // The range of Go's int on 64-bit platforms.
  const MIN_INT: int := -0x8000_0000_0000_0000
  const MAX_INT: int := 0x7FFF_FFFF_FFFF_FFFF

  predicate InRange(n: int) { MIN_INT <= n <= MAX_INT }

  /******* Inversion *******/

  function Invert(a: Bytes): (r: Bytes)
    ensures |r| == |a| && forall i :: 0 <= i < |a| ==> r[i] == 255 - a[i]
  {
    seq(|a|, i requires 0 <= i < |a| => 255 - a[i])
  }

  // invertBSlice works on a copy.
  method InvertBSlice(a: array<byte>) returns (inverted: array<byte>)
    ensures fresh(inverted) && inverted[..] == Invert(a[..])
  {
    inverted := new byte[a.Length](i requires 0 <= i < a.Length reads a => a[i]);
    for i := 0 to a.Length
      invariant forall j :: 0 <= j < i ==> inverted[j] == 255 - a[j]
    {
      inverted[i] := 0xff - a[i];
    }
  }

  lemma {:induction false} InvertReverses(a: Bytes, b: Bytes)
    requires |a| == |b|
    ensures Less(Invert(a), Invert(b)) == Less(b, a)
  {
    if a != [] {
      assert Invert(a)[1..] == Invert(a[1..]) && Invert(b)[1..] == Invert(b[1..]);
      InvertReverses(a[1..], b[1..]);
    }
  }

  lemma InvertTwice(a: Bytes)
    ensures Invert(Invert(a)) == a
  {
  }

  /******* Decimals *******/

  predicate IsDigit(b: byte) { ZERO <= b <= ZERO + 9 }

  function Pow10(w: nat): (r: nat)
    ensures r > 0
  {
    if w == 0 then 1 else 10 * Pow10(w - 1)
  }

  function Digit(d: int): byte
    requires 0 <= d < 10
  {
    ZERO + d as byte
  }

  // The last w decimal digits of n, with leading zeros.
  function PadDigits(n: nat, w: nat): (r: Bytes)
    ensures |r| == w && forall i :: 0 <= i < w ==> IsDigit(r[i])
  {
    if w == 0 then [] else PadDigits(n / 10, w - 1) + [Digit(n % 10)]
  }

  lemma {:induction false} PadDigitsOrder(m: nat, n: nat, w: nat)
    requires m < Pow10(w) && n < Pow10(w)
    ensures Less(PadDigits(m, w), PadDigits(n, w)) <==> m < n
    ensures PadDigits(m, w) == PadDigits(n, w) <==> m == n
  {
    if w > 0 {
      PadDigitsOrder(m / 10, n / 10, w - 1);
      var a, b := PadDigits(m / 10, w - 1), PadDigits(n / 10, w - 1);
      LessSnoc(a, Digit(m % 10), b, Digit(n % 10));
      assert PadDigits(m, w) == PadDigits(n, w) <==> a == b && m % 10 == n % 10 by {
        assert PadDigits(m, w)[..w - 1] == a && PadDigits(n, w)[..w - 1] == b;
        assert PadDigits(m, w)[w - 1] == Digit(m % 10) && PadDigits(n, w)[w - 1] == Digit(n % 10);
      }
      assert m == 10 * (m / 10) + m % 10 && n == 10 * (n / 10) + n % 10;
    }
  }

  // The value of a string of digits.
  function Val(s: Bytes): (n: nat)
    requires forall i :: 0 <= i < |s| ==> IsDigit(s[i])
  {
    if s == [] then 0 else assert IsDigit(s[|s| - 1]); 10 * Val(s[..|s| - 1]) + (s[|s| - 1] as int - ZERO as int)
  }

  lemma {:induction false} ValPadDigits(n: nat, w: nat)
    requires n < Pow10(w)
    ensures Val(PadDigits(n, w)) == n
  {
    if w > 0 {
      ValPadDigits(n / 10, w - 1);
      assert PadDigits(n, w)[..w - 1] == PadDigits(n / 10, w - 1);
    }
  }

  predicate IsDecimal(s: Bytes) {
    s != [] && forall i :: 0 <= i < |s| ==> IsDigit(s[i])
  }

  // strconv.Atoi
  function Atoi(s: Bytes): (r: Option<int>)
    ensures r.Some? ==> InRange(r.value)
  {
    var signed := s != [] && (s[0] == MINUS || s[0] == PLUS);
    var digits := if signed then s[1..] else s;
    if !IsDecimal(digits) then None
    else
      var n: int := if signed && s[0] == MINUS then -(Val(digits) as int) else Val(digits);
      if InRange(n) then Some(n) else None
  }

  // A sign and digits are a number if it fits into 64 bits.
  lemma AtoiAccepts(sign: Bytes, s: Bytes)
    requires IsDecimal(s) && (sign == [] || sign == [43] || sign == [45])
    ensures var n := if sign == [45] then -(Val(s) as int) else Val(s);
      Atoi(sign + s) == if -9_223_372_036_854_775_808 <= n <= 9_223_372_036_854_775_807 then Some(n) else None
  {
    if sign != [] {
      assert sign + s == [sign[0]] + s;
      AtoiSigned(sign[0], s);
    } else {
      assert sign + s == s;
      AtoiPlain(s);
    }
  }

  lemma AtoiSigned(sign: byte, s: Bytes)
    requires IsDecimal(s) && (sign == 43 || sign == 45)
    ensures var n := if sign == 45 then -(Val(s) as int) else Val(s); Atoi([sign] + s) == if InRange(n) then Some(n) else None
  {
    assert ([sign] + s)[1..] == s && ([sign] + s)[0] == sign;
  }

  lemma AtoiPlain(s: Bytes)
    requires IsDecimal(s)
    ensures Atoi(s) == if InRange(Val(s)) then Some(Val(s)) else None
  {
    assert IsDigit(s[0]);
  }

  // The number of decimal digits, and strconv.Itoa.
  function Width(n: nat): (w: nat)
    ensures w > 0 && n < Pow10(w)
  {
    if n < 10 then 1 else 1 + Width(n / 10)
  }

  function Itoa(n: int): Bytes {
    if n < 0 then [MINUS] + PadDigits(-n, Width(-n)) else PadDigits(n, Width(n))
  }

  // fmt.Sprintf("%020d", n)
  function Padded(n: int): (r: Bytes)
    ensures |r| == 20
  {
    if n < 0 then [MINUS] + PadDigits(-n, 19) else PadDigits(n, 20)
  }

  lemma PowersSuffice()
    ensures -MIN_INT < Pow10(19) && MAX_INT < Pow10(20)
  {
    assert Pow10(5) == 100000;
    assert Pow10(10) == 10000000000;
    assert Pow10(15) == 1000000000000000;
    assert Pow10(19) == 10000000000000000000;
    assert Pow10(20) == 10 * Pow10(19);
  }

  lemma AtoiPadded(n: int)
    requires InRange(n)
    ensures Atoi(Padded(n)) == Some(n)
  {
    PowersSuffice();
    if n < 0 {
      ValPadDigits(-n, 19);
      assert Padded(n)[1..] == PadDigits(-n, 19);
    } else {
      ValPadDigits(n, 20);
      assert IsDigit(Padded(n)[0]);
    }
  }

  lemma AtoiItoa(n: int)
    requires InRange(n)
    ensures Atoi(Itoa(n)) == Some(n)
  {
    if n < 0 {
      AtoiNegative(-n);
    } else {
      ValPadDigits(n, Width(n));
      assert IsDigit(Itoa(n)[0]);
    }
  }

  lemma AtoiNegative(n: int)
    requires n > 0 && InRange(-n)
    ensures Atoi(Itoa(-n)) == Some(-n)
  {
    ValPadDigits(n, Width(n));
    assert Itoa(-n)[1..] == PadDigits(n, Width(n));
  }

  /******* Keys *******/

  function Prefix(branch: Bytes, target: Bytes): Bytes {
    branch + [COLON] + target + [COLON]
  }

  function KeyOf(branch: Bytes, target: Bytes, id: int): Bytes {
    Prefix(branch, target) + Invert(Padded(id))
  }

  function ToKey(branch: Bytes, target: Bytes, buildID: Bytes): Option<Bytes> {
    match Atoi(buildID)
    case None => None
    case Some(id) => Some(KeyOf(branch, target, id))
  }

  // bytes.Split and strings.Split with a separator of one byte.
  function Split(s: Bytes, sep: byte): (parts: seq<Bytes>)
    ensures parts != []
  {
    if s == [] then [[]]
    else if s[0] == sep then [[]] + Split(s[1..], sep)
    else
      var parts := Split(s[1..], sep);
      [[s[0]] + parts[0]] + parts[1..]
  }

  function FromKey(key: Bytes): Option<(Bytes, Bytes, Bytes)> {
    var parts := Split(key, COLON);
    if |parts| != 3 then None
    else
      match Atoi(Invert(parts[2]))
      case None => None
      case Some(id) => Some((parts[0], parts[1], Itoa(id)))
  }

  function Colons(s: Bytes): nat {
    if s == [] then 0 else (if s[0] == COLON then 1 else 0) + Colons(s[1..])
  }

  lemma {:induction false} ColonsConcat(a: Bytes, b: Bytes)
    ensures Colons(a + b) == Colons(a) + Colons(b)
  {
    if a == [] {
      assert a + b == b;
    } else {
      assert (a + b)[1..] == a[1..] + b;
      ColonsConcat(a[1..], b);
    }
  }

  lemma {:induction false} NoColons(a: Bytes)
    ensures Colons(a) == 0 <==> COLON !in a
  {
    if a != [] {
      NoColons(a[1..]);
      assert a == [a[0]] + a[1..];
    }
  }

  lemma {:induction false} SplitCount(s: Bytes)
    ensures |Split(s, COLON)| == 1 + Colons(s)
  {
    if s != [] {
      SplitCount(s[1..]);
    }
  }

  lemma {:induction false} SplitFirst(a: Bytes, b: Bytes, sep: byte)
    requires sep !in a
    ensures Split(a + [sep] + b, sep) == [a] + Split(b, sep)
  {
    var s := a + [sep] + b;
    if a == [] {
      assert s[1..] == b;
    } else {
      assert s[1..] == a[1..] + [sep] + b && s[0] == a[0];
      SplitFirst(a[1..], b, sep);
      assert [a[0]] + a[1..] == a;
    }
  }

  lemma {:induction false} SplitWhole(a: Bytes, sep: byte)
    requires sep !in a
    ensures Split(a, sep) == [a]
  {
    if a != [] {
      SplitWhole(a[1..], sep);
      assert [a[0]] + a[1..] == a;
    }
  }

  lemma InvertedHasNoColon(id: int)
    ensures COLON !in Invert(Padded(id))
  {
    var p := Padded(id);
    forall i | 0 <= i < |p| ensures Invert(p)[i] != COLON {
      assert p[i] == MINUS || IsDigit(p[i]);
    }
  }

  // fromKey undoes toKey, up to the spelling of the number, exactly when neither name has a colon.
  lemma FromToKey(branch: Bytes, target: Bytes, buildID: Bytes)
    requires Atoi(buildID).Some?
    ensures FromKey(ToKey(branch, target, buildID).value) == Some((branch, target, Itoa(Atoi(buildID).value)))
       <==> COLON !in branch && COLON !in target
  {
    var id := Atoi(buildID).value;
    var key, tail := KeyOf(branch, target, id), Invert(Padded(id));
    InvertedHasNoColon(id);
    if COLON !in branch && COLON !in target {
      assert key == branch + [COLON] + (target + [COLON] + tail);
      SplitFirst(branch, target + [COLON] + tail, COLON);
      SplitFirst(target, tail, COLON);
      SplitWhole(tail, COLON);
      InvertTwice(Padded(id));
      AtoiPadded(id);
    } else {
      SplitCount(key);
      ColonsConcat(Prefix(branch, target), tail);
      ColonsConcat(branch + [COLON] + target, [COLON]);
      ColonsConcat(branch + [COLON], target);
      ColonsConcat(branch, [COLON]);
      NoColons(branch);
      NoColons(target);
    }
  }

  // For instance: build 5 of target t on branch b is at b:t: and the inverted digits of 5.
  lemma KeyLooksSo()
    ensures var b, t, five: Bytes := [98], [116], [53];
      ToKey(b, t, five) == Some([98, 58, 116, 58] + seq(19, _ => 207) + [202])
  {
    var five: Bytes := [53];
    assert Val(five) == 5 && Atoi(five) == Some(5);
    FiveIsPadded();
    var p: Bytes := seq(19, _ => 48);
    var q: Bytes := seq(19, _ => 207);
    assert Invert(p + [53]) == q + [202];
    var head: Bytes := [98, 58, 116, 58];
    assert Prefix([98], [116]) == head;
    assert head + (q + [202]) == head + q + [202];
  }

  lemma {:induction false} ZerosPad(w: nat)
    ensures PadDigits(0, w) == seq(w, _ => 48)
  {
    if w > 0 {
      ZerosPad(w - 1);
    }
  }

  lemma FiveIsPadded()
    ensures Padded(5) == seq(19, _ => 48) + [53]
  {
    ZerosPad(19);
    assert PadDigits(5, 20) == PadDigits(0, 19) + [Digit(5)];
  }

  // On canonical decimals it is the identity.
  lemma FromToKeyCanonical(branch: Bytes, target: Bytes, id: int)
    requires InRange(id) && COLON !in branch && COLON !in target
    ensures ToKey(branch, target, Itoa(id)).Some?
    ensures FromKey(ToKey(branch, target, Itoa(id)).value) == Some((branch, target, Itoa(id)))
  {
    AtoiItoa(id);
    FromToKey(branch, target, Itoa(id));
  }

  // The order of keys within a pair is the reverse numeric order, except between two negative
  // numbers, where it is the numeric order.
  lemma KeyOrder(branch: Bytes, target: Bytes, m: int, n: int)
    requires InRange(m) && InRange(n)
    ensures Less(KeyOf(branch, target, m), KeyOf(branch, target, n)) <==> if m < 0 && n < 0 then m < n else m > n
    ensures KeyOf(branch, target, m) == KeyOf(branch, target, n) <==> m == n
  {
    LessPrefix(Prefix(branch, target), Invert(Padded(m)), Invert(Padded(n)));
    InvertReverses(Padded(m), Padded(n));
    PaddedOrder(n, m);
    assert KeyOf(branch, target, m) == KeyOf(branch, target, n) ==> Padded(m) == Padded(n) by {
      if KeyOf(branch, target, m) == KeyOf(branch, target, n) {
        var k := |Prefix(branch, target)|;
        assert KeyOf(branch, target, m)[k..] == Invert(Padded(m)) && KeyOf(branch, target, n)[k..] == Invert(Padded(n));
        InvertTwice(Padded(m));
        InvertTwice(Padded(n));
      }
    }
  }

  lemma PaddedOrder(m: int, n: int)
    requires InRange(m) && InRange(n)
    ensures Less(Padded(m), Padded(n)) <==> if m < 0 && n < 0 then m > n else m < n
    ensures Padded(m) == Padded(n) <==> m == n
  {
    PowersSuffice();
    if m >= 0 && n >= 0 {
      PadDigitsOrder(m, n, 20);
    } else if m < 0 && n < 0 {
      PaddedOrderNegative(m, n);
    } else {
      PaddedOrderMixed(m, n);
    }
  }

  lemma PaddedOrderNegative(m: int, n: int)
    requires InRange(m) && InRange(n) && m < 0 && n < 0
    ensures Less(Padded(m), Padded(n)) <==> m > n
    ensures Padded(m) == Padded(n) <==> m == n
  {
    PowersSuffice();
    PadDigitsOrder(-m, -n, 19);
    LessPrefix([MINUS], PadDigits(-m, 19), PadDigits(-n, 19));
    assert Padded(m)[1..] == PadDigits(-m, 19) && Padded(n)[1..] == PadDigits(-n, 19);
  }

  lemma PaddedOrderMixed(m: int, n: int)
    requires InRange(m) && InRange(n) && (m < 0) != (n < 0)
    ensures Less(Padded(m), Padded(n)) <==> m < n
    ensures Padded(m) != Padded(n)
  {
    assert m >= 0 ==> IsDigit(Padded(m)[0]);
    assert n >= 0 ==> IsDigit(Padded(n)[0]);
  }

  /******* The floor lookup *******/

  // Key order on build IDs: m comes before n.
  predicate Comes(m: int, n: int) {
    if m < 0 && n < 0 then m < n else m > n
  }

  // Where a seek to n lands among the stored IDs: on the first that does not come before n.
  ghost predicate LandsOn(ids: set<int>, n: int, m: int) {
    m in ids && !Comes(m, n) && forall x :: x in ids && !Comes(x, n) ==> !Comes(x, m)
  }

  ghost predicate LandsNowhere(ids: set<int>, n: int) {
    forall x :: x in ids ==> Comes(x, n)
  }

  ghost predicate IsFloor(ids: set<int>, n: int, m: int) {
    m in ids && m <= n && forall x :: x in ids && x <= n ==> x <= m
  }

  ghost predicate HasFloor(ids: set<int>, n: int) {
    exists x :: x in ids && x <= n
  }

  // A seek finds the greatest stored ID not above n, or nothing if there is none, in exactly these
  // cases; with non-negative IDs it always does.
  ghost predicate SeekFits(ids: set<int>, n: int) {
    if n >= 0 then (exists x :: x in ids && 0 <= x <= n) || (forall x, y :: x in ids && y in ids && x < 0 && y < 0 ==> x == y)
    else n in ids || forall x :: x in ids ==> x >= 0
  }

  lemma SeekIsFloorIff(ids: set<int>, n: int, landed: Option<int>)
    requires if landed.Some? then LandsOn(ids, n, landed.value) else LandsNowhere(ids, n)
    ensures (if landed.Some? then IsFloor(ids, n, landed.value) else !HasFloor(ids, n)) <==> SeekFits(ids, n)
  {
  }

  // With two builds -2 and -1 stored, a seek from 5 lands on -2.
  lemma NegativeSeekIsNoFloor()
    ensures var ids := {-2, -1}; LandsOn(ids, 5, -2) && IsFloor(ids, 5, -1) && !IsFloor(ids, 5, -2) && !SeekFits(ids, 5)
  {
    var ids := {-2, -1};
    assert -1 in ids && -2 in ids;
    assert !SeekFits(ids, 5) by {
      SeekIsFloorIff(ids, 5, Some(-2));
    }
  }

  /******* The list of targets *******/

  function NonEmpty(parts: seq<Bytes>): seq<Bytes> {
    if parts == [] then []
    else NonEmpty(parts[..|parts| - 1]) + if parts[|parts| - 1] != [] then [parts[|parts| - 1]] else []
  }

  // The names in a space-separated list.
  function Words(s: Bytes): seq<Bytes> {
    NonEmpty(Split(s, SPACE))
  }

  // strings.Join(words, " ")
  function Join(words: seq<Bytes>): Bytes {
    if words == [] then [] else if |words| == 1 then words[0] else words[0] + [SPACE] + Join(words[1..])
  }

  predicate IsWord(w: Bytes) {
    w != [] && SPACE !in w
  }

  lemma {:induction false} PartsHaveNoSep(s: Bytes, sep: byte, part: Bytes)
    requires part in Split(s, sep)
    ensures sep !in part
  {
    if s != [] {
      var parts := Split(s[1..], sep);
      if s[0] == sep {
        if part != [] {
          PartsHaveNoSep(s[1..], sep, part);
        }
      } else if part == [s[0]] + parts[0] {
        PartsHaveNoSep(s[1..], sep, parts[0]);
      } else {
        PartsHaveNoSep(s[1..], sep, part);
      }
    }
  }

  lemma {:induction false} NonEmptyHolds(parts: seq<Bytes>, w: Bytes)
    ensures w in NonEmpty(parts) <==> w in parts && w != []
  {
    if parts != [] {
      var n := |parts| - 1;
      NonEmptyHolds(parts[..n], w);
      assert parts == parts[..n] + [parts[n]];
    }
  }

  lemma {:induction false} NonEmptyFirst(w: Bytes, parts: seq<Bytes>)
    ensures NonEmpty([w] + parts) == (if w != [] then [w] else []) + NonEmpty(parts)
  {
    if parts == [] {
      NonEmptyLast([], w);
    } else {
      var init, x := parts[..|parts| - 1], parts[|parts| - 1];
      NonEmptyFirst(w, init);
      NonEmptyLast(init, x);
      NonEmptyLast([w] + init, x);
      assert parts == init + [x] && [w] + parts == [w] + init + [x];
    }
  }

  lemma NonEmptyLast(init: seq<Bytes>, x: Bytes)
    ensures NonEmpty(init + [x]) == NonEmpty(init) + if x != [] then [x] else []
  {
    var parts := init + [x];
    assert parts[..|parts| - 1] == init;
  }

  lemma WordsAreWords(s: Bytes, w: Bytes)
    requires w in Words(s)
    ensures IsWord(w)
  {
    NonEmptyHolds(Split(s, SPACE), w);
    PartsHaveNoSep(s, SPACE, w);
  }

  // Appending a name to the list, joining and splitting gives the list back, and the name in words.
  lemma {:induction false} WordsOfJoin(words: seq<Bytes>, x: Bytes)
    requires forall i :: 0 <= i < |words| ==> IsWord(words[i])
    ensures Words(Join(words + [x])) == words + Words(x)
  {
    var all := words + [x];
    if words == [] {
      assert all == [x];
    } else {
      assert all[1..] == words[1..] + [x];
      WordsOfJoin(words[1..], x);
      SplitFirst(words[0], Join(all[1..]), SPACE);
      NonEmptyFirst(words[0], Split(Join(all[1..]), SPACE));
      assert words == [words[0]] + words[1..];
    }
  }

  // A name comes to be in the list exactly if it has no space.
  lemma ListedIff(words: seq<Bytes>, x: Bytes)
    requires (forall i :: 0 <= i < |words| ==> IsWord(words[i])) && x != []
    ensures x in Words(Join(words + [x])) <==> SPACE !in x
  {
    WordsOfJoin(words, x);
    if SPACE !in x {
      SplitWhole(x, SPACE);
      NonEmptyFirst(x, []);
      assert [x] + [] == [x];
      assert Words(x) == [x];
      assert (words + Words(x))[|words|] == x;
    } else if x in Words(Join(words + [x])) {
      WordsAreWords(Join(words + [x]), x);
    }
  }

  /******* The store *******/

  // "android_ingest_last_build"
  const RESERVED: Bytes := [97, 110, 100, 114, 111, 105, 100, 95, 105, 110, 103, 101, 115, 116, 95, 108, 97, 115, 116, 95, 98, 117, 105, 108, 100]

  function LastKey(branch: Bytes, target: Bytes): Bytes {
    RESERVED + [COLON] + branch + [COLON] + target
  }

  // "%s:%s"
  function NameOf(branch: Bytes, target: Bytes): Bytes {
    branch + [COLON] + target
  }

  predicate Named(branch: Bytes, target: Bytes) {
    COLON !in branch && COLON !in target && branch != RESERVED
  }

  // Commits, and the last build IDs seen.
  datatype Value = Commit(hash: nat) | LastBuild(id: Bytes)

  type Db = map<Bytes, Value>

  ghost predicate IsCommitKey(k: Bytes, branch: Bytes, target: Bytes, id: int) {
    Named(branch, target) && InRange(id) && k == KeyOf(branch, target, id)
  }

  ghost predicate IsLastKey(k: Bytes, branch: Bytes, target: Bytes) {
    Named(branch, target) && k == LastKey(branch, target)
  }

  // Every key is made by toKey for a commit, or from the last-build template.
  ghost predicate WellKeyed(db: Db) {
    forall k :: k in db ==>
      if db[k].Commit? then exists b, t, id :: IsCommitKey(k, b, t, id) else exists b, t :: IsLastKey(k, b, t)
  }

  // A key under the prefix of a pair is the key of a commit of that pair.
  lemma UnderPrefix(db: Db, branch: Bytes, target: Bytes, k: Bytes) returns (id: int)
    requires WellKeyed(db) && Named(branch, target) && k in db && Prefix(branch, target) <= k
    ensures db[k].Commit? && IsCommitKey(k, branch, target, id)
  {
    PrefixNames(k, branch, target);
    if db[k].Commit? {
      var b, t, i :| IsCommitKey(k, b, t, i);
      PrefixNames(k, b, t);
      id := i;
    } else {
      var b, t :| IsLastKey(k, b, t);
      LastKeyIsReserved(k, b, t);
    }
  }

  lemma PrefixNames(k: Bytes, branch: Bytes, target: Bytes)
    requires COLON !in branch && COLON !in target && Prefix(branch, target) <= k
    ensures |Split(k, COLON)| >= 2 && Split(k, COLON)[0] == branch && Split(k, COLON)[1] == target
  {
    FirstNames(k, branch, target, k[|Prefix(branch, target)|..]);
  }

  lemma LastKeyIsReserved(k: Bytes, b: Bytes, t: Bytes)
    requires IsLastKey(k, b, t)
    ensures Split(k, COLON)[0] == RESERVED
  {
    ReservedHasNoColon();
    FirstNames(k, RESERVED, b, t);
  }

  lemma FirstNames(k: Bytes, a: Bytes, b: Bytes, rest: Bytes)
    requires k == a + [COLON] + b + [COLON] + rest && COLON !in a && COLON !in b
    ensures |Split(k, COLON)| >= 2 && Split(k, COLON)[0] == a && Split(k, COLON)[1] == b
  {
    assert k == a + [COLON] + (b + [COLON] + rest);
    SplitFirst(a, b + [COLON] + rest, COLON);
    SplitFirst(b, rest, COLON);
  }

  lemma ReservedHasNoColon()
    ensures COLON !in RESERVED
  {
  }

  // The bytes of an ASCII string.
  function Chars(s: string): Bytes
    requires forall i :: 0 <= i < |s| ==> s[i] < '\U{0080}'
  {
    seq(|s|, i requires 0 <= i < |s| => s[i] as int as byte)
  }

  lemma ConstantsSpell()
    ensures RESERVED == Chars("android_ingest_last_build")
    ensures [COLON, SPACE, MINUS, PLUS, ZERO] == Chars(": -+0")
  {
  }

  // Why the reserved name is no branch: its prefix covers the last build of another pair.
  lemma ReservedCollides(branch: Bytes, target: Bytes)
    ensures Prefix(RESERVED, branch) <= LastKey(branch, target)
  {
    assert LastKey(branch, target) == Prefix(RESERVED, branch) + target;
  }

  // The build IDs stored for a pair.
  ghost function StoredIds(db: Db, branch: Bytes, target: Bytes): (ids: set<int>)
    ensures forall n :: n in ids <==> InRange(n) && KeyOf(branch, target, n) in db
  {
    PairKeys(db, branch, target, db.Keys)
  }

  ghost function PairKeys(db: Db, branch: Bytes, target: Bytes, keys: set<Bytes>): (ids: set<int>)
    ensures forall n :: n in ids <==> InRange(n) && KeyOf(branch, target, n) in keys
    decreases keys
  {
    if keys == {} then {}
    else
      var k :| k in keys;
      var ids := PairKeys(db, branch, target, keys - {k});
      if exists n :: InRange(n) && KeyOf(branch, target, n) == k then
        var n :| InRange(n) && KeyOf(branch, target, n) == k;
        KeysDiffer(branch, target, n);
        ids + {n}
      else ids
  }

  lemma KeysDiffer(branch: Bytes, target: Bytes, n: int)
    requires InRange(n)
    ensures forall m :: InRange(m) && KeyOf(branch, target, m) == KeyOf(branch, target, n) ==> m == n
  {
    forall m | InRange(m) && KeyOf(branch, target, m) == KeyOf(branch, target, n) ensures m == n {
      KeyOrder(branch, target, m, n);
    }
  }

  datatype Reply = Found(commit: Value) | BadBuildID | Undecodable | ApiError

  class Info {
    var db: Db
    // The value under the targets key, empty if there is none.
    var targets: Bytes

    ghost predicate Valid()
      reads this
    {
      WellKeyed(db)
    }

    // branchtargets
    method Branchtargets() returns (ret: seq<Bytes>)
      ensures ret == Words(targets) && forall i :: 0 <= i < |ret| ==> IsWord(ret[i])
    {
      var parts := Split(targets, SPACE);
      ret := [];
      for i := 0 to |parts|
        invariant ret == NonEmpty(parts[..i])
      {
        assert parts[..i + 1][..i] == parts[..i];
        if parts[i] != [] {
          ret := ret + [parts[i]];
        }
      }
      assert parts[..|parts|] == parts;
      forall i | 0 <= i < |ret| ensures IsWord(ret[i]) {
        WordsAreWords(targets, ret[i]);
      }
    }

    ghost predicate Tracks(branch: Bytes, target: Bytes)
      reads this
    {
      NameOf(branch, target) in Words(targets)
    }

    // The first key at or after `key` among those with the prefix.
    method Seek(prefix: Bytes, key: Bytes) returns (found: Option<Bytes>)
      ensures found.Some? ==> found.value in db && prefix <= found.value && !Less(found.value, key)
      ensures forall k :: k in db && prefix <= k && !Less(k, key) ==> found.Some? && !Less(k, found.value)
    {
      found := None;
      var todo := db.Keys;
      while todo != {}
        invariant todo <= db.Keys
        invariant found.Some? ==> found.value in db && prefix <= found.value && !Less(found.value, key)
        invariant forall k :: k in db && k !in todo && prefix <= k && !Less(k, key) ==> found.Some? && !Less(k, found.value)
      {
        var k :| k in todo;
        if prefix <= k && !Less(k, key) && (found.None? || Less(k, found.value)) {
          if found.Some? {
            forall j | j in db && j !in todo && prefix <= j && !Less(j, key) ensures !Less(j, k) {
              if Less(j, k) { LessTrans(j, k, found.value); }
            }
          }
          found := Some(k);
        }
        LessTrichotomy(k, k);
        todo := todo - {k};
      }
    }

    method Store(branch: Bytes, target: Bytes, buildID: Bytes, commit: Value)
      requires Valid() && Named(branch, target) && commit.Commit?
      modifies this`db
      ensures Valid()
      ensures db == if ToKey(branch, target, buildID).Some? then old(db)[ToKey(branch, target, buildID).value := commit] else old(db)
    {
      var key := ToKey(branch, target, buildID);
      if key.None? {
        return;
      }
      assert IsCommitKey(key.value, branch, target, Atoi(buildID).value);
      db := db[key.value := commit];
    }

    // `api` is what the Android Build API would answer; `called` tells whether it was asked.
    method SingleGet(branch: Bytes, target: Bytes, buildID: Bytes, api: Option<nat>) returns (r: Reply)
      requires Valid() && Named(branch, target)
      modifies this`db
      ensures Valid()
      ensures api.None? ==> r == ApiError && db == old(db)
      ensures api.Some? ==> r == Found(Commit(api.value))
      ensures api.Some? && ToKey(branch, target, buildID).Some? ==>
        db == old(db)[ToKey(branch, target, buildID).value := Commit(api.value)]
      ensures ToKey(branch, target, buildID).None? ==> db == old(db)
    {
      if api.None? {
        return ApiError;
      }
      Store(branch, target, buildID, Commit(api.value));
      return Found(Commit(api.value));
    }

    // On a pair that is tracked: where a seek lands among the stored builds, which is the greatest
    // not above the one asked for exactly under SeekFits.
    method Lookup(branch: Bytes, target: Bytes, buildID: Bytes) returns (r: Option<Reply>)
      requires Valid() && Named(branch, target)
      ensures Atoi(buildID).None? ==> r == Some(BadBuildID)
      ensures Atoi(buildID).Some? ==>
        var n, ids := Atoi(buildID).value, StoredIds(db, branch, target);
        if r.None? then LandsNowhere(ids, n)
        else exists m :: LandsOn(ids, n, m) && r == Some(Found(db[KeyOf(branch, target, m)]))
      ensures Atoi(buildID).Some? ==>
        var n, ids := Atoi(buildID).value, StoredIds(db, branch, target);
        SeekFits(ids, n) ==>
          if r.None? then !HasFloor(ids, n)
          else exists m :: IsFloor(ids, n, m) && r == Some(Found(db[KeyOf(branch, target, m)]))
    {
      var key := ToKey(branch, target, buildID);
      if key.None? {
        return Some(BadBuildID);
      }
      ghost var n, ids := Atoi(buildID).value, StoredIds(db, branch, target);
      var found := Seek(Prefix(branch, target), key.value);
      SeekLands(db, branch, target, n, found);
      if found.None? {
        SeekIsFloorIff(ids, n, None);
        return None;
      }
      ghost var m :| LandsOn(ids, n, m) && found.value == KeyOf(branch, target, m);
      SeekIsFloorIff(ids, n, Some(m));
      match db[found.value] {
        case Commit(hash) => return Some(Found(Commit(hash)));
        case LastBuild(_) => return Some(Undecodable);
      }
    }

    method Get(branch: Bytes, target: Bytes, buildID: Bytes, api: Option<nat>) returns (r: Reply, called: bool)
      requires Valid() && Named(branch, target)
      modifies this
      ensures Valid() && (Tracks(branch, target) <==> SPACE !in NameOf(branch, target))
      ensures !old(Tracks(branch, target)) ==> called && Words(targets) == Words(old(targets)) + Words(NameOf(branch, target))
      ensures old(Tracks(branch, target)) ==> targets == old(targets)
      ensures !called ==> db == old(db)
      ensures called && api.None? ==> r == ApiError && db == old(db)
      ensures called && api.Some? ==> r == Found(Commit(api.value))
      ensures called && api.Some? && ToKey(branch, target, buildID).Some? ==>
        db == old(db)[ToKey(branch, target, buildID).value := Commit(api.value)]
      ensures old(Tracks(branch, target)) && Atoi(buildID).None? ==> !called && r == BadBuildID
      ensures old(Tracks(branch, target)) && Atoi(buildID).Some? ==>
        var n, ids := Atoi(buildID).value, StoredIds(old(db), branch, target);
        if called then LandsNowhere(ids, n)
        else exists m :: LandsOn(ids, n, m) && r == Found(old(db)[KeyOf(branch, target, m)])
      ensures old(Tracks(branch, target)) && Atoi(buildID).Some? ==>
        var n, ids := Atoi(buildID).value, StoredIds(old(db), branch, target);
        SeekFits(ids, n) ==>
          if called then !HasFloor(ids, n)
          else exists m :: IsFloor(ids, n, m) && r == Found(old(db)[KeyOf(branch, target, m)])
    {
      called := false;
      var branchtargets := Branchtargets();
      var name := NameOf(branch, target);
      ListedIff(branchtargets, name);
      if name !in branchtargets {
        WordsOfJoin(branchtargets, name);
        targets := Join(branchtargets + [name]);
        called := true;
        r := SingleGet(branch, target, buildID, api);
        return;
      }
      var stored := Lookup(branch, target, buildID);
      if stored.Some? {
        return stored.value, false;
      }
      called := true;
      r := SingleGet(branch, target, buildID, api);
    }
  }

  // What a seek finds, in terms of build IDs.
  lemma SeekLands(db: Db, branch: Bytes, target: Bytes, n: int, found: Option<Bytes>)
    requires WellKeyed(db) && Named(branch, target) && InRange(n)
    requires var prefix, key := Prefix(branch, target), KeyOf(branch, target, n);
      && (found.Some? ==> found.value in db && prefix <= found.value && !Less(found.value, key))
      && (forall k :: k in db && prefix <= k && !Less(k, key) ==> found.Some? && !Less(k, found.value))
    ensures var ids := StoredIds(db, branch, target);
      if found.Some? then db[found.value].Commit? && exists m :: LandsOn(ids, n, m) && found.value == KeyOf(branch, target, m)
      else LandsNowhere(ids, n)
  {
    var ids := StoredIds(db, branch, target);
    forall x | x in ids ensures Less(KeyOf(branch, target, x), KeyOf(branch, target, n)) <==> Comes(x, n) {
      KeyOrder(branch, target, x, n);
    }
    if found.Some? {
      var m := UnderPrefix(db, branch, target, found.value);
      forall x | x in ids && !Comes(x, n) ensures !Comes(x, m) {
        KeyOrder(branch, target, x, m);
      }
      assert LandsOn(ids, n, m);
    } else {
      forall x | x in ids ensures Comes(x, n) {
        assert Prefix(branch, target) <= KeyOf(branch, target, x);
      }
    }
  }
}
