/**
 What formulas look like, in literal characters (go/calc/lex.go, go/calc/parser.go): names, numbers,
 strings and marks with any white space between them. Every such text is lexed into its pieces, and
 if these are a call, it is parsed as that call.
 */
module CalcSpelling {
  import opened Common
  import opened CalcLexer
  import opened CalcParser

  /******* Characters *******/

  const DIGITS := "0123456789"
  const HEX_DIGITS := "0123456789" + "abcdef" + "ABCDEF"
  const UPPER := "ABCDEFGHIJKLM" + "NOPQRSTUVWXYZ"
  const LOWER := "abcdefghijklm" + "nopqrstuvwxyz"
  const SPACES := " \t\n\r\U{000B}\U{000C}"

  // Character i of s is c.
  ghost predicate Reads(s: string, i: int, c: char) {
    0 <= i < |s| && s[i] == c
  }

  ghost predicate AllIn(s: string, chars: string) {
    forall i, c :: Reads(s, i, c) ==> c in chars
  }

  lemma DigitIs(c: char)
    ensures IsDigit(c) <==> c in DIGITS
  {
    if IsDigit(c) {
      var i := c as int - '0' as int;
      assert DIGITS[i] == c;
    }
  }

  lemma HexDigitIs(c: char)
    ensures In(c, HexDigit) <==> c in HEX_DIGITS
  {
    DigitIs(c);
    var lower, upper := "abcdef", "ABCDEF";
    if 'a' <= c <= 'f' {
      assert lower[c as int - 'a' as int] == c;
    } else if 'A' <= c <= 'F' {
      assert upper[c as int - 'A' as int] == c;
    }
  }

  lemma UpperIs(c: char)
    ensures c in UPPER <==> 'A' <= c <= 'Z'
  {
    var first, last := "ABCDEFGHIJKLM", "NOPQRSTUVWXYZ";
    if 'A' <= c <= 'M' {
      assert first[c as int - 'A' as int] == c;
    } else if 'N' <= c <= 'Z' {
      assert last[c as int - 'N' as int] == c;
    }
  }

  lemma LowerIs(c: char)
    ensures c in LOWER <==> 'a' <= c <= 'z'
  {
    var first, last := "abcdefghijklm", "nopqrstuvwxyz";
    if 'a' <= c <= 'm' {
      assert first[c as int - 'a' as int] == c;
    } else if 'n' <= c <= 'z' {
      assert last[c as int - 'n' as int] == c;
    }
  }

  lemma LetterIs(c: char)
    requires c < '\U{0080}'
    ensures IsLetter(c) <==> c in UPPER || c in LOWER
  {
    UpperIs(c);
    LowerIs(c);
  }

  lemma SpaceIs(c: char)
    requires c < '\U{0080}'
    ensures IsSpace(c) <==> c in SPACES
  {
    if IsSpace(c) {
      assert c == SPACES[0] || c == SPACES[1] || c == SPACES[2] || c == SPACES[3] || c == SPACES[4] || c == SPACES[5];
    }
  }

  /** The lexer rejects the characters that no piece of a formula begins with, and these only. */
  lemma BadIff(s: string, i: nat)
    requires i < |s| && s[i] < '\U{0080}'
    ensures Scan(s, i).Bad? <==>
      && s[i] !in UPPER && s[i] !in LOWER && s[i] !in DIGITS && s[i] !in SPACES
      && s[i] != '+' && s[i] != '-' && s[i] != '"' && s[i] != '(' && s[i] != ')' && s[i] != ','
  {
    LetterIs(s[i]);
    DigitIs(s[i]);
    SpaceIs(s[i]);
  }

  /******* Names *******/

  ghost predicate NameChar(c: char) {
    c in UPPER || c in LOWER || c in DIGITS || c == '_'
  }

  ghost predicate IsName(v: string) {
    v != "" && (forall c :: Reads(v, 0, c) ==> c in UPPER || c in LOWER) && forall i, c :: Reads(v, i, c) ==> NameChar(c)
  }

  lemma NameCharIs(c: char)
    requires c < '\U{0080}'
    ensures In(c, IdentChar) <==> NameChar(c)
  {
    LetterIs(c);
    DigitIs(c);
  }

  /** The names of the lexer are letters, digits and underscores that begin with a letter. */
  lemma ValidNameIff(v: string)
    requires Ascii(v)
    ensures ValidName(v) <==> IsName(v)
  {
    forall i | 0 <= i < |v| ensures Reads(v, i, v[i]) && (In(v[i], IdentChar) <==> NameChar(v[i])) {
      NameCharIs(v[i]);
    }
    if v != "" {
      LetterIs(v[0]);
    }
  }

  /******* Numbers *******/

  // A sign, 0x, digits, a fraction and an exponent, all of them optional.
  datatype Numeral = Numeral(sign: string, base: string, whole: string, fraction: string, e: string, esign: string, power: string)

  ghost function DigitsIn(u: Numeral): string {
    if u.base == "" then DIGITS else HEX_DIGITS
  }

  ghost predicate IsSign(s: string) { s == "" || s == "+" || s == "-" }

  ghost predicate IsFraction(s: string, digits: string) {
    s == "" || (s[0] == '.' && AllIn(s[1..], digits))
  }

  // After 0x there is no exponent, since e and E are digits. The first character is a sign or a digit.
  ghost predicate IsNumeral(u: Numeral) {
    && IsSign(u.sign) && (u.base == "" || u.base == "0x" || u.base == "0X")
    && AllIn(u.whole, DigitsIn(u)) && IsFraction(u.fraction, DigitsIn(u))
    && (u.e == "" || u.e == "e" || u.e == "E") && IsSign(u.esign) && AllIn(u.power, DIGITS)
    && (u.e == "" ==> u.esign == "" && u.power == "") && (u.base != "" ==> u.e == "")
    && (u.sign != "" || u.base != "" || u.whole != "")
  }

  ghost function PowerOf(u: Numeral): string { u.e + (u.esign + u.power) }

  ghost function BodyOf(u: Numeral): string { u.whole + (u.fraction + PowerOf(u)) }

  ghost function Spell(u: Numeral): string { u.sign + (u.base + BodyOf(u)) }

  /******* Where the parts of a number stand *******/

  ghost predicate Run(s: string, i: nat, j: nat, k: Class) {
    i <= j <= |s| && forall x :: i <= x < j ==> In(s[x], k)
  }

  // The exponent from f on: g is after the e, k after its sign, and d is the end.
  ghost predicate PowerAt(s: string, f: nat, g: nat, k: nat, d: nat) {
    && f <= g <= k <= d < |s| && Delimiter(s[d])
    && if g == f then d == f
       else g == f + 1 && In(s[f], Exponent) && (k == g || (k == g + 1 && In(s[g], Sign))) && Run(s, k, d, Digit)
  }

  // The digits from p to b and the fraction to f.
  ghost predicate BodyAt(s: string, p: nat, b: nat, f: nat, hex: bool) {
    && Run(s, p, b, DigitsOf(hex)) && b <= f <= |s|
    && (f == b || (s[b] == '.' && Run(s, b + 1, f, DigitsOf(hex))))
  }

  // The sign from i to a, and 0x to p.
  ghost predicate PrefixAt(s: string, i: nat, a: nat, p: nat, hex: bool) {
    && i <= a <= p <= |s| && (a == i || (a == i + 1 && In(s[i], Sign)))
    && if hex then p == a + 2 && s[a] == '0' && In(s[a + 1], X) else p == a
  }

  lemma DelimiterEnds(s: string, i: nat)
    requires i < |s| && Delimiter(s[i])
    ensures forall k :: k != NotQuote ==> !Accepts(s, i, k)
  {
    forall k | k != NotQuote ensures !Accepts(s, i, k) {
      DelimiterStops(s[i], k);
    }
  }

  lemma PowerTo(s: string, f: nat, g: nat, k: nat, d: nat, hex: bool)
    requires PowerAt(s, f, g, k, d) && (hex ==> d == f)
    ensures ExponentTo(s, f) == d
    ensures !Accepts(s, f, Dot) && !Accepts(s, f, DigitsOf(hex)) && !Accepts(s, f, X) && !Accepts(s, f, Sign)
  {
    DelimiterEnds(s, d);
    if g > f {
      RunIs(s, k, d, Digit);
    }
  }

  lemma BodyIs(s: string, p: nat, b: nat, f: nat, d: nat, hex: bool)
    requires BodyAt(s, p, b, f, hex) && ExponentTo(s, f) == d
    requires !Accepts(s, f, Dot) && !Accepts(s, f, DigitsOf(hex)) && !Accepts(s, f, X) && !Accepts(s, f, Sign)
    ensures BodyTo(s, p, hex) == d
    ensures !Accepts(s, p, Sign) && (!hex ==> !Accepts(s, p, X))
    ensures !hex && Accepts(s, p, Zero) ==> BodyTo(s, p + 1, false) == d && !Accepts(s, p + 1, X)
  {
    FractionIs(s, b, f, hex);
    RunIs(s, p, b, DigitsOf(hex));
    if b > p {
      RunIs(s, p + 1, b, DigitsOf(hex));
    }
  }

  lemma FractionIs(s: string, b: nat, f: nat, hex: bool)
    requires b <= f <= |s| && (f == b || (s[b] == '.' && Run(s, b + 1, f, DigitsOf(hex))))
    requires !Accepts(s, f, Dot) && !Accepts(s, f, DigitsOf(hex)) && !Accepts(s, f, X) && !Accepts(s, f, Sign)
    ensures FractionTo(s, b, hex) == f && !Accepts(s, b, DigitsOf(hex)) && !Accepts(s, b, X) && !Accepts(s, b, Sign)
  {
    if f > b {
      RunIs(s, b + 1, f, DigitsOf(hex));
    }
  }

  lemma PrefixIs(s: string, i: nat, a: nat, p: nat, hex: bool)
    requires PrefixAt(s, i, a, p, hex) && (a > i || hex || p < |s|)
    requires !hex ==> !Accepts(s, p, Sign) && !Accepts(s, p, X) && (Accepts(s, p, Zero) ==> !Accepts(s, p + 1, X))
    ensures PrefixTo(s, i) == (if !hex && Accepts(s, p, Zero) then p + 1 else p) && IsHex(s, i) == hex
  {
  }

  lemma NumberAt(s: string, i: nat, a: nat, p: nat, b: nat, f: nat, g: nat, k: nat, d: nat, hex: bool)
    requires PrefixAt(s, i, a, p, hex) && BodyAt(s, p, b, f, hex) && PowerAt(s, f, g, k, d)
    requires (hex ==> d == f) && (a > i || hex || b > p)
    ensures NumTo(s, i) == d && StartsNumber(s[i])
  {
    PowerTo(s, f, g, k, d, hex);
    BodyIs(s, p, b, f, d, hex);
    PrefixIs(s, i, a, p, hex);
  }

  // Positions of all parts, the last of them followed by a delimiter.
  datatype Ends = Ends(a: nat, p: nat, b: nat, f: nat, g: nat, k: nat, d: nat)

  ghost predicate InOrder(s: string, i: nat, n: Ends) {
    i <= n.a <= n.p <= n.b <= n.f <= n.g <= n.k <= n.d < |s|
  }

  ghost predicate NumeralAt(s: string, i: nat, n: Ends) {
    var hex := n.p > n.a;
    && PrefixAt(s, i, n.a, n.p, hex) && BodyAt(s, n.p, n.b, n.f, hex) && PowerAt(s, n.f, n.g, n.k, n.d)
    && (hex ==> n.d == n.f) && (n.a > i || hex || n.b > n.p)
  }

  ghost predicate CutsInto(s: string, i: nat, n: Ends, u: Numeral)
    requires InOrder(s, i, n)
  {
    && u.sign == s[i..n.a] && u.base == s[n.a..n.p] && u.whole == s[n.p..n.b] && u.fraction == s[n.b..n.f]
    && u.e == s[n.f..n.g] && u.esign == s[n.g..n.k] && u.power == s[n.k..n.d]
  }

  lemma SignIff(s: string, i: nat, j: nat)
    requires i <= j <= |s|
    ensures IsSign(s[i..j]) <==> j == i || (j == i + 1 && In(s[i], Sign))
  {
    if j == i + 1 {
      assert s[i..j] == [s[i]];
    }
  }

  lemma BaseIff(s: string, a: nat, p: nat)
    requires a <= p <= |s|
    ensures s[a..p] == "" || s[a..p] == "0x" || s[a..p] == "0X" <==> p == a || (p == a + 2 && s[a] == '0' && In(s[a + 1], X))
  {
    if p == a + 2 {
      assert s[a..p] == [s[a], s[a + 1]];
    }
  }

  lemma DigitsIff(s: string, i: nat, j: nat, hex: bool)
    requires i <= j <= |s|
    ensures AllIn(s[i..j], if hex then HEX_DIGITS else DIGITS) <==> Run(s, i, j, DigitsOf(hex))
  {
    var w, chars := s[i..j], if hex then HEX_DIGITS else DIGITS;
    forall x | i <= x < j ensures Reads(w, x - i, s[x]) && (s[x] in chars <==> In(s[x], DigitsOf(hex))) {
      DigitIs(s[x]);
      HexDigitIs(s[x]);
    }
    forall x, c | Run(s, i, j, DigitsOf(hex)) && Reads(w, x, c) ensures c in chars {
      assert s[i + x] == c;
    }
  }

  lemma FractionIff(s: string, b: nat, f: nat, hex: bool)
    requires b <= f <= |s|
    ensures IsFraction(s[b..f], if hex then HEX_DIGITS else DIGITS)
       <==> f == b || (s[b] == '.' && Run(s, b + 1, f, DigitsOf(hex)))
  {
    if f > b {
      assert s[b..f][1..] == s[b + 1..f];
      DigitsIff(s, b + 1, f, hex);
    }
  }

  lemma PowerIff(s: string, f: nat, g: nat, k: nat, d: nat)
    requires f <= g <= k <= d < |s| && Delimiter(s[d])
    ensures PowerAt(s, f, g, k, d) <==>
      && (s[f..g] == "" || s[f..g] == "e" || s[f..g] == "E") && IsSign(s[g..k]) && AllIn(s[k..d], DIGITS)
      && (s[f..g] == "" ==> s[g..k] == "" && s[k..d] == "")
  {
    if g == f + 1 {
      assert s[f..g] == [s[f]];
    }
    SignIff(s, g, k);
    DigitsIff(s, k, d, false);
  }

  lemma NumeralIff(s: string, i: nat, n: Ends, u: Numeral)
    requires InOrder(s, i, n) && CutsInto(s, i, n, u) && Delimiter(s[n.d])
    ensures IsNumeral(u) <==> NumeralAt(s, i, n)
  {
    SignIff(s, i, n.a);
    BaseIff(s, n.a, n.p);
    DigitsIff(s, n.p, n.b, n.p > n.a);
    FractionIff(s, n.b, n.f, n.p > n.a);
    PowerIff(s, n.f, n.g, n.k, n.d);
  }

  lemma SliceThree(s: string, i: nat, j: nat, k: nat, l: nat)
    requires i <= j <= k <= l <= |s|
    ensures s[i..j] + (s[j..k] + s[k..l]) == s[i..l]
  {
  }

  lemma Cut(s: string, i: nat, n: Ends, u: Numeral)
    requires InOrder(s, i, n) && CutsInto(s, i, n, u)
    ensures Spell(u) == s[i..n.d]
  {
    SliceThree(s, n.f, n.g, n.k, n.d);
    SliceThree(s, n.p, n.b, n.f, n.d);
    SliceThree(s, i, n.a, n.p, n.d);
  }

  lemma CutThree(s: string, i: nat, a: string, b: string, c: string)
    requires Stands(s, i, a + (b + c))
    ensures var j := i + |a|;
      var k := j + |b|;
      var l := k + |c|;
      l == i + |a + (b + c)| && l <= |s| && a == s[i..j] && b == s[j..k] && c == s[k..l]
  {
    StandsSplit(s, i, a, b + c);
    StandsSplit(s, i + |a|, b, c);
  }

  lemma CutBody(s: string, p: nat, u: Numeral) returns (b: nat, f: nat, g: nat, k: nat, d: nat)
    requires Stands(s, p, BodyOf(u))
    ensures p <= b <= f <= g <= k <= d <= |s| && d == p + |BodyOf(u)|
    ensures u.whole == s[p..b] && u.fraction == s[b..f] && u.e == s[f..g] && u.esign == s[g..k] && u.power == s[k..d]
  {
    CutThree(s, p, u.whole, u.fraction, PowerOf(u));
    b := p + |u.whole|;
    f := b + |u.fraction|;
    g, k, d := CutPower(s, f, u);
  }

  lemma CutPower(s: string, f: nat, u: Numeral) returns (g: nat, k: nat, d: nat)
    requires Stands(s, f, PowerOf(u))
    ensures f <= g <= k <= d <= |s| && d == f + |PowerOf(u)|
    ensures u.e == s[f..g] && u.esign == s[g..k] && u.power == s[k..d]
  {
    CutThree(s, f, u.e, u.esign, u.power);
    g := f + |u.e|;
    k := g + |u.esign|;
    d := k + |u.power|;
  }

  lemma CutNumeral(s: string, i: nat, u: Numeral) returns (n: Ends)
    requires Followed(s, i, Spell(u))
    ensures InOrder(s, i, n) && CutsInto(s, i, n, u) && n.d == i + |Spell(u)|
  {
    CutThree(s, i, u.sign, u.base, BodyOf(u));
    var a := i + |u.sign|;
    var p := a + |u.base|;
    var b, f, g, k, d := CutBody(s, p, u);
    n := Ends(a, p, b, f, g, k, d);
  }

  lemma NumeralSpelled(s: string, i: nat, u: Numeral)
    requires IsNumeral(u) && Followed(s, i, Spell(u))
    ensures StartsNumber(s[i]) && NumTo(s, i) == i + |Spell(u)|
  {
    var n := CutNumeral(s, i, u);
    NumeralPlaced(s, i, n, u);
    NumeralEnds(s, i, n);
  }

  lemma NumeralPlaced(s: string, i: nat, n: Ends, u: Numeral)
    requires InOrder(s, i, n) && CutsInto(s, i, n, u) && Delimiter(s[n.d]) && IsNumeral(u)
    ensures NumeralAt(s, i, n)
  {
    NumeralIff(s, i, n, u);
  }

  lemma NumeralEnds(s: string, i: nat, n: Ends)
    requires InOrder(s, i, n) && NumeralAt(s, i, n)
    ensures StartsNumber(s[i]) && NumTo(s, i) == n.d
  {
    NumberAt(s, i, n.a, n.p, n.b, n.f, n.g, n.k, n.d, n.p > n.a);
  }

  lemma {:induction false} RunToRuns(s: string, i: nat, k: Class)
    requires i <= |s|
    ensures Run(s, i, RunTo(s, i, k), k)
    decreases |s| - i
  {
    if Accepts(s, i, k) {
      RunToRuns(s, i + 1, k);
    }
  }

  lemma FractionHas(s: string, b: nat, hex: bool)
    requires b <= |s| && !Accepts(s, b, DigitsOf(hex))
    ensures var f := FractionTo(s, b, hex);
      (f == b || (s[b] == '.' && Run(s, b + 1, f, DigitsOf(hex)))) && !Accepts(s, f, DigitsOf(hex))
  {
    if Accepts(s, b, Dot) {
      RunToRuns(s, b + 1, DigitsOf(hex));
    }
  }

  lemma PowerHas(s: string, f: nat) returns (g: nat, k: nat)
    requires f <= |s| && ExponentTo(s, f) < |s| && Delimiter(s[ExponentTo(s, f)])
    ensures PowerAt(s, f, g, k, ExponentTo(s, f)) && (g > f ==> In(s[f], Exponent))
  {
    if Accepts(s, f, Exponent) {
      g, k := f + 1, OptTo(s, f + 1, Sign);
      RunToRuns(s, k, Digit);
    } else {
      g, k := f, f;
    }
  }

  lemma PrefixHas(s: string, i: nat) returns (a: nat, p: nat)
    requires i < |s| && StartsNumber(s[i])
    ensures PrefixAt(s, i, a, p, p > a) && (p > a <==> IsHex(s, i))
    ensures p <= PrefixTo(s, i) && Run(s, p, PrefixTo(s, i), Digit) && (p > a ==> p == PrefixTo(s, i))
    ensures a > i || p > a || (In(s[i], Digit) && p == i)
  {
    a := OptTo(s, i, Sign);
    p := if IsHex(s, i) then a + 2 else a;
  }

  lemma NumeralHas(s: string, i: nat) returns (n: Ends)
    requires i < |s| && StartsNumber(s[i]) && NumTo(s, i) < |s| && Delimiter(s[NumTo(s, i)])
    ensures InOrder(s, i, n) && NumeralAt(s, i, n) && n.d == NumTo(s, i)
  {
    var a, p := PrefixHas(s, i);
    var hex := p > a;
    var r := PrefixTo(s, i);
    var b := RunTo(s, r, DigitsOf(hex));
    RunToRuns(s, r, DigitsOf(hex));
    FractionHas(s, b, hex);
    var f := FractionTo(s, b, hex);
    var g, k := PowerHas(s, f);
    n := Ends(a, p, b, f, g, k, NumTo(s, i));
    assert !hex && p < r ==> b > p;
  }

  ghost predicate IsNumber(v: string) {
    exists u :: IsNumeral(u) && Spell(u) == v
  }

  /** The numbers of the lexer are the numerals, and these only. */
  lemma ValidNumberIff(v: string)
    ensures ValidNumber(v) <==> IsNumber(v)
  {
    if u :| IsNumeral(u) && Spell(u) == v {
      forall w | w != "" && Delimiter(w[0]) ensures StartsNumber((v + w)[0]) && NumTo(v + w, 0) == |v| {
        NumeralSpelled(v + w, 0, u);
      }
      assert StartsNumber((v + ",")[0]);
    }
    if ValidNumber(v) {
      var u := NumeralOf(v);
    }
  }

  lemma NumeralOf(v: string) returns (u: Numeral)
    requires ValidNumber(v)
    ensures IsNumeral(u) && Spell(u) == v
  {
    var s := v + ",";
    assert NumTo(s, 0) == |v|;
    var n := NumeralHas(s, 0);
    u := Numeral(s[0..n.a], s[n.a..n.p], s[n.p..n.b], s[n.b..n.f], s[n.f..n.g], s[n.g..n.k], s[n.k..n.d]);
    NumeralIff(s, 0, n, u);
    Cut(s, 0, n, u);
  }

  // In 0x1e+5 the e is a digit, so the number ends in front of the sign.
  lemma HexHasNoExponent()
    ensures NumTo("0x1e+5,", 0) == 4 && !ValidNumber("0x1e+5")
  {
    var s := "0x1e+5,";
    assert PrefixTo(s, 0) == 2 && IsHex(s, 0);
    RunIs(s, 2, 4, HexDigit);
    assert "0x1e+5" + "," == s;
  }

  /******* Texts *******/

  // A piece of a formula. A string is written between quotes.
  datatype Piece = Gap(text: string) | Name(text: string) | Number(text: string) | Quoted(text: string) | Open | Close | Separator

  ghost predicate IsPiece(p: Piece) {
    match p
    case Gap(v) => AllIn(v, SPACES)
    case Name(v) => IsName(v)
    case Number(v) => Ascii(v) && IsNumber(v)
    case Quoted(v) => Ascii(v) && '"' !in v
    case _ => true
  }

  function Write(p: Piece): string {
    match p
    case Gap(v) => v
    case Name(v) => v
    case Number(v) => v
    case Quoted(v) => "\"" + v + "\""
    case Open => "("
    case Close => ")"
    case Separator => ","
  }

  function ItemOf(p: Piece): seq<Item> {
    match p
    case Gap(_) => []
    case Name(v) => [Item(Identifier, v)]
    case Number(v) => [Item(Num, v)]
    case Quoted(v) => [Item(String, v)]
    case Open => [Item(LParen, "(")]
    case Close => [Item(RParen, ")")]
    case Separator => [Item(Comma, ",")]
  }

  function WriteAll(ps: seq<Piece>): string {
    if ps == [] then "" else Write(ps[0]) + WriteAll(ps[1..])
  }

  function ItemsOf(ps: seq<Piece>): seq<Item> {
    if ps == [] then [] else ItemOf(ps[0]) + ItemsOf(ps[1..])
  }

  // Names and numbers do not touch each other, and are not the last.
  ghost predicate Separate(p: Piece, rest: seq<Piece>) {
    p.Name? || p.Number? ==> rest != [] && !rest[0].Name? && !rest[0].Number? && (rest[0].Gap? ==> rest[0].text != "")
  }

  ghost predicate IsText(ps: seq<Piece>) {
    ps != [] ==> IsPiece(ps[0]) && Separate(ps[0], ps[1..]) && IsText(ps[1..])
  }

  lemma {:induction false} YieldsGap(s: string, i: nat, v: string)
    requires AllIn(v, SPACES) && Stands(s, i, v)
    ensures Yields(s, i, [], i + |v|)
    decreases |v|
  {
    if v == "" {
      YieldsNothing(s, i);
    } else {
      StandsAt(s, i, v, 0);
      assert Reads(v, 0, v[0]);
      AllInRest(v, SPACES);
      assert v == [v[0]] + v[1..];
      StandsSplit(s, i, [v[0]], v[1..]);
      YieldsSpace(s, i);
      YieldsGap(s, i + 1, v[1..]);
      var none: seq<Item> := [];
      YieldsTrans(s, i, none, i + 1, none, i + |v|);
      assert none + none == none;
    }
  }

  lemma AllInRest(v: string, chars: string)
    requires v != "" && AllIn(v, chars)
    ensures AllIn(v[1..], chars)
  {
    forall i, c | Reads(v[1..], i, c) ensures c in chars {
      assert Reads(v, i + 1, c);
    }
  }

  lemma YieldsSpace(s: string, i: nat)
    requires i < |s| && s[i] in SPACES
    ensures Yields(s, i, [], i + 1)
  {
    SpaceIsSpace(s[i]);
    YieldsLexeme(s, i, i + 1, None, false);
  }

  lemma SpaceIsSpace(c: char)
    requires c in SPACES
    ensures IsSpace(c) && c != '"' && !IsLetter(c) && c != '(' && c != ')' && c != ','
  {
  }

  // What comes after a name or a number ends it.
  lemma HeadDelimits(rest: seq<Piece>)
    requires rest != [] && IsText(rest) && !rest[0].Name? && !rest[0].Number? && (rest[0].Gap? ==> rest[0].text != "")
    ensures WriteAll(rest) != "" && Delimiter(WriteAll(rest)[0])
  {
    var p := rest[0];
    assert IsPiece(p) && WriteAll(rest) == Write(p) + WriteAll(rest[1..]);
    if p.Gap? {
      assert Reads(p.text, 0, p.text[0]);
      SpaceIsSpace(p.text[0]);
    }
  }

  lemma YieldsGapPiece(s: string, i: nat, p: Piece)
    requires p.Gap? && IsPiece(p) && Stands(s, i, Write(p))
    ensures Yields(s, i, ItemOf(p), i + |Write(p)|)
  {
    YieldsGap(s, i, p.text);
  }

  lemma YieldsNamePiece(s: string, i: nat, p: Piece)
    requires p.Name? && IsPiece(p) && Followed(s, i, Write(p))
    ensures Yields(s, i, ItemOf(p), i + |Write(p)|)
  {
    NameIsValid(p.text);
    YieldsName(s, i, p.text);
  }

  lemma YieldsNumberPiece(s: string, i: nat, p: Piece)
    requires p.Number? && IsPiece(p) && Followed(s, i, Write(p))
    ensures Yields(s, i, ItemOf(p), i + |Write(p)|)
  {
    NumberIsValid(p.text);
    YieldsNumber(s, i, p.text);
  }

  lemma YieldsQuotedPiece(s: string, i: nat, p: Piece)
    requires p.Quoted? && IsPiece(p) && Stands(s, i, Write(p))
    ensures Yields(s, i, ItemOf(p), i + |Write(p)|)
  {
    YieldsString(s, i, p.text);
  }

  lemma YieldsMark(s: string, i: nat, p: Piece)
    requires (p.Open? || p.Close? || p.Separator?) && Stands(s, i, Write(p))
    ensures Yields(s, i, ItemOf(p), i + |Write(p)|)
  {
    StandsAt(s, i, Write(p), 0);
    YieldsChar(s, i);
  }

  lemma NumberIsValid(v: string)
    requires IsNumber(v)
    ensures ValidNumber(v)
  {
    ValidNumberIff(v);
  }

  lemma NameIsValid(v: string)
    requires IsName(v)
    ensures ValidName(v)
  {
    NameIsAscii(v);
    ValidNameIff(v);
  }

  lemma NameIsAscii(v: string)
    requires IsName(v)
    ensures Ascii(v)
  {
    forall i | 0 <= i < |v| ensures v[i] < '\U{0080}' {
      assert Reads(v, i, v[i]) && NameChar(v[i]);
      UpperIs(v[i]);
      LowerIs(v[i]);
      DigitIs(v[i]);
    }
  }

  /** Lexing a text gives the items of its pieces, whatever white space there is and whatever follows. */
  lemma {:induction false} YieldsText(s: string, i: nat, ps: seq<Piece>)
    requires IsText(ps) && Stands(s, i, WriteAll(ps))
    ensures Yields(s, i, ItemsOf(ps), i + |WriteAll(ps)|)
    decreases |ps|
  {
    if ps == [] {
      YieldsNothing(s, i);
    } else {
      var p, rest := ps[0], ps[1..];
      var j := i + |Write(p)|;
      SeparateEnds(p, rest);
      FirstYields(s, i, p, WriteAll(rest));
      YieldsText(s, j, rest);
      YieldsTrans(s, i, ItemOf(p), j, ItemsOf(rest), j + |WriteAll(rest)|);
    }
  }

  ghost predicate EndedBy(p: Piece, tail: string) {
    p.Name? || p.Number? ==> tail != "" && Delimiter(tail[0])
  }

  lemma SeparateEnds(p: Piece, rest: seq<Piece>)
    requires Separate(p, rest) && IsText(rest)
    ensures EndedBy(p, WriteAll(rest))
  {
    if p.Name? || p.Number? {
      HeadDelimits(rest);
    }
  }

  lemma FirstYields(s: string, i: nat, p: Piece, tail: string)
    requires IsPiece(p) && EndedBy(p, tail) && Stands(s, i, Write(p) + tail)
    ensures Yields(s, i, ItemOf(p), i + |Write(p)|) && Stands(s, i + |Write(p)|, tail)
  {
    BeforeStands(s, i, Write(p), tail);
    YieldsPiece(s, i, p);
  }

  lemma BeforeStands(s: string, i: nat, w: string, tail: string)
    requires Stands(s, i, w + tail)
    ensures Stands(s, i, w) && Stands(s, i + |w|, tail)
    ensures tail != "" && Delimiter(tail[0]) ==> Followed(s, i, w)
  {
    StandsSplit(s, i, w, tail);
    if tail != "" {
      StandsAt(s, i + |w|, tail, 0);
    }
  }

  lemma YieldsPiece(s: string, i: nat, p: Piece)
    requires IsPiece(p) && Stands(s, i, Write(p)) && (p.Name? || p.Number? ==> Followed(s, i, Write(p)))
    ensures Yields(s, i, ItemOf(p), i + |Write(p)|)
  {
    if p.Name? || p.Number? {
      YieldsOpenPiece(s, i, p);
    } else {
      YieldsClosedPiece(s, i, p);
    }
  }

  lemma YieldsOpenPiece(s: string, i: nat, p: Piece)
    requires (p.Name? || p.Number?) && IsPiece(p) && Followed(s, i, Write(p))
    ensures Yields(s, i, ItemOf(p), i + |Write(p)|)
  {
    if p.Name? {
      YieldsNamePiece(s, i, p);
    } else {
      YieldsNumberPiece(s, i, p);
    }
  }

  lemma YieldsClosedPiece(s: string, i: nat, p: Piece)
    requires !p.Name? && !p.Number? && IsPiece(p) && Stands(s, i, Write(p))
    ensures Yields(s, i, ItemOf(p), i + |Write(p)|)
  {
    match p
    case Gap(_) => YieldsGapPiece(s, i, p);
    case Quoted(_) => YieldsQuotedPiece(s, i, p);
    case _ => YieldsMark(s, i, p);
  }

  lemma TextIsSentFirst(ps: seq<Piece>, s: string, n: Node)
    requires IsText(ps) && WriteAll(ps) <= s && n.Func? && ItemsOf(ps) == Tokens(n)
    ensures Tokens(n) <= Sent(s, 0)
  {
    var w := WriteAll(ps);
    assert s[0..|w|] == w;
    YieldsText(s, 0, ps);
    YieldedIsSent(s, n, |w|);
  }

  /** Wherever an input begins with a text of a call, in any layout, that call is what is parsed. */
  lemma TextIsParsed(ps: seq<Piece>, s: string, n: Node)
    requires IsText(ps) && WriteAll(ps) <= s && n.Func? && ItemsOf(ps) == Tokens(n)
    ensures ParseExp(Heard(s), 0) == Done(n, |Tokens(n)|)
    ensures Result(ParseExp(Lex(s, 0), 0)) == Some(n)
  {
    TextIsSentFirst(ps, s, n);
    SentFirstIsRead(n, s);
  }

  // parse, on the text of a call with anything after it.
  method ParseText(input: string, ghost ps: seq<Piece>, ghost n: Node) returns (r: Option<Node>)
    requires Ascii(input) && IsText(ps) && WriteAll(ps) <= input && n.Func? && ItemsOf(ps) == Tokens(n)
    ensures r == Some(n)
  {
    TextIsParsed(ps, input, n);
    r := Parse(input);
  }

  lemma SmallNumbers()
    ensures IsNumber("9") && IsNumber("1e-9")
  {
    var nine := Numeral("", "", "9", "", "", "", "");
    var tiny := Numeral("", "", "1", "", "e", "-", "9");
    assert IsNumeral(nine) && Spell(nine) == "9";
    assert IsNumeral(tiny) && Spell(tiny) == "1e-9";
  }

  /** A name with a number in parentheses is a call with that number, whatever its spelling. */
  lemma NumberIsParsed(f: string, v: string, s: string)
    requires IsName(f) && Ascii(v) && IsNumber(v) && f + "(" + v + ")" <= s
    ensures Result(ParseExp(Lex(s, 0), 0)) == Some(Func(f, [NumNode(v)]))
  {
    NameIsAscii(f);
    NameIsValid(f);
    NumberIsValid(v);
    var n := Func(f, [NumNode(v)]);
    assert PrintAll(n.args) == [v] && Print(n) == f + "(" + v + ")";
    CallIsReadFirst(n, s);
  }
}
