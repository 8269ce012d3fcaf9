/**
 The comparison of two CSV files (ct/py/csv_comparer.py): totals of the paired values of each field,
 the pages that differ enough to be listed, and the removal of outliers. Floating-point numbers
 are exact here.
 */
module CsvComparer {
  import opened Common
  import opened CsvMerge

  // _GetPercentageDiff
  function PercentageDiff(v1: real, v2: real): real {
    var avg := (v2 + v1) / 2.0;
    if avg == 0.0 then 0.0 else (v2 - v1) / avg * 100.0
  }

  // _GetPercentageChange
  function PercentageChange(v1: real, v2: real): real {
    if v1 == 0.0 then 0.0 else (v2 - v1) / v1 * 100.0
  }

  // One field of one pair of rows, both values being numbers; diff is their percentage difference.
  datatype Entry = Entry(field: Field, page: Name, v1: real, v2: real, diff: real)

  predicate SameOrAbove(diff: real, threshold: real) {
    (if diff < 0.0 then -diff else diff) >= threshold
  }

  function NumberIn(cell: Cell): Option<real> {
    match cell
    case Dash => Some(0.0)
    case Number(v) => Some(v)
    case Empty => None
    case Text => None
  }

  // A column that the second file lacks in this row reads as empty.
  function CellOf(row: Row, f: Field): Cell {
    if f in row.cells then row.cells[f] else Empty
  }

  function EntryOf(pair: (Row, Row), f: Field): Option<Entry> {
    if f !in pair.0.cells then None
    else
      var n1, n2 := NumberIn(pair.0.cells[f]), NumberIn(CellOf(pair.1, f));
      if n1.None? || n2.None? then None else Some(Entry(f, pair.1.page, n1.value, n2.value, PercentageDiff(n1.value, n2.value)))
  }

  /******* The numbers, by equations *******/

  // d is the difference of v1 and v2 in percent of their mean.
  ghost predicate PercentOfMean(v1: real, v2: real, d: real) {
    if v1 + v2 == 0.0 then d == 0.0 else d * (v1 + v2) == 200.0 * (v2 - v1)
  }

  // v2 is v1 changed by c percent.
  ghost predicate PercentOfFirst(v1: real, v2: real, c: real) {
    if v1 == 0.0 then c == 0.0 else (100.0 + c) * v1 == 100.0 * v2
  }

  lemma Divided(a: real, b: real, d: real)
    requires b != 0.0
    ensures a / b * 100.0 == d <==> d * b == 100.0 * a
  {
    var q := a / b;
    assert q * b == a;
    assert q * 100.0 == d ==> d * b == 100.0 * (q * b);
    if d * b == 100.0 * a {
      assert (d - 100.0 * q) * b == 0.0;
    }
  }

  // Those equations have one solution, the one that is computed.
  lemma PercentageDiffIs(v1: real, v2: real, d: real)
    ensures d == PercentageDiff(v1, v2) <==> PercentOfMean(v1, v2, d)
  {
    if v1 + v2 != 0.0 {
      Divided(v2 - v1, (v2 + v1) / 2.0, d);
      assert d * ((v2 + v1) / 2.0) * 2.0 == d * (v1 + v2);
    }
  }

  lemma PercentageChangeIs(v1: real, v2: real, c: real)
    ensures c == PercentageChange(v1, v2) <==> PercentOfFirst(v1, v2, c)
  {
    if v1 != 0.0 {
      Divided(v2 - v1, v1, c);
      assert (100.0 + c) * v1 == 100.0 * v1 + c * v1;
    }
  }

  // A cell shows a number; a dash stands for zero.
  ghost predicate Shows(cell: Cell, v: real) {
    cell == Number(v) || (cell == Dash && v == 0.0)
  }

  ghost predicate IsEntry(pair: (Row, Row), f: Field, e: Entry) {
    && e.field == f && e.page == pair.1.page
    && f in pair.0.cells && Shows(pair.0.cells[f], e.v1)
    && f in pair.1.cells && Shows(pair.1.cells[f], e.v2)
    && PercentOfMean(e.v1, e.v2, e.diff)
  }

  /** A pair of rows has an entry for a field exactly if both cells show a number: these, and their difference. */
  lemma EntryIs(pair: (Row, Row), f: Field, e: Entry)
    ensures EntryOf(pair, f) == Some(e) <==> IsEntry(pair, f, e)
  {
    PercentageDiffIs(e.v1, e.v2, e.diff);
    if f in pair.0.cells {
      var n1, n2 := NumberIn(pair.0.cells[f]), NumberIn(CellOf(pair.1, f));
      assert n1 == Some(e.v1) <==> Shows(pair.0.cells[f], e.v1);
      assert n2 == Some(e.v2) <==> f in pair.1.cells && Shows(pair.1.cells[f], e.v2);
    }
  }

  /******* What is collected, as a function of the entries so far *******/

  ghost function EntriesOf(pair: (Row, Row), fields: seq<Field>): seq<Entry> {
    if fields == [] then []
    else
      var f := fields[|fields| - 1];
      EntriesOf(pair, fields[..|fields| - 1]) + if EntryOf(pair, f).Some? then [EntryOf(pair, f).value] else []
  }

  ghost function AllEntries(pairs: seq<(Row, Row)>, fields: seq<Field>): seq<Entry> {
    if pairs == [] then [] else AllEntries(pairs[..|pairs| - 1], fields) + EntriesOf(pairs[|pairs| - 1], fields)
  }

  lemma {:induction false} EntriesOfHolds(pair: (Row, Row), fields: seq<Field>, e: Entry)
    ensures e in EntriesOf(pair, fields) <==> exists f :: f in fields && IsEntry(pair, f, e)
  {
    if fields != [] {
      var init, f := fields[..|fields| - 1], fields[|fields| - 1];
      assert fields == init + [f];
      EntriesOfHolds(pair, init, e);
      EntryIs(pair, f, e);
    }
  }

  ghost predicate ComesFrom(pairs: seq<(Row, Row)>, fields: seq<Field>, e: Entry) {
    exists pair, f :: pair in pairs && f in fields && IsEntry(pair, f, e)
  }

  /** What is collected are the entries of the pairs. */
  lemma {:induction false} AllEntriesHold(pairs: seq<(Row, Row)>, fields: seq<Field>, e: Entry)
    ensures e in AllEntries(pairs, fields) <==> ComesFrom(pairs, fields, e)
  {
    if pairs != [] {
      var init, pair := pairs[..|pairs| - 1], pairs[|pairs| - 1];
      assert pairs == init + [pair];
      AllEntriesHold(init, fields, e);
      EntriesOfHolds(pair, fields, e);
      if e in EntriesOf(pair, fields) {
        var f :| f in fields && IsEntry(pair, f, e);
        assert pair in pairs;
      }
    }
  }

  ghost function OfField(es: seq<Entry>, f: Field): seq<Entry> {
    if es == [] then []
    else OfField(es[..|es| - 1], f) + if es[|es| - 1].field == f then [es[|es| - 1]] else []
  }

  lemma {:induction false} OfFieldConcat(a: seq<Entry>, b: seq<Entry>, f: Field)
    ensures OfField(a + b, f) == OfField(a, f) + OfField(b, f)
  {
    if b == [] {
      assert a + b == a;
    } else {
      var init, e := b[..|b| - 1], b[|b| - 1];
      OfFieldConcat(a, init, f);
      assert (a + b)[..|a + b| - 1] == a + init;
    }
  }

  lemma {:induction false} OfFieldInPair(pair: (Row, Row), fields: seq<Field>, f: Field)
    requires Distinct(fields)
    ensures OfField(EntriesOf(pair, fields), f) == if f in fields && EntryOf(pair, f).Some? then [EntryOf(pair, f).value] else []
  {
    if fields != [] {
      var init, last := fields[..|fields| - 1], fields[|fields| - 1];
      assert fields == init + [last];
      OfFieldInPair(pair, init, f);
      var e := EntryOf(pair, last);
      var more := if e.Some? then [e.value] else [];
      OfFieldConcat(EntriesOf(pair, init), more, f);
      assert OfField(more, f) == if last == f then more else [];
      assert forall i :: 0 <= i < |init| ==> fields[i] != fields[|init|];
    }
  }

  // The entries of one column, pair by pair.
  ghost function Column(pairs: seq<(Row, Row)>, f: Field): seq<Entry> {
    if pairs == [] then []
    else
      var e := EntryOf(pairs[|pairs| - 1], f);
      Column(pairs[..|pairs| - 1], f) + if e.Some? then [e.value] else []
  }

  /** Each pair counts once for each column, in the order of the pairs. */
  lemma {:induction false} OneEntryPerPair(pairs: seq<(Row, Row)>, fields: seq<Field>, f: Field)
    requires Distinct(fields) && f in fields
    ensures OfField(AllEntries(pairs, fields), f) == Column(pairs, f)
  {
    if pairs != [] {
      var init, pair := pairs[..|pairs| - 1], pairs[|pairs| - 1];
      OneEntryPerPair(init, fields, f);
      OfFieldConcat(AllEntries(init, fields), EntriesOf(pair, fields), f);
      OfFieldInPair(pair, fields, f);
    }
  }

  ghost function Listed(es: seq<Entry>, threshold: real): seq<Entry> {
    if es == [] then []
    else
      var e := es[|es| - 1];
      Listed(es[..|es| - 1], threshold) + if SameOrAbove(e.diff, threshold) then [e] else []
  }

  ghost function Sum1(es: seq<Entry>): real {
    if es == [] then 0.0 else Sum1(es[..|es| - 1]) + es[|es| - 1].v1
  }

  ghost function Sum2(es: seq<Entry>): real {
    if es == [] then 0.0 else Sum2(es[..|es| - 1]) + es[|es| - 1].v2
  }

  // FieldNameValues
  datatype Totals = Totals(v1: real, v2: real, percDiff: real, percChange: real, pagesReported: nat)

  // What the two dictionaries say about one field after the entries es of that field.
  ghost predicate Tallied(es: seq<Entry>, threshold: real, total: Option<Totals>, pages: Option<seq<Entry>>) {
    && total == (if es == [] then None else Some(Totals(Sum1(es), Sum2(es), 0.0, 0.0, 0)))
    && pages == (if Listed(es, threshold) == [] then None else Some(Listed(es, threshold)))
  }

  function Lookup<V>(m: map<Field, V>, f: Field): Option<V> {
    if f in m then Some(m[f]) else None
  }

  lemma TallyOne(es: seq<Entry>, e: Entry, threshold: real, total: Option<Totals>, pages: Option<seq<Entry>>)
    requires Tallied(es, threshold, total, pages)
    ensures var t := if total.None? then Totals(0.0, 0.0, 0.0, 0.0, 0) else total.value;
      var l := if pages.None? then [] else pages.value;
      Tallied(es + [e], threshold, Some(t.(v1 := t.v1 + e.v1, v2 := t.v2 + e.v2)),
              if SameOrAbove(e.diff, threshold) then Some(l + [e]) else pages)
  {
    assert (es + [e])[..|es|] == es;
    var l := if pages.None? then [] else pages.value;
    assert l == Listed(es, threshold);
    if SameOrAbove(e.diff, threshold) {
      assert Listed(es + [e], threshold) == l + [e];
    } else {
      assert Listed(es + [e], threshold) == l;
    }
  }

  ghost predicate TalliedAt(es: seq<Entry>, threshold: real, totals: map<Field, Totals>, pages: map<Field, seq<Entry>>, f: Field) {
    Tallied(OfField(es, f), threshold, Lookup(totals, f), Lookup(pages, f))
  }

  // What the dictionaries hold after the entries es.
  ghost predicate AllTallied(es: seq<Entry>, threshold: real, totals: map<Field, Totals>, pages: map<Field, seq<Entry>>) {
    forall f :: TalliedAt(es, threshold, totals, pages, f)
  }

  function AddTotal(totals: map<Field, Totals>, e: Entry): map<Field, Totals> {
    var t := if e.field in totals then totals[e.field] else Totals(0.0, 0.0, 0.0, 0.0, 0);
    totals[e.field := t.(v1 := t.v1 + e.v1, v2 := t.v2 + e.v2)]
  }

  function AddPage(pages: map<Field, seq<Entry>>, e: Entry): map<Field, seq<Entry>> {
    pages[e.field := (if e.field in pages then pages[e.field] else []) + [e]]
  }

  function PagesWith(pages: map<Field, seq<Entry>>, e: Entry, threshold: real): map<Field, seq<Entry>> {
    if SameOrAbove(e.diff, threshold) then AddPage(pages, e) else pages
  }

  // The dictionaries after one more value, at its own field and at any other.
  lemma TallyAtField(es: seq<Entry>, e: Entry, threshold: real, totals: map<Field, Totals>, pages: map<Field, seq<Entry>>)
    requires TalliedAt(es, threshold, totals, pages, e.field)
    ensures TalliedAt(es + [e], threshold, AddTotal(totals, e), PagesWith(pages, e, threshold), e.field)
  {
    var f := e.field;
    OfFieldSnoc(es, e, f);
    TallyOne(OfField(es, f), e, threshold, Lookup(totals, f), Lookup(pages, f));
    LookupAfter(totals, pages, e, threshold);
  }

  lemma LookupAfter(totals: map<Field, Totals>, pages: map<Field, seq<Entry>>, e: Entry, threshold: real)
    ensures var total, page := Lookup(totals, e.field), Lookup(pages, e.field);
      var t := if total.None? then Totals(0.0, 0.0, 0.0, 0.0, 0) else total.value;
      var l := if page.None? then [] else page.value;
      && Lookup(AddTotal(totals, e), e.field) == Some(t.(v1 := t.v1 + e.v1, v2 := t.v2 + e.v2))
      && Lookup(PagesWith(pages, e, threshold), e.field) == if SameOrAbove(e.diff, threshold) then Some(l + [e]) else page
    ensures forall f :: f != e.field ==>
      && Lookup(AddTotal(totals, e), f) == Lookup(totals, f)
      && Lookup(PagesWith(pages, e, threshold), f) == Lookup(pages, f)
  {
  }

  lemma TallyKeeps(es: seq<Entry>, e: Entry, threshold: real, totals: map<Field, Totals>, pages: map<Field, seq<Entry>>, f: Field)
    requires TalliedAt(es, threshold, totals, pages, f)
    ensures TalliedAt(es + [e], threshold, AddTotal(totals, e), PagesWith(pages, e, threshold), f)
  {
    if e.field == f {
      TallyAtField(es, e, threshold, totals, pages);
    } else {
      OfFieldSnoc(es, e, f);
      LookupAfter(totals, pages, e, threshold);
      assert OfField(es + [e], f) == OfField(es, f);
    }
  }

  lemma OfFieldSnoc(es: seq<Entry>, e: Entry, f: Field)
    ensures OfField(es + [e], f) == OfField(es, f) + if e.field == f then [e] else []
  {
    assert (es + [e])[..|es|] == es;
  }

  /******* Outliers *******/

  // Python's s[lo:hi].
  function Slice(s: seq<Entry>, lo: int, hi: int): seq<Entry> {
    var l, h := At(lo, |s|), At(hi, |s|);
    if l < h then s[l..h] else []
  }

  function At(i: int, n: nat): nat {
    if i < 0 then (if n + i < 0 then 0 else n + i) else if i < n then i else n
  }

  datatype Cut = Cut(top: seq<Entry>, kept: seq<Entry>, bottom: seq<Entry>)

  function CutOutliers(s: seq<Entry>, k: int): Cut {
    Cut(Slice(s, 0, k), Slice(s, k, -k), Slice(s, -k, |s|))
  }

  ghost predicate Splits(s: seq<Entry>, c: Cut) {
    s == c.top + c.kept + c.bottom
  }

  /**
   The three slices split the list exactly when the two ends do not overlap; a negative count swaps
   the bounds of the slices. And then k pages go at each end, except that with k == 0 the slice
   s[-0:] is the whole list: every page is discarded.
   */
  lemma OutliersSplitIff(s: seq<Entry>, k: int)
    ensures Splits(s, CutOutliers(s, k)) <==> s == [] || 0 <= 2 * k <= |s| || 2 * k <= -|s|
    ensures 0 <= 2 * k <= |s| ==>
      (|CutOutliers(s, k).bottom| == k && CutOutliers(s, k).kept == s[k..|s| - k] <==> k != 0 || s == [])
    ensures k == 0 ==> CutOutliers(s, k) == Cut([], [], s)
  {
    if s == [] || 0 <= 2 * k <= |s| || 2 * k <= -|s| {
      EndsSplit(s, k);
    } else {
      OverlapSplitsNot(s, k);
    }
    if 0 <= 2 * k <= |s| {
      MiddleIsKept(s, k);
    }
  }

  lemma EndsSplit(s: seq<Entry>, k: int)
    requires s == [] || 0 <= 2 * k <= |s| || 2 * k <= -|s|
    ensures Splits(s, CutOutliers(s, k))
  {
    var c := CutOutliers(s, k);
    assert s == c.top + c.kept + c.bottom;
  }

  lemma OverlapSplitsNot(s: seq<Entry>, k: int)
    requires !(s == [] || 0 <= 2 * k <= |s| || 2 * k <= -|s|)
    ensures !Splits(s, CutOutliers(s, k))
  {
    var c := CutOutliers(s, k);
    assert |s| != |c.top| + |c.kept| + |c.bottom|;
  }

  lemma MiddleIsKept(s: seq<Entry>, k: nat)
    requires 2 * k <= |s|
    ensures |CutOutliers(s, k).bottom| == k && CutOutliers(s, k).kept == s[k..|s| - k] <==> k != 0 || s == []
  {
  }

  // Python's stable sort by percentage difference, greatest first.
  function InsertDesc(e: Entry, s: seq<Entry>): seq<Entry> {
    if s == [] || s[0].diff <= e.diff then [e] + s else [s[0]] + InsertDesc(e, s[1..])
  }

  function SortDesc(s: seq<Entry>): seq<Entry> {
    if s == [] then [] else InsertDesc(s[0], SortDesc(s[1..]))
  }

  ghost predicate Descending(s: seq<Entry>) {
    forall i, j :: 0 <= i < j < |s| ==> s[i].diff >= s[j].diff
  }

  lemma {:induction false} InsertDescHolds(e: Entry, s: seq<Entry>)
    ensures multiset(InsertDesc(e, s)) == multiset{e} + multiset(s)
  {
    if s != [] && s[0].diff > e.diff {
      InsertDescHolds(e, s[1..]);
      assert s == [s[0]] + s[1..];
    }
  }

  lemma {:induction false} InsertDescSorts(e: Entry, s: seq<Entry>, high: real)
    requires Descending(s)
    ensures Descending(InsertDesc(e, s))
    ensures AtMost(s, high) && e.diff <= high ==> AtMost(InsertDesc(e, s), high)
  {
    if s != [] && s[0].diff > e.diff {
      InsertDescSorts(e, s[1..], s[0].diff);
      InsertDescSorts(e, s[1..], high);
    }
  }

  ghost predicate AtMost(s: seq<Entry>, high: real) {
    forall i :: 0 <= i < |s| ==> s[i].diff <= high
  }

  lemma {:induction false} SortDescSorts(s: seq<Entry>)
    ensures Descending(SortDesc(s)) && multiset(SortDesc(s)) == multiset(s) && |SortDesc(s)| == |s|
  {
    if s != [] {
      SortDescSorts(s[1..]);
      InsertDescSorts(s[0], SortDesc(s[1..]), 0.0);
      InsertDescHolds(s[0], SortDesc(s[1..]));
      assert s == [s[0]] + s[1..];
      assert |multiset(SortDesc(s))| == |multiset(s)|;
    }
  }

  /** What goes at the top differs at least as much as what stays, and that at least as much as the bottom. */
  lemma OutliersAreExtreme(l: seq<Entry>, k: int, x: Entry, y: Entry)
    requires 0 <= 2 * k <= |l| && Before(CutOutliers(SortDesc(l), k), x, y)
    ensures x.diff >= y.diff
  {
    SortDescSorts(l);
    OutliersSplitIff(SortDesc(l), k);
    SplitIsOrdered(SortDesc(l), CutOutliers(SortDesc(l), k), x, y);
  }

  ghost predicate Before(c: Cut, x: Entry, y: Entry) {
    (x in c.top && (y in c.kept || y in c.bottom)) || (x in c.kept && y in c.bottom)
  }

  lemma SplitIsOrdered(s: seq<Entry>, c: Cut, x: Entry, y: Entry)
    requires Descending(s) && Splits(s, c) && Before(c, x, y)
    ensures x.diff >= y.diff
  {
    if x in c.top {
      assert s == c.top + (c.kept + c.bottom);
      DescendingAcross(c.top, c.kept + c.bottom, x, y);
    } else {
      DescendingAcross(c.top + c.kept, c.bottom, x, y);
    }
  }

  lemma DescendingAcross(a: seq<Entry>, b: seq<Entry>, x: Entry, y: Entry)
    requires Descending(a + b) && x in a && y in b
    ensures x.diff >= y.diff
  {
    var i :| 0 <= i < |a| && a[i] == x;
    var j :| 0 <= j < |b| && b[j] == y;
    assert (a + b)[i] == x && (a + b)[|a| + j] == y;
  }

  /******* Sums *******/

  lemma {:induction false} SumAppend(a: seq<Entry>, b: seq<Entry>)
    ensures Sum1(a + b) == Sum1(a) + Sum1(b) && Sum2(a + b) == Sum2(a) + Sum2(b)
  {
    if b == [] {
      assert a + b == a;
    } else {
      assert (a + b)[..|a + b| - 1] == a + b[..|b| - 1];
      SumAppend(a, b[..|b| - 1]);
    }
  }

  lemma {:induction false} SumInsertDesc(e: Entry, s: seq<Entry>)
    ensures Sum1(InsertDesc(e, s)) == e.v1 + Sum1(s) && Sum2(InsertDesc(e, s)) == e.v2 + Sum2(s)
  {
    SumSingle(e);
    if s == [] || s[0].diff <= e.diff {
      SumAppend([e], s);
    } else {
      SumInsertDesc(e, s[1..]);
      SumAppend([s[0]], InsertDesc(e, s[1..]));
      SumAppend([s[0]], s[1..]);
      SumSingle(s[0]);
      assert s == [s[0]] + s[1..];
    }
  }

  lemma SumSingle(e: Entry)
    ensures Sum1([e]) == e.v1 && Sum2([e]) == e.v2
  {
    assert [e][..0] == [];
  }

  lemma {:induction false} SumSortDesc(s: seq<Entry>)
    ensures Sum1(SortDesc(s)) == Sum1(s) && Sum2(SortDesc(s)) == Sum2(s)
  {
    if s != [] {
      SumSortDesc(s[1..]);
      SumInsertDesc(s[0], SortDesc(s[1..]));
      SumAppend([s[0]], s[1..]);
      SumSingle(s[0]);
      assert s == [s[0]] + s[1..];
    }
  }

  // The entries that differ too little to be listed.
  ghost function Unlisted(es: seq<Entry>, threshold: real): seq<Entry> {
    if es == [] then []
    else
      var e := es[|es| - 1];
      Unlisted(es[..|es| - 1], threshold) + if SameOrAbove(e.diff, threshold) then [] else [e]
  }

  lemma {:induction false} SumListed(es: seq<Entry>, threshold: real)
    ensures Sum1(es) == Sum1(Listed(es, threshold)) + Sum1(Unlisted(es, threshold))
    ensures Sum2(es) == Sum2(Listed(es, threshold)) + Sum2(Unlisted(es, threshold))
  {
    if es != [] {
      var e := es[|es| - 1];
      SumListed(es[..|es| - 1], threshold);
      SumSingle(e);
      SumAppend(Listed(es[..|es| - 1], threshold), if SameOrAbove(e.diff, threshold) then [e] else []);
      SumAppend(Unlisted(es[..|es| - 1], threshold), if SameOrAbove(e.diff, threshold) then [] else [e]);
    }
  }

  /******* The report on one field *******/

  // int() truncates toward zero.
  function Truncate(x: real): int {
    if x >= 0.0 then x.Floor else -(-x).Floor
  }

  function OutliersNum(n: nat, discard: real): int {
    Truncate(n as real * discard / 100.0)
  }

  /** The whole part of n pages times the percentage, cut toward zero. */
  lemma OutliersNumIs(n: nat, discard: real)
    ensures var k, share := OutliersNum(n, discard), n as real * discard;
      if discard >= 0.0 then 0 <= k && 100.0 * k as real <= share < 100.0 * (k as real + 1.0)
      else k <= 0 && 100.0 * (k as real - 1.0) < share <= 100.0 * k as real
  {
    var share := n as real * discard;
    assert discard >= 0.0 ==> share >= 0.0;
    assert discard < 0.0 ==> share <= 0.0;
  }

  datatype Settings = Settings(threshold: real, minPages: int, discard: real)

  function CutFor(listed: seq<Entry>, cfg: Settings): Cut {
    var s := SortDesc(listed);
    if cfg.discard == 0.0 then Cut([], s, []) else CutOutliers(s, OutliersNum(|s|, cfg.discard))
  }

  // The outliers to be taken at the two ends of n pages do not overlap.
  predicate EndsApart(n: nat, cfg: Settings) {
    var k := OutliersNum(n, cfg.discard);
    cfg.discard == 0.0 || n == 0 || 0 <= 2 * k <= n || 2 * k <= 0 - n
  }

  // The totals of a field with entries es once the outliers are taken back out.
  ghost function Remaining1(es: seq<Entry>, cfg: Settings): real {
    var c := CutFor(Listed(es, cfg.threshold), cfg);
    Sum1(es) - Sum1(c.top + c.bottom)
  }

  ghost function Remaining2(es: seq<Entry>, cfg: Settings): real {
    var c := CutFor(Listed(es, cfg.threshold), cfg);
    Sum2(es) - Sum2(c.top + c.bottom)
  }

  /** If the ends do not overlap, the totals are those of the pages not listed and the pages kept. */
  lemma RemainingIsConserved(es: seq<Entry>, cfg: Settings)
    requires EndsApart(|Listed(es, cfg.threshold)|, cfg)
    ensures var kept := CutFor(Listed(es, cfg.threshold), cfg).kept;
      && Remaining1(es, cfg) == Sum1(Unlisted(es, cfg.threshold)) + Sum1(kept)
      && Remaining2(es, cfg) == Sum2(Unlisted(es, cfg.threshold)) + Sum2(kept)
  {
    var l := Listed(es, cfg.threshold);
    SortDescSorts(l);
    SumSortDesc(l);
    SumListed(es, cfg.threshold);
    CutSplits(l, cfg);
    SumOfSplit(SortDesc(l), CutFor(l, cfg));
  }

  lemma CutSplits(l: seq<Entry>, cfg: Settings)
    requires EndsApart(|l|, cfg)
    ensures Splits(SortDesc(l), CutFor(l, cfg))
  {
    SortDescSorts(l);
    if cfg.discard != 0.0 {
      OutliersSplitIff(SortDesc(l), OutliersNum(|l|, cfg.discard));
    }
  }

  lemma SumOfSplit(s: seq<Entry>, c: Cut)
    requires Splits(s, c)
    ensures Sum1(s) == Sum1(c.top + c.bottom) + Sum1(c.kept) && Sum2(s) == Sum2(c.top + c.bottom) + Sum2(c.kept)
  {
    SumAppend(c.top, c.kept);
    SumAppend(c.top + c.kept, c.bottom);
    SumAppend(c.top, c.bottom);
  }

  /** If they do, nothing is kept and the pages in both ends are taken out of the totals twice. */
  lemma OverlapIsTakenTwice(es: seq<Entry>, cfg: Settings)
    requires cfg.discard > 0.0 && !EndsApart(|Listed(es, cfg.threshold)|, cfg)
    ensures var s := SortDesc(Listed(es, cfg.threshold));
      var m := At(OutliersNum(|s|, cfg.discard), |s|);
      && m <= |s| < 2 * m && CutFor(Listed(es, cfg.threshold), cfg).kept == []
      && Remaining1(es, cfg) == Sum1(Unlisted(es, cfg.threshold)) - Sum1(s[|s| - m..m])
      && Remaining2(es, cfg) == Sum2(Unlisted(es, cfg.threshold)) - Sum2(s[|s| - m..m])
  {
    var l := Listed(es, cfg.threshold);
    SortDescSorts(l);
    CountOfOverlap(|l|, cfg);
    OverlapOf(es, cfg.threshold, SortDesc(l), OutliersNum(|l|, cfg.discard), At(OutliersNum(|l|, cfg.discard), |l|));
  }

  lemma OverlapOf(es: seq<Entry>, threshold: real, s: seq<Entry>, k: int, m: nat)
    requires s == SortDesc(Listed(es, threshold)) && s != [] && |s| < 2 * k && m == At(k, |s|)
    ensures m <= |s| < 2 * m && CutOutliers(s, k).kept == []
    ensures Sum1(es) - Sum1(CutOutliers(s, k).top + CutOutliers(s, k).bottom) == Sum1(Unlisted(es, threshold)) - Sum1(s[|s| - m..m])
    ensures Sum2(es) - Sum2(CutOutliers(s, k).top + CutOutliers(s, k).bottom) == Sum2(Unlisted(es, threshold)) - Sum2(s[|s| - m..m])
  {
    SumSortDesc(Listed(es, threshold));
    SumListed(es, threshold);
    OverlappingEnds(s, k, m);
    SumOfThree(s[..m], s[|s| - m..m], s[m..]);
  }

  lemma CountOfOverlap(n: nat, cfg: Settings)
    requires cfg.discard > 0.0 && !EndsApart(n, cfg)
    ensures n > 0 && n < 2 * OutliersNum(n, cfg.discard)
  {
    assert n as real * cfg.discard >= 0.0;
  }

  lemma OverlappingEnds(s: seq<Entry>, k: int, m: nat)
    requires |s| < 2 * k && s != [] && m == At(k, |s|)
    ensures m <= |s| < 2 * m
    ensures CutOutliers(s, k) == Cut(s[..m], [], s[|s| - m..m] + s[m..]) && s == s[..m] + s[m..]
  {
    assert s[|s| - m..] == s[|s| - m..m] + s[m..];
  }

  lemma SumOfThree(a: seq<Entry>, b: seq<Entry>, c: seq<Entry>)
    ensures Sum1(a + (b + c)) == Sum1(a + c) + Sum1(b) && Sum2(a + (b + c)) == Sum2(a + c) + Sum2(b)
  {
    SumAppend(a, b + c);
    SumAppend(b, c);
    SumAppend(a, c);
  }

  /** A field is in the report when it has pages enough and its remaining totals differ enough. */
  ghost predicate Reported(es: seq<Entry>, cfg: Settings) {
    var l := Listed(es, cfg.threshold);
    && l != []
    && SameOrAbove(PercentageDiff(Remaining1(es, cfg), Remaining2(es, cfg)), cfg.threshold)
    && |CutFor(l, cfg).kept| >= cfg.minPages
  }

  /**
   A percentage too small to take even one page takes them all. Such a field is reported only if no
   pages are asked for and the pages that were not listed differ enough together.
   */
  lemma SmallPercentageTakesAll(es: seq<Entry>, cfg: Settings)
    requires cfg.discard != 0.0 && OutliersNum(|Listed(es, cfg.threshold)|, cfg.discard) == 0
    ensures CutFor(Listed(es, cfg.threshold), cfg).kept == []
    ensures Reported(es, cfg) <==>
      && cfg.minPages <= 0 && Listed(es, cfg.threshold) != []
      && var rest := Unlisted(es, cfg.threshold); SameOrAbove(PercentageDiff(Sum1(rest), Sum2(rest)), cfg.threshold)
  {
    SortDescSorts(Listed(es, cfg.threshold));
    OutliersSplitIff(SortDesc(Listed(es, cfg.threshold)), 0);
    RemainingIsConserved(es, cfg);
  }

  /** With a threshold of zero and no pages asked for, a field is reported with no page left and no totals. */
  lemma EmptyFieldIsReported(e: Entry)
    ensures var cfg := Settings(0.0, 0, 1.0);
      Reported([e], cfg) && CutFor(Listed([e], 0.0), cfg).kept == []
  {
    var cfg := Settings(0.0, 0, 1.0);
    ListedAlone(e);
    OnePercentOfOne();
    EmptyFieldReported([e], cfg);
  }

  lemma EmptyFieldReported(es: seq<Entry>, cfg: Settings)
    requires cfg.discard != 0.0 && OutliersNum(|Listed(es, cfg.threshold)|, cfg.discard) == 0
    requires cfg.threshold <= 0.0 && cfg.minPages <= 0
    requires Listed(es, cfg.threshold) != [] && Unlisted(es, cfg.threshold) == []
    ensures Reported(es, cfg) && CutFor(Listed(es, cfg.threshold), cfg).kept == []
  {
    SmallPercentageTakesAll(es, cfg);
    NothingIsEnough(cfg.threshold);
  }

  lemma NothingIsEnough(threshold: real)
    requires threshold <= 0.0
    ensures SameOrAbove(PercentageDiff(Sum1([]), Sum2([])), threshold)
  {
  }

  lemma ListedAlone(e: Entry)
    ensures Listed([e], 0.0) == [e] && Unlisted([e], 0.0) == []
  {
    assert [e][..0] == [];
  }

  lemma OnePercentOfOne()
    ensures OutliersNum(1, 1.0) == 0
  {
    var x := 1 as real * 1.0 / 100.0;
    assert x == 0.01;
    assert x.Floor == 0;
  }

  /******* The comparer *******/

  class Comparer {
    const cfg: Settings
    // fieldnames_to_totals, fieldnames_to_page_values and fieldnames_to_discards
    var totals: map<Field, Totals>
    var pageValues: map<Field, seq<Entry>>
    var discards: map<Field, seq<Entry>>
    ghost var entries: seq<Entry>

    // The state while the rows are walked.
    ghost predicate Collecting()
      reads this
    {
      discards == map[] && AllTallied(entries, cfg.threshold, totals, pageValues)
    }

    constructor (cfg: Settings)
      ensures this.cfg == cfg && entries == [] && Collecting()
    {
      this.cfg := cfg;
      this.totals, this.pageValues, this.discards, this.entries := map[], map[], map[], [];
    }

    method Record(e: Entry)
      requires Collecting()
      modifies this
      ensures Collecting() && entries == old(entries) + [e]
    {
      ghost var pages := PagesWith(pageValues, e, cfg.threshold);
      forall f ensures TalliedAt(entries + [e], cfg.threshold, AddTotal(totals, e), pages, f) {
        TallyKeeps(entries, e, cfg.threshold, totals, pageValues, f);
      }
      totals := AddTotal(totals, e);
      if SameOrAbove(e.diff, cfg.threshold) {
        pageValues := AddPage(pageValues, e);
      }
      entries := entries + [e];
    }

    method StorePair(pair: (Row, Row), fields: seq<Field>)
      requires Collecting()
      modifies this
      ensures Collecting() && entries == old(entries) + EntriesOf(pair, fields)
    {
      for i := 0 to |fields|
        invariant Collecting() && entries == old(entries) + EntriesOf(pair, fields[..i])
      {
        assert fields[..i + 1][..i] == fields[..i];
        var e := EntryOf(pair, fields[i]);
        if e.Some? {
          Record(e.value);
        }
      }
      assert fields[..|fields|] == fields;
    }

    // The walk through both sorted files: the readers stand at i and j.
    method Walk(csv1: seq<Row>, csv2: seq<Row>, names: set<Name>, fields: seq<Field>)
      requires Collecting() && entries == []
      modifies this
      ensures Collecting() && entries == AllEntries(Merge(csv1, csv2, names).pairs, fields)
    {
      var i: nat, j: nat := 0, 0;
      ghost var done: seq<(Row, Row)> := [];
      assert csv1[0..] == csv1 && csv2[0..] == csv2;
      while j < |csv2|
        invariant i <= |csv1| && j <= |csv2| && Collecting() && entries == AllEntries(done, fields)
        invariant Merge(csv1, csv2, names).pairs == done + Merge(csv1[i..], csv2[j..], names).pairs
      {
        var next, stop := NextPair(csv1, csv2, names, i, j);
        if stop {
          break;
        }
        if next > i {
          StorePair((csv1[next - 1], csv2[j]), fields);
          EntriesSnoc(done, (csv1[next - 1], csv2[j]), fields);
          done := done + [(csv1[next - 1], csv2[j])];
        }
        i, j := next, j + 1;
      }
      assert Merge(csv1[i..], csv2[j..], names).pairs == [];
      assert Merge(csv1, csv2, names).pairs == done;
    }

    // What the loop over the fields leaves for one of them.
    ghost predicate FinishedAt(f: Field)
      reads this
    {
      FinishedIn(entries, cfg, totals, pageValues, discards, f)
    }

    // The loop over the fields, in any order.
    method Finish()
      requires Collecting()
      modifies this
      ensures entries == old(entries) && forall f :: FinishedAt(f)
    {
      var todo := totals.Keys;
      forall f | f !in todo ensures FinishedAt(f) {
        assert TalliedAt(entries, cfg.threshold, totals, pageValues, f);
        NothingToFinish(entries, cfg, totals, pageValues, discards, f);
      }
      while todo != {}
        invariant entries == old(entries) && todo <= totals.Keys && todo !! discards.Keys
        invariant forall f :: f in todo ==> TalliedAt(entries, cfg.threshold, totals, pageValues, f)
        invariant forall f :: f !in todo ==> FinishedAt(f)
        decreases |todo|
      {
        var f :| f in todo;
        ghost var totals0, pages0, discards0 := totals, pageValues, discards;
        FinishField(f);
        todo := todo - {f};
        forall g | g != f
          ensures g in totals <==> g in totals0
          ensures g in discards <==> g in discards0
          ensures TalliedAt(entries, cfg.threshold, totals0, pages0, g) ==> TalliedAt(entries, cfg.threshold, totals, pageValues, g)
          ensures FinishedIn(entries, cfg, totals0, pages0, discards0, g) ==> FinishedAt(g)
        {
          assert SameAt(totals, totals0, g) && SameAt(pageValues, pages0, g) && SameAt(discards, discards0, g);
        }
      }
    }

    ghost predicate PublishedAt(f: Field)
      reads this
    {
      Published(OfField(entries, f), cfg, Lookup(totals, f), Lookup(pageValues, f), Lookup(discards, f))
    }

    // The pages of fields no longer in the totals go; then the pages are counted.
    method Publish()
      requires forall f :: FinishedAt(f)
      modifies this
      ensures entries == old(entries) && discards == old(discards)
      ensures pageValues.Keys == totals.Keys && forall f :: PublishedAt(f)
    {
      ghost var totals0, pages0 := totals, pageValues;
      forall f ensures FinishedIn(entries, cfg, totals0, pages0, discards, f) {
        assert FinishedAt(f);
      }
      FinishedHavePages(entries, cfg, totals, pageValues, discards);
      pageValues := map f | f in pageValues && f in totals :: pageValues[f];
      // The closing assertion of the source.
      assert pageValues.Keys == totals.Keys;
      CountPages();
      forall f ensures PublishedAt(f) {
        PublishedFrom(entries, cfg, totals0, pages0, discards, totals, pageValues, f);
      }
    }

    method CountPages()
      requires pageValues.Keys == totals.Keys
      modifies this`totals
      ensures totals.Keys == pageValues.Keys
      ensures forall f :: f in totals ==> totals[f] == old(totals[f]).(pagesReported := |pageValues[f]|)
    {
      var todo := pageValues.Keys;
      while todo != {}
        invariant todo <= totals.Keys == pageValues.Keys
        invariant forall f :: f in totals ==>
          totals[f] == if f in todo then old(totals[f]) else old(totals[f]).(pagesReported := |pageValues[f]|)
        decreases |todo|
      {
        var f :| f in todo;
        totals := totals[f := totals[f].(pagesReported := |pageValues[f]|)];
        todo := todo - {f};
      }
    }

    /**
     The whole comparison. The report has a field's totals and pages exactly for the fields that
     Reported selects among the values of all pairs of the merge.
     */
    method Compare(csv1: seq<Row>, csv2: seq<Row>, fields: seq<Field>)
      requires Collecting() && entries == []
      modifies this
      ensures entries == AllEntries(Merge(SortRows(csv1), SortRows(csv2), NamesOf(csv1)).pairs, fields)
      ensures forall e :: e in entries <==> ComesFrom(Merge(SortRows(csv1), SortRows(csv2), NamesOf(csv1)).pairs, fields, e)
      ensures pageValues.Keys == totals.Keys && forall f :: PublishedAt(f)
      ensures forall f :: f in totals ==> Means(OfField(entries, f), cfg, totals[f], pageValues[f], Lookup(discards, f))
    {
      var names := CollectNames(csv1);
      Walk(SortRows(csv1), SortRows(csv2), names, fields);
      Finish();
      Publish();
      forall e ensures e in entries <==> ComesFrom(Merge(SortRows(csv1), SortRows(csv2), NamesOf(csv1)).pairs, fields, e) {
        AllEntriesHold(Merge(SortRows(csv1), SortRows(csv2), NamesOf(csv1)).pairs, fields, e);
      }
      forall f | f in totals ensures Means(OfField(entries, f), cfg, totals[f], pageValues[f], Lookup(discards, f)) {
        assert PublishedAt(f);
        PublishedMeans(OfField(entries, f), cfg, Lookup(totals, f), Lookup(pageValues, f), Lookup(discards, f));
      }
    }

    method FinishField(f: Field)
      requires f in totals && f !in discards && TalliedAt(entries, cfg.threshold, totals, pageValues, f)
      modifies this
      ensures FinishedAt(f) && entries == old(entries)
      ensures forall g :: g != f ==> SameAt(totals, old(totals), g) && SameAt(pageValues, old(pageValues), g) && SameAt(discards, old(discards), g)
    {
      var total, kept, gone := Conclude(cfg, totals[f], Lookup(pageValues, f), OfField(entries, f));
      FinishedPut(entries, cfg, totals, pageValues, discards, f, total, kept, gone);
      totals, pageValues, discards := Put(totals, f, total), Put(pageValues, f, kept), Put(discards, f, gone);
    }
  }

  // What the report says about a field with the entries es.
  ghost predicate Published(es: seq<Entry>, cfg: Settings, total: Option<Totals>, pages: Option<seq<Entry>>, gone: Option<seq<Entry>>) {
    var l := Listed(es, cfg.threshold);
    var c := CutFor(l, cfg);
    && total == (if Reported(es, cfg) then Some(ReportOf(es, cfg, |c.kept|)) else None)
    && pages == (if Reported(es, cfg) then Some(c.kept) else None)
    && gone == (if l != [] && cfg.discard != 0.0 then Some(c.top + c.bottom) else None)
  }

  // What a line of the report means: the totals are those of the field less the discarded pages, the
  // percentages are theirs, the difference reaches the threshold, and the pages are enough pages of
  // the field that reach it too, the greatest difference first.
  ghost predicate Means(es: seq<Entry>, cfg: Settings, t: Totals, pages: seq<Entry>, gone: Option<seq<Entry>>) {
    var out := if gone.Some? then gone.value else [];
    && t.v1 == Sum1(es) - Sum1(out) && t.v2 == Sum2(es) - Sum2(out)
    && PercentOfMean(t.v1, t.v2, t.percDiff) && PercentOfFirst(t.v1, t.v2, t.percChange)
    && (t.percDiff >= cfg.threshold || -t.percDiff >= cfg.threshold)
    && t.pagesReported == |pages| >= cfg.minPages
    && (forall e :: e in pages || e in out ==> e in es && (e.diff >= cfg.threshold || -e.diff >= cfg.threshold))
    && (forall i, j :: 0 <= i < j < |pages| ==> pages[i].diff >= pages[j].diff)
  }

  lemma {:induction false} ListedHolds(es: seq<Entry>, threshold: real, e: Entry)
    ensures e in Listed(es, threshold) <==> e in es && (e.diff >= threshold || -e.diff >= threshold)
  {
    if es != [] {
      var init, last := es[..|es| - 1], es[|es| - 1];
      assert es == init + [last];
      ListedHolds(init, threshold, e);
    }
  }

  lemma CutIsPart(l: seq<Entry>, cfg: Settings)
    ensures var c := CutFor(l, cfg); Descending(c.kept) && forall e :: e in c.kept || e in c.top || e in c.bottom ==> e in l
  {
    SortDescSorts(l);
    var s, c := SortDesc(l), CutFor(l, cfg);
    if cfg.discard != 0.0 {
      SlicesArePart(s, OutliersNum(|s|, cfg.discard));
    }
    forall e | e in c.kept || e in c.top || e in c.bottom ensures e in l {
      assert e in s && e in multiset(s);
    }
  }

  lemma SlicesArePart(s: seq<Entry>, k: int)
    requires Descending(s)
    ensures var c := CutOutliers(s, k); Descending(c.kept) && forall e :: e in c.kept || e in c.top || e in c.bottom ==> e in s
  {
    SliceIsPart(s, 0, k);
    SliceIsPart(s, k, -k);
    SliceIsPart(s, -k, |s|);
  }

  lemma SliceIsPart(s: seq<Entry>, lo: int, hi: int)
    requires Descending(s)
    ensures Descending(Slice(s, lo, hi)) && forall e :: e in Slice(s, lo, hi) ==> e in s
  {
  }

  lemma PublishedMeans(es: seq<Entry>, cfg: Settings, total: Option<Totals>, pages: Option<seq<Entry>>, gone: Option<seq<Entry>>)
    requires Published(es, cfg, total, pages, gone)
    ensures total.Some? <==> pages.Some?
    ensures total.Some? ==> Means(es, cfg, total.value, pages.value, gone)
  {
    if total.Some? {
      var l := Listed(es, cfg.threshold);
      var t := total.value;
      PercentageDiffIs(t.v1, t.v2, t.percDiff);
      PercentageChangeIs(t.v1, t.v2, t.percChange);
      CutIsPart(l, cfg);
      forall e | e in pages.value || (gone.Some? && e in gone.value)
        ensures e in es && (e.diff >= cfg.threshold || -e.diff >= cfg.threshold)
      {
        ListedHolds(es, cfg.threshold, e);
      }
    }
  }

  lemma FinishedHavePages(es: seq<Entry>, cfg: Settings, totals: map<Field, Totals>, pages: map<Field, seq<Entry>>, discards: map<Field, seq<Entry>>)
    requires forall f :: FinishedIn(es, cfg, totals, pages, discards, f)
    ensures totals.Keys <= pages.Keys
  {
    forall f | f in totals ensures f in pages {
      assert FinishedIn(es, cfg, totals, pages, discards, f);
    }
  }

  // What was finished for a field is published once its pages are counted.
  lemma PublishedFrom(es: seq<Entry>, cfg: Settings, totals0: map<Field, Totals>, pages0: map<Field, seq<Entry>>, discards: map<Field, seq<Entry>>,
                      totals: map<Field, Totals>, pages: map<Field, seq<Entry>>, f: Field)
    requires FinishedIn(es, cfg, totals0, pages0, discards, f)
    requires (f in totals <==> f in totals0) && (f in pages <==> f in totals0 && f in pages0) && (f in pages ==> pages[f] == pages0[f])
    requires f in totals ==> f in pages && totals[f] == totals0[f].(pagesReported := |pages[f]|)
    ensures Published(OfField(es, f), cfg, Lookup(totals, f), Lookup(pages, f), Lookup(discards, f))
  {
  }

  ghost predicate FinishedIn(es: seq<Entry>, cfg: Settings, totals: map<Field, Totals>, pages: map<Field, seq<Entry>>,
                             discards: map<Field, seq<Entry>>, f: Field)
  {
    Finished(OfField(es, f), cfg, Lookup(totals, f), Lookup(pages, f), Lookup(discards, f))
  }

  // A field without entries is finished from the start.
  lemma NothingToFinish(es: seq<Entry>, cfg: Settings, totals: map<Field, Totals>, pages: map<Field, seq<Entry>>,
                        discards: map<Field, seq<Entry>>, f: Field)
    requires TalliedAt(es, cfg.threshold, totals, pages, f) && f !in totals && f !in discards
    ensures FinishedIn(es, cfg, totals, pages, discards, f)
  {
    assert OfField(es, f) == [];
  }

  lemma FinishedPut(es: seq<Entry>, cfg: Settings, totals: map<Field, Totals>, pages: map<Field, seq<Entry>>,
                    discards: map<Field, seq<Entry>>, f: Field,
                    total: Option<Totals>, kept: Option<seq<Entry>>, gone: Option<seq<Entry>>)
    requires Finished(OfField(es, f), cfg, total, kept, gone)
    ensures FinishedIn(es, cfg, Put(totals, f, total), Put(pages, f, kept), Put(discards, f, gone), f)
    ensures forall g :: g != f ==>
      SameAt(Put(totals, f, total), totals, g) && SameAt(Put(pages, f, kept), pages, g) && SameAt(Put(discards, f, gone), discards, g)
  {
    LookupPut(totals, f, total);
    LookupPut(pages, f, kept);
    LookupPut(discards, f, gone);
  }

  function Put<V>(m: map<Field, V>, f: Field, v: Option<V>): map<Field, V> {
    if v.Some? then m[f := v.value] else m - {f}
  }

  lemma LookupPut<V>(m: map<Field, V>, f: Field, v: Option<V>)
    ensures Lookup(Put(m, f, v), f) == v && forall g :: g != f ==> Lookup(Put(m, f, v), g) == Lookup(m, g)
  {
  }

  ghost predicate SameAt<V(!new)>(m: map<Field, V>, n: map<Field, V>, f: Field) {
    Lookup(m, f) == Lookup(n, f)
  }

  // The outliers of one field, and whether it stays in the two dictionaries.
  method Conclude(cfg: Settings, total: Totals, pages: Option<seq<Entry>>, ghost es: seq<Entry>)
    returns (report: Option<Totals>, kept: Option<seq<Entry>>, gone: Option<seq<Entry>>)
    requires Tallied(es, cfg.threshold, Some(total), pages)
    ensures Finished(es, cfg, report, kept, gone)
  {
    report, kept, gone := None, None, None;
    if pages.None? {
      return;
    }
    var s := SortDesc(pages.value);
    var t := total;
    if cfg.discard != 0.0 {
      var c := CutOutliers(s, OutliersNum(|s|, cfg.discard));
      t := TakeOut(t, c.top + c.bottom);
      gone := Some(c.top + c.bottom);
      s := c.kept;
    }
    assert t.v1 == Remaining1(es, cfg) && t.v2 == Remaining2(es, cfg);
    report, kept := Judge(cfg, t, s);
  }

  // Whether the field differs enough and has pages enough to stay.
  method Judge(cfg: Settings, t: Totals, s: seq<Entry>) returns (report: Option<Totals>, kept: Option<seq<Entry>>)
    ensures var diff := PercentageDiff(t.v1, t.v2);
      if SameOrAbove(diff, cfg.threshold) && |s| >= cfg.minPages
      then kept == Some(s) && report == Some(t.(percDiff := diff, percChange := PercentageChange(t.v1, t.v2)))
      else report.None?
  {
    report, kept := None, Some(s);
    var diff := PercentageDiff(t.v1, t.v2);
    if !SameOrAbove(diff, cfg.threshold) {
      return;
    }
    if |s| < cfg.minPages {
      kept := None;
      return;
    }
    report := Some(t.(percDiff := diff, percChange := PercentageChange(t.v1, t.v2)));
  }

  method TakeOut(total: Totals, gone: seq<Entry>) returns (t: Totals)
    ensures t == total.(v1 := total.v1 - Sum1(gone), v2 := total.v2 - Sum2(gone))
  {
    t := total;
    for i := 0 to |gone|
      invariant t == total.(v1 := total.v1 - Sum1(gone[..i]), v2 := total.v2 - Sum2(gone[..i]))
    {
      assert gone[..i + 1][..i] == gone[..i];
      t := t.(v1 := t.v1 - gone[i].v1, v2 := t.v2 - gone[i].v2);
    }
    assert gone[..|gone|] == gone;
  }

  ghost function ReportOf(es: seq<Entry>, cfg: Settings, pagesReported: nat): Totals {
    var r1, r2 := Remaining1(es, cfg), Remaining2(es, cfg);
    Totals(r1, r2, PercentageDiff(r1, r2), PercentageChange(r1, r2), pagesReported)
  }

  ghost predicate Finished(es: seq<Entry>, cfg: Settings, total: Option<Totals>, pages: Option<seq<Entry>>, gone: Option<seq<Entry>>) {
    var l := Listed(es, cfg.threshold);
    var c := CutFor(l, cfg);
    && total == (if Reported(es, cfg) then Some(ReportOf(es, cfg, 0)) else None)
    && (Reported(es, cfg) ==> pages == Some(c.kept))
    && gone == (if l != [] && cfg.discard != 0.0 then Some(c.top + c.bottom) else None)
  }

  lemma EntriesSnoc(pairs: seq<(Row, Row)>, pair: (Row, Row), fields: seq<Field>)
    ensures AllEntries(pairs + [pair], fields) == AllEntries(pairs, fields) + EntriesOf(pair, fields)
  {
    assert (pairs + [pair])[..|pairs|] == pairs;
  }

  // Moves the reader of the first file past the row for csv2[j], if the first file has that page.
  method NextPair(csv1: seq<Row>, csv2: seq<Row>, names: set<Name>, i: nat, j: nat) returns (next: nat, stop: bool)
    requires i <= |csv1| && j < |csv2|
    ensures stop ==> Merge(csv1[i..], csv2[j..], names).pairs == []
    ensures !stop ==> i <= next <= |csv1|
    ensures !stop ==> (
      var pair := if next > i then [(csv1[next - 1], csv2[j])] else [];
      Merge(csv1[i..], csv2[j..], names).pairs == pair + Merge(csv1[next..], csv2[j + 1..], names).pairs)
  {
    assert csv2[j..][1..] == csv2[j + 1..];
    if csv2[j].page !in names {
      return i, false;
    }
    next := Advance(csv1, csv2[j..], names, i);
    if next == |csv1| {
      return next, true;
    }
    assert csv1[next..][1..] == csv1[next + 1..];
    return next + 1, false;
  }

  // csv1_reader.next(), until the row for the page at the head of b.
  method Advance(csv1: seq<Row>, b: seq<Row>, names: set<Name>, start: nat) returns (i: nat)
    requires b != [] && b[0].page in names && start <= |csv1|
    ensures start <= i <= |csv1| && (i < |csv1| ==> csv1[i].page == b[0].page)
    ensures Merge(csv1[start..], b, names) == Merge(csv1[i..], b, names)
  {
    i := start;
    while i < |csv1| && csv1[i].page != b[0].page
      invariant start <= i <= |csv1| && Merge(csv1[start..], b, names) == Merge(csv1[i..], b, names)
    {
      assert csv1[i..][1..] == csv1[i + 1..];
      i := i + 1;
    }
  }
}
