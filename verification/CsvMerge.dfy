/**
 The walk through two CSV files sorted by page name (ct/py/csv_comparer.py): which rows of the
 first file are paired with which rows of the second.
 */
module CsvMerge {
  import opened ByteStrings

  type Name = Bytes
  type Field = Bytes

  // A cell is empty, a dash, a spelling that float() takes, or any other text.
  datatype Cell = Empty | Dash | Number(value: real) | Text

  // The cells of all columns but page_name.
  datatype Row = Row(page: Name, cells: map<Field, Cell>)

  /******* Sorting by page name *******/

  ghost predicate Sorted(rows: seq<Row>) {
    forall i, j :: 0 <= i < j < |rows| ==> !Less(rows[j].page, rows[i].page)
  }

  // The rows of one page, in order.
  ghost function OfPage(rows: seq<Row>, n: Name): seq<Row> {
    if rows == [] then []
    else (if rows[0].page == n then [rows[0]] else []) + OfPage(rows[1..], n)
  }

  ghost function Count(rows: seq<Row>, n: Name): nat {
    |OfPage(rows, n)|
  }

  lemma {:induction false} CountPositiveIff(rows: seq<Row>, n: Name)
    ensures Count(rows, n) > 0 <==> exists i :: 0 <= i < |rows| && rows[i].page == n
  {
    if rows != [] {
      CountPositiveIff(rows[1..], n);
      if i :| 0 <= i < |rows| && rows[i].page == n {
        assert i > 0 ==> rows[1..][i - 1].page == n;
      }
    }
  }

  // Python's sort is stable: a row goes before the rows that sorted after it, but no further.
  function Insert(row: Row, rows: seq<Row>): seq<Row> {
    if rows == [] || !Less(rows[0].page, row.page) then [row] + rows
    else [rows[0]] + Insert(row, rows[1..])
  }

  function SortRows(rows: seq<Row>): seq<Row> {
    if rows == [] then [] else Insert(rows[0], SortRows(rows[1..]))
  }

  ghost predicate AllAtLeast(rows: seq<Row>, n: Name) {
    forall i :: 0 <= i < |rows| ==> !Less(rows[i].page, n)
  }

  lemma SortedCons(row: Row, rows: seq<Row>)
    requires Sorted(rows) && AllAtLeast(rows, row.page)
    ensures Sorted([row] + rows)
  {
  }

  lemma {:induction false} InsertSorts(row: Row, rows: seq<Row>, low: Name)
    requires Sorted(rows)
    ensures Sorted(Insert(row, rows))
    ensures AllAtLeast(rows, low) && !Less(row.page, low) ==> AllAtLeast(Insert(row, rows), low)
  {
    if rows == [] || !Less(rows[0].page, row.page) {
      forall i | 0 <= i < |rows| ensures !Less(rows[i].page, row.page) {
        NotLessTrans(row.page, rows[0].page, rows[i].page);
      }
      SortedCons(row, rows);
    } else {
      InsertSorts(row, rows[1..], rows[0].page);
      InsertSorts(row, rows[1..], low);
      LessTrichotomy(rows[0].page, row.page);
      SortedCons(rows[0], Insert(row, rows[1..]));
    }
  }

  lemma NotLessTrans(a: Bytes, b: Bytes, c: Bytes)
    requires !Less(b, a) && (b == c || !Less(c, b))
    ensures !Less(c, a)
  {
    LessTrichotomy(a, b);
    LessTrichotomy(b, c);
    LessTrichotomy(a, c);
    if Less(c, a) && Less(b, c) {
      LessTrans(b, c, a);
    }
  }

  lemma {:induction false} InsertOfPage(row: Row, rows: seq<Row>, n: Name)
    ensures OfPage(Insert(row, rows), n) == (if row.page == n then [row] else []) + OfPage(rows, n)
  {
    if rows == [] || !Less(rows[0].page, row.page) {
      OfPageCons(row, rows, n);
    } else {
      LessTrichotomy(rows[0].page, row.page);
      InsertOfPage(row, rows[1..], n);
      OfPageCons(rows[0], Insert(row, rows[1..]), n);
    }
  }

  lemma OfPageCons(row: Row, rows: seq<Row>, n: Name)
    ensures OfPage([row] + rows, n) == (if row.page == n then [row] else []) + OfPage(rows, n)
  {
    assert ([row] + rows)[1..] == rows;
  }

  /** Sorting orders the rows by page and leaves the rows of each page as they were. */
  lemma {:induction false} SortIsStable(rows: seq<Row>, n: Name)
    ensures Sorted(SortRows(rows)) && OfPage(SortRows(rows), n) == OfPage(rows, n)
  {
    if rows != [] {
      SortIsStable(rows[1..], n);
      InsertSorts(rows[0], SortRows(rows[1..]), n);
      InsertOfPage(rows[0], SortRows(rows[1..]), n);
    }
  }

  /******* The merge *******/

  datatype Merged = Merged(pairs: seq<(Row, Row)>, stopped: bool)

  // a and b are what the two readers have left; names is every page of the first file.
  function Merge(a: seq<Row>, b: seq<Row>, names: set<Name>): Merged
    decreases |a| + |b|
  {
    if b == [] then Merged([], false)
    else if b[0].page !in names then Merge(a, b[1..], names)
    else if a == [] then Merged([], true)
    else if a[0].page != b[0].page then Merge(a[1..], b, names)
    else
      var rest := Merge(a[1..], b[1..], names);
      Merged([(a[0], b[0])] + rest.pairs, rest.stopped)
  }

  lemma AbsentBelow(rows: seq<Row>, n: Name)
    requires Sorted(rows) && rows != [] && Less(n, rows[0].page)
    ensures Count(rows, n) == 0
  {
    CountPositiveIff(rows, n);
    forall i | 0 <= i < |rows| ensures rows[i].page != n {
      LessTrichotomy(n, n);
    }
  }

  lemma SortedTail(rows: seq<Row>)
    requires Sorted(rows) && rows != []
    ensures Sorted(rows[1..])
  {
  }

  ghost predicate Enough(a: seq<Row>, b: seq<Row>, names: set<Name>) {
    forall n :: n in names ==> Count(b, n) <= Count(a, n)
  }

  /** The walk reaches the end of the second file exactly when no shared page occurs there more often. */
  lemma {:induction false} NoEarlyStopIff(a: seq<Row>, b: seq<Row>, names: set<Name>)
    requires Sorted(a) && Sorted(b)
    ensures !Merge(a, b, names).stopped <==> Enough(a, b, names)
    decreases |a| + |b|
  {
    if b != [] {
      SortedTail(b);
      var n := b[0].page;
      assert Count(b, n) > 0;
      if n !in names {
        NoEarlyStopIff(a, b[1..], names);
      } else if a != [] {
        SortedTail(a);
        if a[0].page != n {
          NoEarlyStopIff(a[1..], b, names);
          LessTrichotomy(a[0].page, n);
          if Less(a[0].page, n) {
            AbsentBelow(b, a[0].page);
          } else {
            AbsentBelow(a, n);
          }
        } else {
          NoEarlyStopIff(a[1..], b[1..], names);
        }
      }
    }
  }

  ghost function Firsts(pairs: seq<(Row, Row)>): seq<Row> {
    seq(|pairs|, i requires 0 <= i < |pairs| => pairs[i].0)
  }

  ghost function Seconds(pairs: seq<(Row, Row)>): seq<Row> {
    seq(|pairs|, i requires 0 <= i < |pairs| => pairs[i].1)
  }

  lemma PairsCons(pair: (Row, Row), pairs: seq<(Row, Row)>, n: Name)
    ensures OfPage(Firsts([pair] + pairs), n) == (if pair.0.page == n then [pair.0] else []) + OfPage(Firsts(pairs), n)
    ensures OfPage(Seconds([pair] + pairs), n) == (if pair.1.page == n then [pair.1] else []) + OfPage(Seconds(pairs), n)
  {
    assert Firsts([pair] + pairs)[1..] == Firsts(pairs);
    assert Seconds([pair] + pairs)[1..] == Seconds(pairs);
  }

  // The rows of b for page n meet, in order, the first rows of a for page n.
  ghost predicate KthMeetsKth(pairs: seq<(Row, Row)>, a: seq<Row>, b: seq<Row>, n: Name) {
    && OfPage(Seconds(pairs), n) == OfPage(b, n)
    && OfPage(Firsts(pairs), n) <= OfPage(a, n)
    && Count(Firsts(pairs), n) == Count(b, n)
  }

  /**
   Without an early stop every row of the second file whose page the first file has is paired, and
   its k-th row for a page meets the k-th row of the first file for that page.
   */
  lemma {:induction false} PairsByPage(a: seq<Row>, b: seq<Row>, names: set<Name>, n: Name)
    requires Sorted(a) && Sorted(b) && !Merge(a, b, names).stopped
    ensures n in names ==> KthMeetsKth(Merge(a, b, names).pairs, a, b, n)
    decreases |a| + |b|
  {
    if b != [] {
      SortedTail(b);
      if b[0].page !in names {
        PairsByPage(a, b[1..], names, n);
      } else {
        SortedTail(a);
        if a[0].page != b[0].page {
          PairsByPage(a[1..], b, names, n);
          NoEarlyStopIff(a, b, names);
          SkippedIsBelow(a, b);
        } else {
          PairsByPage(a[1..], b[1..], names, n);
          PairsCons((a[0], b[0]), Merge(a[1..], b[1..], names).pairs, n);
        }
      }
    }
  }

  lemma SkippedIsBelow(a: seq<Row>, b: seq<Row>)
    requires Sorted(a) && Sorted(b) && a != [] && b != [] && a[0].page != b[0].page
    requires Count(b, b[0].page) <= Count(a, b[0].page)
    ensures Count(b, a[0].page) == 0
  {
    LessTrichotomy(a[0].page, b[0].page);
    if Less(a[0].page, b[0].page) {
      AbsentBelow(b, a[0].page);
    } else {
      AbsentBelow(a, b[0].page);
    }
  }

  lemma {:induction false} PairsAgree(a: seq<Row>, b: seq<Row>, names: set<Name>)
    ensures forall p :: p in Merge(a, b, names).pairs ==> p.0.page == p.1.page && p.0.page in names
    decreases |a| + |b|
  {
    if b != [] {
      if b[0].page !in names {
        PairsAgree(a, b[1..], names);
      } else if a != [] {
        PairsAgree(a[1..], if a[0].page != b[0].page then b else b[1..], names);
      }
    }
  }

  /**
   An early stop happens at the first row of the second file that is in excess (NoEarlyStopIff on
   its prefixes): the rows before it are paired as if the file ended there, the others are lost.
   */
  lemma {:induction false} EarlyStopLosesRest(a: seq<Row>, b: seq<Row>, names: set<Name>) returns (j: nat)
    requires Merge(a, b, names).stopped
    ensures j < |b| && !Merge(a, b[..j], names).stopped && Merge(a, b[..j + 1], names).stopped
    ensures Merge(a, b, names).pairs == Merge(a, b[..j], names).pairs
    decreases |a| + |b|
  {
    if b[0].page in names && a == [] {
      j := 0;
    } else if b[0].page in names && a[0].page != b[0].page {
      j := EarlyStopLosesRest(a[1..], b, names);
    } else {
      j := EarlyStopLosesRest(if b[0].page in names then a[1..] else a, b[1..], names);
      assert b[..j + 1][1..] == b[1..][..j] && b[..j + 2][1..] == b[1..][..j + 1];
      j := j + 1;
    }
  }

  // The pages of the first file, collected before the walk.
  method CollectNames(csv1: seq<Row>) returns (names: set<Name>)
    ensures names == NamesOf(csv1)
  {
    names := {};
    for i := 0 to |csv1|
      invariant names == NamesOf(csv1[..i])
    {
      names := names + {csv1[i].page};
    }
    assert csv1[..|csv1|] == csv1;
  }

  ghost function NamesOf(rows: seq<Row>): set<Name> {
    set i | 0 <= i < |rows| :: rows[i].page
  }

  /**
   On any two files: nothing is cut off exactly when no page of the first file occurs more often in
   the second, and then each page's rows are paired in file order.
   */
  lemma ComparePairs(csv1: seq<Row>, csv2: seq<Row>, n: Name)
    ensures var m := Merge(SortRows(csv1), SortRows(csv2), NamesOf(csv1));
      && (!m.stopped <==> forall x :: x in NamesOf(csv1) ==> Count(csv2, x) <= Count(csv1, x))
      && (!m.stopped && Count(csv1, n) > 0 ==> KthMeetsKth(m.pairs, csv1, csv2, n))
      && (Count(csv1, n) == 0 ==> Count(Seconds(m.pairs), n) == 0)
  {
    var a, b, names := SortRows(csv1), SortRows(csv2), NamesOf(csv1);
    SortIsStable(csv1, n);
    SortIsStable(csv2, n);
    NoEarlyStopIff(a, b, names);
    forall x ensures Count(a, x) == Count(csv1, x) && Count(b, x) == Count(csv2, x) {
      SortIsStable(csv1, x);
      SortIsStable(csv2, x);
    }
    CountPositiveIff(csv1, n);
    PairsAgree(a, b, names);
    var m := Merge(a, b, names);
    if Count(csv1, n) == 0 {
      CountPositiveIff(Seconds(m.pairs), n);
      assert forall i :: 0 <= i < |m.pairs| ==> m.pairs[i] in m.pairs;
    } else if !m.stopped {
      PairsByPage(a, b, names, n);
    }
  }

  /** With unique pages in the second file, the pages in both files are paired, once each, and no others. */
  lemma UniquePagesPairOnce(csv1: seq<Row>, csv2: seq<Row>, n: Name)
    requires forall x :: Count(csv2, x) <= 1
    ensures var m := Merge(SortRows(csv1), SortRows(csv2), NamesOf(csv1));
      !m.stopped && Count(Seconds(m.pairs), n) == if n in NamesOf(csv1) && n in NamesOf(csv2) then 1 else 0
  {
    CountPositiveIff(csv1, n);
    CountPositiveIff(csv2, n);
    forall x | x in NamesOf(csv1) ensures Count(csv2, x) <= Count(csv1, x) {
      CountPositiveIff(csv1, x);
    }
    ComparePairs(csv1, csv2, n);
  }
}
