/**
 The streaming splitter over the output of "go list" (go/imports/imports.go): a newline followed by
 a closing brace ends a package description once a later byte has arrived.
 */
module PkgDataWriter {
  import opened ByteStrings

  const MARKER: Bytes := [10, 125]

  /******* Where a whole stream is cut *******/

  // A marker ends just before p, and there is a byte at p.
  predicate CutAt(s: Bytes, p: int) {
    2 <= p < |s| && s[p - 2] == MARKER[0] && s[p - 1] == MARKER[1]
  }

  // The greatest cut below n; 0 if there is none.
  ghost function LastCut(s: Bytes, n: nat): (p: nat)
    requires n <= |s|
    ensures p <= n && (n > 0 ==> p < n) && (p > 0 ==> CutAt(s, p))
  {
    if n == 0 then 0 else if CutAt(s, n - 1) then n - 1 else LastCut(s, n - 1)
  }

  // The pieces that end at the cuts below n.
  ghost function Pieces(s: Bytes, n: nat): seq<Bytes>
    requires n <= |s|
  {
    if n == 0 then []
    else if CutAt(s, n - 1) then Pieces(s, n - 1) + [s[LastCut(s, n - 1)..n - 1]]
    else Pieces(s, n - 1)
  }

  ghost function Concat(pieces: seq<Bytes>): Bytes {
    if pieces == [] then [] else Concat(pieces[..|pieces| - 1]) + pieces[|pieces| - 1]
  }

  lemma ConcatSnoc(pieces: seq<Bytes>, piece: Bytes)
    ensures Concat(pieces + [piece]) == Concat(pieces) + piece
  {
    assert (pieces + [piece])[..|pieces|] == pieces;
  }

  /** The pieces spell the stream up to the last cut. */
  lemma {:induction false} PiecesSpell(s: Bytes, n: nat)
    requires n <= |s|
    ensures Concat(Pieces(s, n)) == s[..LastCut(s, n)]
  {
    if n > 0 {
      PiecesSpell(s, n - 1);
      if CutAt(s, n - 1) {
        var p := LastCut(s, n - 1);
        ConcatSnoc(Pieces(s, n - 1), s[p..n - 1]);
        Rejoin(s, p, n - 1);
      }
    }
  }

  lemma Rejoin(s: Bytes, p: nat, n: nat)
    requires p <= n <= |s|
    ensures s[..p] + s[p..n] == s[..n] && s[..|s|] == s && s[p..|s|] == s[p..]
  {
  }

  // The first i pieces spell p bytes.
  ghost predicate EndsAt(pieces: seq<Bytes>, i: int, p: nat) {
    0 < i <= |pieces| && |Concat(pieces[..i])| == p
  }

  lemma EndsAtSnoc(pieces: seq<Bytes>, piece: Bytes, p: nat)
    ensures (exists i :: EndsAt(pieces + [piece], i, p))
       <==> (exists i :: EndsAt(pieces, i, p)) || p == |Concat(pieces)| + |piece|
  {
    var after := pieces + [piece];
    ConcatSnoc(pieces, piece);
    assert after[..|after|] == after;
    forall i | 0 < i <= |pieces| ensures EndsAt(after, i, p) <==> EndsAt(pieces, i, p) {
      assert after[..i] == pieces[..i];
    }
    assert EndsAt(after, |after|, p) <==> p == |Concat(pieces)| + |piece|;
  }

  /** Piece boundaries are exactly the cuts. */
  lemma {:induction false} BoundariesAreCuts(s: Bytes, n: nat, p: nat)
    requires n <= |s|
    ensures p < n && CutAt(s, p) <==> exists i :: EndsAt(Pieces(s, n), i, p)
  {
    if n > 0 {
      BoundariesAreCuts(s, n - 1, p);
      if CutAt(s, n - 1) {
        PiecesSpell(s, n - 1);
        var piece := s[LastCut(s, n - 1)..n - 1];
        EndsAtSnoc(Pieces(s, n - 1), piece, p);
        assert Pieces(s, n) == Pieces(s, n - 1) + [piece];
      } else {
        assert Pieces(s, n) == Pieces(s, n - 1);
      }
    } else {
      assert forall i :: !EndsAt(Pieces(s, 0), i, p);
    }
  }

  /** What is cut from a stream is cut from every longer one: cuts never move. */
  lemma {:induction false} PiecesOfLonger(s: Bytes, more: Bytes, n: nat)
    requires n <= |s|
    ensures Pieces(s + more, n) == Pieces(s, n) && LastCut(s + more, n) == LastCut(s, n)
  {
    if n > 0 {
      PiecesOfLonger(s, more, n - 1);
      assert CutAt(s + more, n - 1) == CutAt(s, n - 1);
      var p := LastCut(s, n - 1);
      assert (s + more)[p..n - 1] == s[p..n - 1];
    }
  }

  lemma {:induction false} PiecesGrow(s: Bytes, n: nat, m: nat)
    requires n <= m <= |s|
    ensures Pieces(s, n) <= Pieces(s, m)
  {
    if n < m {
      PiecesGrow(s, n, m - 1);
    }
  }

  /******* One call of Write *******/

  datatype Scanned = Scanned(emitted: seq<Bytes>, start: nat, ok: bool)

  function Scan(buf: Bytes, start: nat, idx: nat, emitted: seq<Bytes>, decodes: Bytes -> bool): (r: Scanned)
    requires start <= idx <= |buf|
    ensures r.start <= |buf|
    decreases |buf| - idx
  {
    if idx == |buf| then Scanned(emitted, start, true)
    else if CutAt(buf, idx) then
      if decodes(buf[start..idx]) then Scan(buf, idx, idx + 1, emitted + [buf[start..idx]], decodes)
      else Scanned(emitted, start, false)
    else Scan(buf, start, idx + 1, emitted, decodes)
  }

  // ok says that no write has failed so far.
  datatype Writer = Writer(buf: Bytes, total: nat, emitted: seq<Bytes>, ok: bool)

  function Fed(w: Writer, b: Bytes, decodes: Bytes -> bool): Writer {
    var r := Scan(w.buf + b, 0, |w.buf|, w.emitted, decodes);
    if r.ok then Writer((w.buf + b)[r.start..], w.total + |b|, r.emitted, w.ok)
    else Writer(w.buf, w.total, r.emitted, false)
  }

  // The bytes of b that belong to the pieces handed out by a write that fails.
  function BytesRead(w: Writer, b: Bytes, decodes: Bytes -> bool): nat {
    var start := Scan(w.buf + b, 0, |w.buf|, w.emitted, decodes).start;
    if start > |w.buf| then start - |w.buf| else 0
  }

  class Splitter {
    var buf: Bytes
    var total: nat
    // The pieces handed to the callback.
    var emitted: seq<Bytes>
    const decodes: Bytes -> bool

    ghost function View(ok: bool): Writer
      reads this
    {
      Writer(buf, total, emitted, ok)
    }

    constructor (decodes: Bytes -> bool)
      ensures View(true) == Writer([], 0, [], true) && this.decodes == decodes
    {
      this.buf, this.total, this.emitted, this.decodes := [], 0, [], decodes;
    }

    method Write(b: Bytes) returns (read: nat, ok: bool)
      modifies this
      ensures View(ok) == Fed(old(View(true)), b, decodes)
      ensures ok ==> read == |b|
      ensures !ok ==> read == BytesRead(old(View(true)), b, decodes)
    {
      var newBuf := buf + b;
      var newStartIdx := 0;
      var idx := |buf|;
      while idx < |newBuf|
        invariant newStartIdx <= idx <= |newBuf| && buf == old(buf) && total == old(total)
        invariant Scan(newBuf, newStartIdx, idx, emitted, decodes) == Scan(newBuf, 0, |buf|, old(emitted), decodes)
      {
        assert idx >= 2 ==> (newBuf[idx - 2..idx] == MARKER <==> CutAt(newBuf, idx));
        if idx >= |MARKER| && newBuf[idx - |MARKER|..idx] == MARKER {
          var slice := newBuf[newStartIdx..idx];
          if !decodes(slice) {
            return if newStartIdx > |buf| then newStartIdx - |buf| else 0, false;
          }
          emitted := emitted + [slice];
          newStartIdx := idx;
        }
        idx := idx + 1;
      }
      buf := newBuf[newStartIdx..];
      total := total + |b|;
      return |b|, true;
    }
  }

  /******* Any way of cutting the stream into writes *******/

  ghost predicate AllDecode(pieces: seq<Bytes>, decodes: Bytes -> bool) {
    forall piece :: piece in pieces ==> decodes(piece)
  }

  // emitted is what comes before the first piece that does not decode.
  ghost predicate StopsAtBad(emitted: seq<Bytes>, pieces: seq<Bytes>, decodes: Bytes -> bool) {
    emitted < pieces && AllDecode(emitted, decodes) && !decodes(pieces[|emitted|])
  }

  // What a scan of s[off..] must come to.
  ghost predicate ScanRight(r: Scanned, s: Bytes, off: nat, decodes: Bytes -> bool) {
    if r.ok then
      r.emitted == Pieces(s, |s|) && off + r.start == LastCut(s, |s|) && AllDecode(r.emitted, decodes)
    else
      && off + r.start <= |s| && Concat(r.emitted) == s[..off + r.start]
      && StopsAtBad(r.emitted, Pieces(s, |s|), decodes)
  }

  lemma BadPieceStops(s: Bytes, k: nat, decodes: Bytes -> bool)
    requires CutAt(s, k) && AllDecode(Pieces(s, k), decodes) && !decodes(s[LastCut(s, k)..k])
    ensures StopsAtBad(Pieces(s, k), Pieces(s, |s|), decodes)
    ensures Concat(Pieces(s, k)) == s[..LastCut(s, k)]
  {
    PiecesGrow(s, k + 1, |s|);
    PiecesSpell(s, k);
    NextIsBad(Pieces(s, k), s[LastCut(s, k)..k], Pieces(s, |s|), decodes);
  }

  lemma NextIsBad(emitted: seq<Bytes>, bad: Bytes, pieces: seq<Bytes>, decodes: Bytes -> bool)
    requires emitted + [bad] <= pieces && AllDecode(emitted, decodes) && !decodes(bad)
    ensures StopsAtBad(emitted, pieces, decodes)
  {
    assert pieces[|emitted|] == (emitted + [bad])[|emitted|];
    assert emitted == (emitted + [bad])[..|emitted|] == pieces[..|emitted|];
  }

  lemma ScanUnfolds(buf: Bytes, start: nat, idx: nat, slice: Bytes, cut: bool, emitted: seq<Bytes>, decodes: Bytes -> bool)
    requires start <= idx < |buf| && slice == buf[start..idx] && cut == CutAt(buf, idx)
    ensures Scan(buf, start, idx, emitted, decodes) ==
      if !cut then Scan(buf, start, idx + 1, emitted, decodes)
      else if decodes(slice) then Scan(buf, idx, idx + 1, emitted + [slice], decodes)
      else Scanned(emitted, start, false)
  {
  }

  lemma SliceOfTail(s: Bytes, off: nat, from: nat, at: nat)
    requires off <= from <= at <= |s|
    ensures s[off..][from - off..at - off] == s[from..at]
  {
  }

  // r is what a scan of s[off..] comes to, in the positions of the whole stream.
  ghost predicate ScansTo(s: Bytes, off: nat, from: nat, at: nat, emitted: seq<Bytes>, decodes: Bytes -> bool, r: Scanned)
    requires off <= from <= at <= |s|
  {
    r == Scan(s[off..], from - off, at - off, emitted, decodes)
  }

  lemma ScanStep(s: Bytes, off: nat, from: nat, at: nat, emitted: seq<Bytes>, decodes: Bytes -> bool, r: Scanned)
    requires off <= from <= at < |s| && (off > 0 ==> CutAt(s, off) && off < at) && ScansTo(s, off, from, at, emitted, decodes, r)
    ensures if !CutAt(s, at) then ScansTo(s, off, from, at + 1, emitted, decodes, r)
      else if decodes(s[from..at]) then ScansTo(s, off, at, at + 1, emitted + [s[from..at]], decodes, r)
      else r == Scanned(emitted, from - off, false)
  {
    MarkerInBuffer(s, off, at);
    SliceOfTail(s, off, from, at);
    ScanUnfolds(s[off..], from - off, at - off, s[from..at], CutAt(s, at), emitted, decodes);
  }

  // Everything before `at` has been cut into pieces, and they all decode.
  ghost predicate CutUpTo(s: Bytes, from: nat, at: nat, emitted: seq<Bytes>, decodes: Bytes -> bool) {
    at <= |s| && from == LastCut(s, at) && emitted == Pieces(s, at) && AllDecode(emitted, decodes)
  }

  lemma CutNext(s: Bytes, from: nat, at: nat, emitted: seq<Bytes>, decodes: Bytes -> bool)
    requires at < |s| && CutUpTo(s, from, at, emitted, decodes)
    ensures !CutAt(s, at) ==> CutUpTo(s, from, at + 1, emitted, decodes)
    ensures CutAt(s, at) && decodes(s[from..at]) ==> CutUpTo(s, at, at + 1, emitted + [s[from..at]], decodes)
  {
  }

  lemma {:induction false} ScanIsRight(s: Bytes, off: nat, from: nat, at: nat, emitted: seq<Bytes>, decodes: Bytes -> bool, r: Scanned)
    requires off <= from <= at <= |s| && (off > 0 ==> CutAt(s, off) && off < at)
    requires CutUpTo(s, from, at, emitted, decodes) && ScansTo(s, off, from, at, emitted, decodes, r)
    ensures ScanRight(r, s, off, decodes)
    decreases |s| - at
  {
    if at < |s| {
      ScanStep(s, off, from, at, emitted, decodes, r);
      CutNext(s, from, at, emitted, decodes);
      if !CutAt(s, at) {
        ScanIsRight(s, off, from, at + 1, emitted, decodes, r);
      } else if decodes(s[from..at]) {
        ScanIsRight(s, off, at, at + 1, emitted + [s[from..at]], decodes, r);
      } else {
        BadPieceStops(s, at, decodes);
      }
    }
  }

  // A scan that hands out a piece moves the start, and only such a scan.
  lemma {:induction false} ScanMovesStart(buf: Bytes, start: nat, idx: nat, emitted: seq<Bytes>, decodes: Bytes -> bool)
    requires start <= idx <= |buf| && (start == idx ==> start == 0 || !CutAt(buf, idx))
    ensures var r := Scan(buf, start, idx, emitted, decodes);
      r.start >= start && emitted <= r.emitted && (r.emitted == emitted <==> r.start == start)
    decreases |buf| - idx
  {
    if idx < |buf| {
      if CutAt(buf, idx) {
        if decodes(buf[start..idx]) {
          ScanMovesStart(buf, idx, idx + 1, emitted + [buf[start..idx]], decodes);
        }
      } else {
        ScanMovesStart(buf, start, idx + 1, emitted, decodes);
      }
    }
  }

  // A marker never straddles an earlier cut, so looking inside the buffer is enough.
  lemma MarkerInBuffer(s: Bytes, off: nat, at: nat)
    requires off <= at < |s| && (off > 0 ==> CutAt(s, off) && off < at)
    ensures CutAt(s[off..], at - off) <==> CutAt(s, at)
  {
    if off > 0 {
      assert s[off - 1] == MARKER[1];
    }
  }

  ghost function FedAll(chunks: seq<Bytes>, decodes: Bytes -> bool): Writer {
    if chunks == [] then Writer([], 0, [], true)
    else
      var w := FedAll(chunks[..|chunks| - 1], decodes);
      // The first error ends the copying.
      if w.ok then Fed(w, chunks[|chunks| - 1], decodes) else w
  }

  // What a writer must look like after the stream s, however s arrived.
  ghost predicate Matches(w: Writer, s: Bytes, decodes: Bytes -> bool) {
    && w.ok
    && w.emitted == Pieces(s, |s|) && AllDecode(w.emitted, decodes)
    && w.buf == s[LastCut(s, |s|)..]
    && w.total == |s|
  }

  lemma FedScans(w: Writer, s: Bytes, b: Bytes, decodes: Bytes -> bool)
    requires Matches(w, s, decodes)
    ensures w.buf + b == (s + b)[LastCut(s, |s|)..]
    ensures ScanRight(Scan(w.buf + b, 0, |w.buf|, w.emitted, decodes), s + b, LastCut(s, |s|), decodes)
  {
    PiecesOfLonger(s, b, |s|);
    TailOfLonger(s, b, LastCut(s, |s|));
    ResumedScan(s + b, |s|, w.buf + b, w.emitted, decodes);
  }

  lemma TailOfLonger(s: Bytes, b: Bytes, off: nat)
    requires off <= |s|
    ensures s[off..] + b == (s + b)[off..]
  {
  }

  // Scanning from n on, with only the bytes after the last cut below n at hand.
  lemma ResumedScan(s: Bytes, n: nat, buf: Bytes, emitted: seq<Bytes>, decodes: Bytes -> bool)
    requires n <= |s| && buf == s[LastCut(s, n)..] && emitted == Pieces(s, n) && AllDecode(emitted, decodes)
    ensures ScanRight(Scan(buf, 0, n - LastCut(s, n), emitted, decodes), s, LastCut(s, n), decodes)
  {
    var off := LastCut(s, n);
    ScanIsRight(s, off, off, n, emitted, decodes, Scan(buf, 0, n - off, emitted, decodes));
  }

  lemma FedMatches(w: Writer, s: Bytes, b: Bytes, decodes: Bytes -> bool)
    requires Matches(w, s, decodes)
    ensures Fed(w, b, decodes).ok ==> Matches(Fed(w, b, decodes), s + b, decodes)
    ensures !Fed(w, b, decodes).ok ==> StopsAtBad(Fed(w, b, decodes).emitted, Pieces(s + b, |s + b|), decodes)
  {
    FedScans(w, s, b, decodes);
    var off, r := LastCut(s, |s|), Scan(w.buf + b, 0, |w.buf|, w.emitted, decodes);
    assert (s + b)[off..][r.start..] == (s + b)[off + r.start..];
  }

  /**
   However a stream is cut into writes: if every piece of it decodes, the callback gets exactly
   its pieces and the buffer keeps the bytes after the last cut; otherwise a write fails, and the
   callback got exactly the pieces before the first one that does not decode.
   */
  lemma {:induction false} ChunksDoNotMatter(chunks: seq<Bytes>, decodes: Bytes -> bool)
    ensures var s := Concat(chunks); var w := FedAll(chunks, decodes);
      && (w.ok <==> AllDecode(Pieces(s, |s|), decodes))
      && (w.ok ==> Matches(w, s, decodes) && Concat(w.emitted) + w.buf == s)
      && (!w.ok ==> StopsAtBad(w.emitted, Pieces(s, |s|), decodes))
    decreases |chunks|
  {
    var s, w := Concat(chunks), FedAll(chunks, decodes);
    if chunks != [] {
      var before := chunks[..|chunks| - 1];
      ChunksDoNotMatter(before, decodes);
      if FedAll(before, decodes).ok {
        FedMatches(FedAll(before, decodes), Concat(before), chunks[|chunks| - 1], decodes);
      } else {
        PiecesOfLonger(Concat(before), chunks[|chunks| - 1], |Concat(before)|);
        PiecesGrow(s, |Concat(before)|, |s|);
      }
    }
    PiecesSpell(s, |s|);
    Rejoin(s, LastCut(s, |s|), |s|);
  }

  // The first cut that a scan from `from` on comes to.
  ghost predicate FirstCut(buf: Bytes, from: nat, p: int) {
    from <= p && CutAt(buf, p) && forall q :: from <= q < p ==> !CutAt(buf, q)
  }

  // A scan that fails hands out nothing exactly if the first piece it comes to does not decode.
  lemma {:induction false} FailsAtFirstIff(buf: Bytes, start: nat, idx: nat, emitted: seq<Bytes>, decodes: Bytes -> bool)
    requires start <= idx <= |buf| && (start == idx ==> start == 0 || !CutAt(buf, idx))
    requires !Scan(buf, start, idx, emitted, decodes).ok
    ensures Scan(buf, start, idx, emitted, decodes).start == start
       <==> exists p :: FirstCut(buf, idx, p) && !decodes(buf[start..p])
    decreases |buf| - idx
  {
    ScanUnfolds(buf, start, idx, buf[start..idx], CutAt(buf, idx), emitted, decodes);
    if CutAt(buf, idx) {
      assert FirstCut(buf, idx, idx) && forall p :: FirstCut(buf, idx, p) ==> p == idx;
      if decodes(buf[start..idx]) {
        ScanMovesStart(buf, idx, idx + 1, emitted + [buf[start..idx]], decodes);
      }
    } else {
      FailsAtFirstIff(buf, start, idx + 1, emitted, decodes);
      assert forall p :: FirstCut(buf, idx, p) <==> FirstCut(buf, idx + 1, p);
    }
  }

  /**
   After a write that fails, the bytes said to be read are accounted for, by the pieces handed out
   and the buffer together, exactly if nothing was buffered before it or the first piece it comes
   to is the one that does not decode: an earlier piece that used the buffer leaves it in place.
   */
  lemma FailedWriteAccounts(w: Writer, s: Bytes, b: Bytes, read: nat, decodes: Bytes -> bool)
    requires Matches(w, s, decodes) && !Fed(w, b, decodes).ok && read == BytesRead(w, b, decodes)
    ensures var after := Fed(w, b, decodes);
      read <= |b| && (Concat(after.emitted) + after.buf == s + b[..read]
        <==> w.buf == [] || exists p :: FirstCut(w.buf + b, |w.buf|, p) && !decodes((w.buf + b)[..p]))
  {
    var r := Scan(w.buf + b, 0, |w.buf|, w.emitted, decodes);
    FailsAtFirstIff(w.buf + b, 0, |w.buf|, w.emitted, decodes);
    FedScans(w, s, b, decodes);
    KeptBufferAccounts(s, b, LastCut(s, |s|), r.start, read);
    assert forall p :: FirstCut(w.buf + b, |w.buf|, p) ==> (w.buf + b)[0..p] == (w.buf + b)[..p];
  }

  lemma WholeBuffered(first: Bytes, decodes: Bytes -> bool)
    requires |first| == 3 && first[1..] == MARKER && first[0] != 10
    ensures Fed(Writer([], 0, [], true), first, decodes) == Writer(first, 3, [], true)
  {
    assert [] + first == first && first[0..] == first;
    ScanUnfolds(first, 0, 0, [], false, [], decodes);
    ScanUnfolds(first, 0, 1, first[0..1], false, [], decodes);
    ScanUnfolds(first, 0, 2, first[0..2], false, [], decodes);
    assert Scan(first, 0, 3, [], decodes) == Scanned([], 0, true);
  }

  lemma SecondFails(buf: Bytes, first: Bytes, second: Bytes, decodes: Bytes -> bool)
    requires |buf| == 7 && first == buf[..3] && second == buf[3..6] && CutAt(buf, 3) && CutAt(buf, 6)
    requires buf[3] !in MARKER && decodes(first) && !decodes(second)
    ensures Scan(buf, 0, 3, [], decodes) == Scanned([first], 3, false)
  {
    assert buf[0..3] == first && [] + [first] == [first];
    ScanUnfolds(buf, 0, 3, first, true, [], decodes);
    ScanUnfolds(buf, 3, 4, buf[3..4], false, [first], decodes);
    ScanUnfolds(buf, 3, 5, buf[3..5], false, [first], decodes);
    ScanUnfolds(buf, 3, 6, second, true, [first], decodes);
  }

  /** With `a\n}` buffered, a write of `b\n}c` in which only `b\n}` does not decode: `a\n}` is there twice. */
  lemma FailedWriteRepeats()
    ensures var first: Bytes, b: Bytes := [97, 10, 125], [98, 10, 125, 99];
      var decodes := (piece: Bytes) => piece != b[..3];
      var w := Fed(Writer([], 0, [], true), first, decodes);
      var after := Fed(w, b, decodes);
      && w == Writer(first, 3, [], true) && BytesRead(w, b, decodes) == 0
      && !after.ok && after.emitted == [first] && after.buf == first
  {
    var first: Bytes, b: Bytes := [97, 10, 125], [98, 10, 125, 99];
    var decodes := (piece: Bytes) => piece != b[..3];
    WholeBuffered(first, decodes);
    assert b[..3][0] != first[0];
    SecondFails(first + b, first, b[..3], decodes);
  }

  lemma KeptBufferAccounts(s: Bytes, b: Bytes, off: nat, start: nat, read: nat)
    requires off <= |s| && off + start <= |s + b|
    requires read == if start > |s| - off then start - (|s| - off) else 0
    ensures read <= |b| && ((s + b)[..off + start] + s[off..] == s + b[..read] <==> start == 0 || off == |s|)
  {
    if start == 0 {
      assert (s + b)[..off] + s[off..] == s + b[..read];
    } else if off == |s| {
      assert (s + b)[..off + start] + s[off..] == s + b[..read];
    } else {
      assert |(s + b)[..off + start] + s[off..]| != |s + b[..read]|;
    }
  }
}
