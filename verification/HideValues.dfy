/**
 Hiding secret values in captured output (`hide_values`, backend/app/sealed.py): over the raw bytes
 of a stream, before anything is decoded, split or cut.
 */
module HideValues {
  import opened Basics

  /** Shorter prefixes and suffixes can't be told from text. */
  const MIN_PARTIAL: nat := 4

  // ---------------------------------------------------------------- what must be hidden

  predicate OccursAt(raw: Bytes, needle: Bytes, at: nat) {
    at + |needle| <= |raw| && raw[at..at + |needle|] == needle
  }

  /** `raw` ends with the first `k` bytes of a value that may go on past it. */
  predicate EndsWithPart(raw: Bytes, needle: Bytes, k: nat) {
    MIN_PARTIAL <= k < |needle| && k <= |raw| && raw[|raw| - k..] == needle[..k]
  }

  /** `raw` starts with the last `k` bytes of a value whose head was lost. */
  predicate StartsWithPart(raw: Bytes, needle: Bytes, k: nat) {
    MIN_PARTIAL <= k < |needle| && k <= |raw| && raw[..k] == needle[|needle| - k..]
  }

  ghost predicate InOccurrence(raw: Bytes, needle: Bytes, i: nat) {
    exists at: nat :: OccursAt(raw, needle, at) && at <= i < at + |needle|
  }

  ghost predicate InOpenEnd(raw: Bytes, needle: Bytes, i: nat) {
    exists k: nat :: EndsWithPart(raw, needle, k) && |raw| - k <= i < |raw|
  }

  ghost predicate InOpenStart(raw: Bytes, needle: Bytes, i: nat) {
    exists k: nat :: StartsWithPart(raw, needle, k) && i < k
  }

  ghost predicate CoveredBy(raw: Bytes, needle: Bytes, openStart: bool, openEnd: bool, i: nat) {
    || InOccurrence(raw, needle, i)
    || (openEnd && InOpenEnd(raw, needle, i))
    || (openStart && InOpenStart(raw, needle, i))
  }

  /** Byte `i` belongs to an occurrence of a value, or to a visible part of one cut off at an open
      edge. */
  ghost predicate Covered(raw: Bytes, needles: seq<Bytes>, openStart: bool, openEnd: bool, i: nat) {
    exists n :: n in needles && CoveredBy(raw, n, openStart, openEnd, i)
  }

  // ---------------------------------------------------------------- finding it

  datatype Span = Span(lo: nat, hi: nat)

  predicate Within(s: Span, i: nat) {
    s.lo <= i < s.hi
  }

  ghost predicate SomeSpan(spans: seq<Span>, i: nat) {
    exists s :: s in spans && Within(s, i)
  }

  /** `bytes.find`, from `start` on. */
  method Find(raw: Bytes, needle: Bytes, start: nat) returns (at: Option<nat>)
    ensures at.None? ==> forall j: nat :: start <= j ==> !OccursAt(raw, needle, j)
    ensures at.Some? ==> start <= at.value && OccursAt(raw, needle, at.value)
    ensures at.Some? ==> forall j: nat :: start <= j < at.value ==> !OccursAt(raw, needle, j)
  {
    var j := start;
    while j + |needle| <= |raw|
      invariant start <= j
      invariant forall j': nat :: start <= j' < j ==> !OccursAt(raw, needle, j')
      decreases |raw| - j
    {
      if OccursAt(raw, needle, j) {
        return Some(j);
      }
      j := j + 1;
    }
    return None;
  }

  /** Every occurrence, overlapping ones too. */
  method Occurrences(raw: Bytes, needle: Bytes) returns (spans: seq<Span>)
    requires needle != []
    ensures forall s :: s in spans ==> s.lo < s.hi
    ensures forall i: nat :: SomeSpan(spans, i) <==> InOccurrence(raw, needle, i)
  {
    spans := [];
    var at := Find(raw, needle, 0);
    while at.Some?
      invariant at.Some? ==> OccursAt(raw, needle, at.value)
      invariant forall s :: s in spans ==> OccursAt(raw, needle, s.lo) && s.hi == s.lo + |needle|
      invariant forall j: nat :: OccursAt(raw, needle, j) && (at.None? || j < at.value) ==> Span(j, j + |needle|) in spans
      decreases if at.Some? then |raw| - at.value + 1 else 0
    {
      spans := spans + [Span(at.value, at.value + |needle|)];
      at := Find(raw, needle, at.value + 1);
    }
    forall i: nat | InOccurrence(raw, needle, i)
      ensures SomeSpan(spans, i)
    {
      var j: nat :| OccursAt(raw, needle, j) && j <= i < j + |needle|;
      assert Within(Span(j, j + |needle|), i);
    }
    forall i: nat | SomeSpan(spans, i)
      ensures InOccurrence(raw, needle, i)
    {
      var s :| s in spans && Within(s, i);
      assert OccursAt(raw, needle, s.lo);
    }
  }

  /** The longest trailing proper prefix. */
  method OpenEndSpan(raw: Bytes, needle: Bytes) returns (spans: seq<Span>)
    ensures forall s :: s in spans ==> s.lo < s.hi
    ensures forall i: nat :: SomeSpan(spans, i) <==> InOpenEnd(raw, needle, i)
  {
    var k := Min(|needle| - 1, |raw|);
    while MIN_PARTIAL <= k
      invariant k <= |raw| && k < |needle|
      invariant forall j: nat :: k < j ==> !EndsWithPart(raw, needle, j)
      decreases k
    {
      if raw[|raw| - k..] == needle[..k] {
        var span := Span(|raw| - k, |raw|);
        assert EndsWithPart(raw, needle, k);
        assert forall i: nat :: InOpenEnd(raw, needle, i) <==> Within(span, i);
        assert span in [span];
        return [span];
      }
      k := k - 1;
    }
    return [];
  }

  /** The longest leading proper suffix. */
  method OpenStartSpan(raw: Bytes, needle: Bytes) returns (spans: seq<Span>)
    ensures forall s :: s in spans ==> s.lo < s.hi
    ensures forall i: nat :: SomeSpan(spans, i) <==> InOpenStart(raw, needle, i)
  {
    var k := Min(|needle| - 1, |raw|);
    while MIN_PARTIAL <= k
      invariant k <= |raw| && k < |needle|
      invariant forall j: nat :: k < j ==> !StartsWithPart(raw, needle, j)
      decreases k
    {
      if raw[..k] == needle[|needle| - k..] {
        var span := Span(0, k);
        assert StartsWithPart(raw, needle, k);
        assert forall i: nat :: InOpenStart(raw, needle, i) <==> Within(span, i);
        assert span in [span];
        return [span];
      }
      k := k - 1;
    }
    return [];
  }

  lemma SomeSpanOfBoth(a: seq<Span>, b: seq<Span>)
    ensures forall i: nat :: SomeSpan(a + b, i) <==> SomeSpan(a, i) || SomeSpan(b, i)
  {
    forall i: nat
      ensures SomeSpan(a + b, i) <==> SomeSpan(a, i) || SomeSpan(b, i)
    {
      if SomeSpan(a, i) {
        var s :| s in a && Within(s, i);
        assert s in a + b;
      }
      if SomeSpan(b, i) {
        var s :| s in b && Within(s, i);
        assert s in a + b;
      }
    }
  }

  lemma CoveredByOneMore(raw: Bytes, needles: seq<Bytes>, needle: Bytes, openStart: bool, openEnd: bool)
    ensures forall i: nat :: Covered(raw, needles + [needle], openStart, openEnd, i) <==>
              Covered(raw, needles, openStart, openEnd, i) || CoveredBy(raw, needle, openStart, openEnd, i)
  {
    assert forall n :: n in needles + [needle] <==> n in needles || n == needle;
  }

  /** The spans of every value, in the order they are looked for. */
  method Spans(raw: Bytes, needles: seq<Bytes>, openStart: bool, openEnd: bool) returns (spans: seq<Span>)
    requires [] !in needles
    ensures forall s :: s in spans ==> s.lo < s.hi
    ensures forall i: nat :: SomeSpan(spans, i) <==> Covered(raw, needles, openStart, openEnd, i)
  {
    spans := [];
    for n := 0 to |needles|
      invariant forall s :: s in spans ==> s.lo < s.hi
      invariant forall i: nat :: SomeSpan(spans, i) <==> Covered(raw, needles[..n], openStart, openEnd, i)
    {
      var needle := needles[n];
      var found := Occurrences(raw, needle);
      if openEnd {
        var edge := OpenEndSpan(raw, needle);
        SomeSpanOfBoth(found, edge);
        found := found + edge;
      }
      if openStart {
        var edge := OpenStartSpan(raw, needle);
        SomeSpanOfBoth(found, edge);
        found := found + edge;
      }
      SomeSpanOfBoth(spans, found);
      spans := spans + found;
      assert needles[..n + 1] == needles[..n] + [needle];
      CoveredByOneMore(raw, needles[..n], needle, openStart, openEnd);
      assert forall i: nat :: SomeSpan(found, i) <==> CoveredBy(raw, needle, openStart, openEnd, i);
    }
    assert needles[..|needles|] == needles;
  }

  // ---------------------------------------------------------------- hiding it

  ghost predicate InOrder(spans: seq<Span>) {
    forall a, b :: 0 <= a < b < |spans| ==> spans[a].lo <= spans[b].lo
  }

  function Inserted(s: Span, sorted: seq<Span>): (r: seq<Span>)
    requires InOrder(sorted)
    ensures InOrder(r) && forall x :: x in r <==> x == s || x in sorted
    decreases |sorted|
  {
    if sorted == [] || s.lo < sorted[0].lo || (s.lo == sorted[0].lo && s.hi <= sorted[0].hi) then [s] + sorted
    else
      var rest := Inserted(s, sorted[1..]);
      assert forall x :: x in sorted <==> x == sorted[0] || x in sorted[1..];
      assert forall a :: 0 <= a < |rest| ==> rest[a] == s || rest[a] in sorted;
      [sorted[0]] + rest
  }

  function Sorted(spans: seq<Span>): (r: seq<Span>)
    ensures InOrder(r) && forall x :: x in r <==> x in spans
    decreases |spans|
  {
    if spans == [] then []
    else
      assert forall x :: x in spans <==> x == spans[0] || x in spans[1..];
      Inserted(spans[0], Sorted(spans[1..]))
  }

  /** A piece of the output: bytes shown, or a mask for the bytes it stands for. */
  datatype Piece = Shown(lo: nat, hi: nat) | Hidden(lo: nat, hi: nat)

  /** The pieces stand for `[start, end)`, one after the other. */
  ghost predicate Tile(pieces: seq<Piece>, start: nat, end: nat)
    decreases |pieces|
  {
    if pieces == [] then start == end
    else
      var last := pieces[|pieces| - 1];
      last.lo < last.hi == end && Tile(pieces[..|pieces| - 1], start, last.lo)
  }

  /** Shown bytes are free, masked bytes aren't. */
  ghost predicate Honest(spans: seq<Span>, pieces: seq<Piece>) {
    forall p, i: nat :: p in pieces && p.lo <= i < p.hi ==> (p.Shown? <==> !SomeSpan(spans, i))
  }

  lemma OneMorePiece(spans: seq<Span>, pieces: seq<Piece>, start: nat, p: Piece)
    requires Tile(pieces, start, p.lo) && Honest(spans, pieces) && p.lo < p.hi
    requires forall i: nat :: p.lo <= i < p.hi ==> (p.Shown? <==> !SomeSpan(spans, i))
    ensures Tile(pieces + [p], start, p.hi) && Honest(spans, pieces + [p])
  {
    assert (pieces + [p])[..|pieces|] == pieces;
  }

  /** Past the spans already behind `pos`, nothing is covered before the next one. */
  ghost predicate Behind(spans: seq<Span>, n: nat, pos: nat, end: nat)
    requires n <= |spans|
  {
    forall j: nat :: 0 <= j < n ==> spans[j].hi <= pos || spans[j].lo >= end
  }

  lemma FreeUpTo(spans: seq<Span>, n: nat, pos: nat, end: nat, to: nat)
    requires InOrder(spans) && n <= |spans| && Behind(spans, n, pos, end)
    requires to <= end && (n < |spans| ==> to <= spans[n].lo)
    ensures forall i: nat :: pos <= i < to ==> !SomeSpan(spans, i)
  {
    forall j, i: nat | 0 <= j < |spans| && pos <= i < to
      ensures !Within(spans[j], i)
    {
      assert n < j ==> spans[n].lo <= spans[j].lo;
    }
  }

  /** The loop of `hide_values`, over the sorted spans. */
  method Cut(spans: seq<Span>, start: nat, end: nat) returns (pieces: seq<Piece>, ghost reach: nat)
    requires start <= end && InOrder(spans) && forall s :: s in spans ==> s.lo < s.hi
    ensures end <= reach && Tile(pieces, start, reach) && Honest(spans, pieces)
  {
    pieces := [];
    var pos := start;
    for n := 0 to |spans|
      invariant start <= pos && Tile(pieces, start, pos) && Honest(spans, pieces)
      invariant Behind(spans, n, pos, end)
    {
      var span := spans[n];
      if span.hi <= pos || span.lo >= end {
        continue;
      }
      if span.lo > pos {
        FreeUpTo(spans, n, pos, end, span.lo);
        OneMorePiece(spans, pieces, start, Shown(pos, span.lo));
        pieces := pieces + [Shown(pos, span.lo)];
      }
      var mask := Hidden(Max(pos, span.lo), span.hi);
      assert forall i: nat :: mask.lo <= i < mask.hi ==> Within(span, i);
      OneMorePiece(spans, pieces, start, mask);
      pieces := pieces + [mask];
      pos := Max(pos, span.hi);
    }
    if pos < end {
      FreeUpTo(spans, |spans|, pos, end, end);
      OneMorePiece(spans, pieces, start, Shown(pos, end));
      pieces := pieces + [Shown(pos, end)];
      pos := end;
    }
    reach := pos;
  }

  /** A byte of the window is shown. */
  ghost predicate ShownAt(pieces: seq<Piece>, i: nat) {
    exists p :: p in pieces && p.Shown? && p.lo <= i < p.hi
  }

  lemma {:induction false} TiledMeansPlaced(pieces: seq<Piece>, start: nat, end: nat, i: nat)
    requires Tile(pieces, start, end) && start <= i < end
    ensures exists p :: p in pieces && p.lo <= i < p.hi
    decreases |pieces|
  {
    if pieces != [] {
      var last := pieces[|pieces| - 1];
      if i < last.lo {
        TiledMeansPlaced(pieces[..|pieces| - 1], start, last.lo, i);
      }
    }
  }

  ghost predicate ShowsTheRest(
      pieces: seq<Piece>, raw: Bytes, needles: seq<Bytes>, openStart: bool, openEnd: bool, start: nat, end: nat)
  {
    forall i: nat :: start <= i < end ==> (ShownAt(pieces, i) <==> !Covered(raw, needles, openStart, openEnd, i))
  }

  /** The values there are to look for. */
  function NonEmpty(values: seq<Bytes>): (r: seq<Bytes>)
    ensures forall v :: v in r <==> v in values && v != []
  {
    if values == [] then []
    else
      assert forall v :: v in values <==> v == values[0] || v in values[1..];
      (if values[0] == [] then [] else [values[0]]) + NonEmpty(values[1..])
  }

  /** An empty value covers no byte. */
  lemma EmptyCoversNothing(raw: Bytes, needles: seq<Bytes>, openStart: bool, openEnd: bool, i: nat)
    ensures Covered(raw, NonEmpty(needles), openStart, openEnd, i) <==> Covered(raw, needles, openStart, openEnd, i)
  {
    if Covered(raw, needles, openStart, openEnd, i) {
      var n :| n in needles && CoveredBy(raw, n, openStart, openEnd, i);
      assert n != [] && n in NonEmpty(needles);
    }
  }

  /** `hide_values`: the window's bytes in order, each shown exactly when it belongs to no value. */
  method HideIn(raw: Bytes, needles: seq<Bytes>, start: nat, end: nat, openStart: bool, openEnd: bool)
    returns (pieces: seq<Piece>)
    requires start <= end <= |raw|
    ensures exists reach :: end <= reach && Tile(pieces, start, reach)
    ensures ShowsTheRest(pieces, raw, needles, openStart, openEnd, start, end)
  {
    var found := Spans(raw, NonEmpty(needles), openStart, openEnd);
    var spans := Sorted(found);
    assert forall i: nat :: SomeSpan(spans, i) <==> SomeSpan(found, i);
    ghost var reach;
    pieces, reach := Cut(spans, start, end);
    forall i: nat | start <= i < end
      ensures ShownAt(pieces, i) <==> !Covered(raw, needles, openStart, openEnd, i)
    {
      TiledMeansPlaced(pieces, start, reach, i);
      EmptyCoversNothing(raw, needles, openStart, openEnd, i);
    }
  }

  // ---------------------------------------------------------------- a window of a longer stream

  /** Cutting `raw` to `[from, to)` loses nothing for byte `i`, when the cut keeps a value's length
      around it on each side or reaches the edge there. */
  lemma SliceIsEnough(
      raw: Bytes, needles: seq<Bytes>, openStart: bool, openEnd: bool, look: nat, lo: nat, hi: nat, i: nat)
    requires lo <= i < hi <= |raw|
    requires forall n :: n in needles ==> |n| <= look
    requires openEnd ==> hi == |raw|
    ensures var (from, to) := (Max(0, lo - look), Min(|raw|, hi + look));
            Covered(raw, needles, openStart, openEnd, i) <==>
            Covered(raw[from..to], needles, openStart && from == 0, openEnd, i - from)
  {
    var (from, to) := (Max(0, lo - look), Min(|raw|, hi + look));
    forall n | n in needles
      ensures CoveredBy(raw, n, openStart, openEnd, i) <==>
              CoveredBy(raw[from..to], n, openStart && from == 0, openEnd, i - from)
    {
      SliceKeepsOccurrences(raw, n, lo, hi, look, i);
      if openEnd {
        assert raw[from..to] == raw[from..];
        SliceKeepsOpenEnd(raw, n, from, look, i);
      }
      if openStart {
        SliceKeepsOpenStart(raw, n, lo, hi, look, i);
      }
    }
  }

  lemma OccursInSlice(raw: Bytes, n: Bytes, from: nat, to: nat, at: nat)
    requires from <= at && at + |n| <= to <= |raw|
    ensures OccursAt(raw, n, at) <==> OccursAt(raw[from..to], n, at - from)
  {
    var (a, b) := (raw[from..to][at - from..at - from + |n|], raw[at..at + |n|]);
    assert |a| == |b| && forall k :: 0 <= k < |a| ==> a[k] == b[k];
  }

  lemma SliceKeepsOccurrences(raw: Bytes, n: Bytes, lo: nat, hi: nat, look: nat, i: nat)
    requires lo <= i < hi <= |raw| && |n| <= look
    ensures var (from, to) := (Max(0, lo - look), Min(|raw|, hi + look));
            InOccurrence(raw, n, i) <==> InOccurrence(raw[from..to], n, i - from)
  {
    var (from, to) := (Max(0, lo - look), Min(|raw|, hi + look));
    if InOccurrence(raw, n, i) {
      var at: nat :| OccursAt(raw, n, at) && at <= i < at + |n|;
      OccursInSlice(raw, n, from, to, at);
    }
    if InOccurrence(raw[from..to], n, i - from) {
      var at: nat :| OccursAt(raw[from..to], n, at) && at <= i - from < at + |n|;
      OccursInSlice(raw, n, from, to, at + from);
    }
  }

  lemma SliceKeepsOpenEnd(raw: Bytes, n: Bytes, from: nat, look: nat, i: nat)
    requires from <= i < |raw| && |n| <= look && (from == 0 || from + look <= |raw|)
    ensures InOpenEnd(raw, n, i) <==> InOpenEnd(raw[from..], n, i - from)
  {
    var slice := raw[from..];
    if InOpenEnd(raw, n, i) {
      var k: nat :| EndsWithPart(raw, n, k) && |raw| - k <= i < |raw|;
      assert slice[|slice| - k..] == raw[|raw| - k..];
      assert EndsWithPart(slice, n, k);
    }
    if InOpenEnd(slice, n, i - from) {
      var k: nat :| EndsWithPart(slice, n, k) && |slice| - k <= i - from < |slice|;
      assert slice[|slice| - k..] == raw[|raw| - k..];
      assert EndsWithPart(raw, n, k);
    }
  }

  lemma SliceKeepsOpenStart(raw: Bytes, n: Bytes, lo: nat, hi: nat, look: nat, i: nat)
    requires lo <= i < hi <= |raw| && |n| <= look
    ensures var (from, to) := (Max(0, lo - look), Min(|raw|, hi + look));
            InOpenStart(raw, n, i) <==> from == 0 && InOpenStart(raw[from..to], n, i - from)
  {
    var (from, to) := (Max(0, lo - look), Min(|raw|, hi + look));
    var slice := raw[from..to];
    if InOpenStart(raw, n, i) {
      var k: nat :| StartsWithPart(raw, n, k) && i < k;
      assert slice[..k] == raw[..k];
      assert StartsWithPart(slice, n, k);
    }
    if from == 0 && InOpenStart(slice, n, i) {
      var k: nat :| StartsWithPart(slice, n, k) && i < k;
      assert slice[..k] == raw[..k];
      assert StartsWithPart(raw, n, k);
    }
  }

  // ---------------------------------------------------------------- what hiding means

  /** The raw bytes with something after them spell the value, from at least four of them on. */
  ghost predicate SpelledOnward(raw: Bytes, needle: Bytes, more: Bytes, at: nat) {
    OccursAt(raw + more, needle, at) && at + 4 <= |raw| < at + |needle|
  }

  /** The same with something before them, up to at least four of them. */
  ghost predicate SpelledBefore(raw: Bytes, needle: Bytes, lost: Bytes, at: nat) {
    OccursAt(lost + raw, needle, at) && at < |lost| && |lost| + 4 <= at + |needle| <= |lost| + |raw|
  }

  lemma OpenEndMeans(raw: Bytes, needle: Bytes, i: nat)
    ensures InOpenEnd(raw, needle, i) <==>
            exists more: Bytes, at: nat :: SpelledOnward(raw, needle, more, at) && at <= i < |raw|
  {
    if InOpenEnd(raw, needle, i) {
      var k: nat :| EndsWithPart(raw, needle, k) && |raw| - k <= i < |raw|;
      var (at, more) := (|raw| - k, needle[k..]);
      assert (raw + more)[at..at + |needle|] == raw[at..] + more == needle;
      assert SpelledOnward(raw, needle, more, at);
    }
    if more: Bytes, at: nat :| SpelledOnward(raw, needle, more, at) && at <= i < |raw| {
      var k := |raw| - at;
      assert (raw + more)[at..at + |needle|][..k] == raw[at..];
      assert EndsWithPart(raw, needle, k);
    }
  }

  lemma OpenStartMeans(raw: Bytes, needle: Bytes, i: nat)
    ensures InOpenStart(raw, needle, i) <==>
            exists lost: Bytes, at: nat :: SpelledBefore(raw, needle, lost, at) && |lost| + i < at + |needle|
  {
    if InOpenStart(raw, needle, i) {
      var k: nat :| StartsWithPart(raw, needle, k) && i < k;
      var lost := needle[..|needle| - k];
      assert (lost + raw)[0..|needle|] == lost + raw[..k] == needle;
      assert SpelledBefore(raw, needle, lost, 0);
    }
    if lost: Bytes, at: nat :| SpelledBefore(raw, needle, lost, at) && |lost| + i < at + |needle| {
      var k := at + |needle| - |lost|;
      assert (lost + raw)[at..at + |needle|][|needle| - k..] == raw[..k];
      assert StartsWithPart(raw, needle, k);
    }
  }

  /** The byte belongs to the value: it stands in the bytes whole; or, where they may go on, begins
      with four or more of their last; or, where their head was lost, ends with four or more of their
      first. */
  ghost predicate Belongs(raw: Bytes, needle: Bytes, openStart: bool, openEnd: bool, i: nat) {
    || (exists at: nat :: OccursAt(raw, needle, at) && at <= i < at + |needle|)
    || (openEnd && exists more: Bytes, at: nat :: SpelledOnward(raw, needle, more, at) && at <= i < |raw|)
    || (openStart && exists lost: Bytes, at: nat :: SpelledBefore(raw, needle, lost, at) && |lost| + i < at + |needle|)
  }

  /** Exactly those bytes are hidden that belong to a value. */
  lemma HiddenIff(raw: Bytes, needles: seq<Bytes>, openStart: bool, openEnd: bool, i: nat)
    ensures Covered(raw, needles, openStart, openEnd, i) <==>
            exists n :: n in needles && Belongs(raw, n, openStart, openEnd, i)
  {
    forall n
      ensures CoveredBy(raw, n, openStart, openEnd, i) <==> Belongs(raw, n, openStart, openEnd, i)
    {
      OpenEndMeans(raw, n, i);
      OpenStartMeans(raw, n, i);
    }
  }
}
