/**
 What `EventSplitter` finds in a stream, told without it: the events, up to the first blank line each,
 the blank lines between them, and what has none.
 */
module EventGrammar {
  import opened Basics
  import opened EventSplitter

  /** `\n`, or `\r\n`. */
  predicate LineEndAt(t: Bytes, i: nat, n: nat) {
    (n == 1 && i < |t| && t[i] == 10) || (n == 2 && i + 1 < |t| && t[i] == 13 && t[i + 1] == 10)
  }

  /** An end of line, and another, `n` bytes in all. */
  predicate BlankLineAt(t: Bytes, i: nat, n: nat) {
    || (n >= 2 && LineEndAt(t, i, 1) && LineEndAt(t, i + 1, n - 1))
    || (n >= 3 && LineEndAt(t, i, 2) && LineEndAt(t, i + 2, n - 2))
  }

  /** No blank line begins before place `n`. */
  ghost predicate NoneBefore(t: Bytes, n: nat) {
    forall i: nat, m: nat :: i < n ==> !BlankLineAt(t, i, m)
  }

  lemma EndsAreBlankLines(t: Bytes, i: nat, n: nat)
    ensures n > 0 && EndAt(t, i) == n <==> BlankLineAt(t, i, n)
  {
  }

  lemma NoEndsBefore(t: Bytes, n: nat)
    requires n <= |t| && forall k :: 0 <= k < n ==> EndAt(t, k) == 0
    ensures NoneBefore(t, n)
  {
    forall i: nat, m: nat | i < n
      ensures !BlankLineAt(t, i, m)
    {
      EndsAreBlankLines(t, i, m);
    }
  }

  /** The events, each with its end. */
  function WithEnds(events: seq<Bytes>, ends: seq<Bytes>): Bytes
    requires |events| == |ends|
  {
    if events == [] then [] else events[0] + ends[0] + WithEnds(events[1..], ends[1..])
  }

  /** Each end is a blank line, and the first in its event and itself. */
  ghost predicate FirstBlankLines(events: seq<Bytes>, ends: seq<Bytes>) {
    |events| == |ends| &&
    forall k :: 0 <= k < |events| ==>
      BlankLineAt(ends[k], 0, |ends[k]|) && NoneBefore(events[k] + ends[k], |events[k]|)
  }

  /** A text is its events, each up to the first blank line, the blank lines after them, and what has
      no blank line in it; nothing is lost and nothing added. */
  lemma {:induction false} NothingIsLost(t: Bytes) returns (ends: seq<Bytes>)
    ensures var (events, rest) := Split(t);
            FirstBlankLines(events, ends) && t == WithEnds(events, ends) + rest && NoneBefore(rest, |rest|)
    decreases |t|
  {
    var j := FirstEnd(t, 0);
    if j == |t| {
      ends := [];
      NoEndsBefore(t, |t|);
    } else {
      var n := EndAt(t, j);
      var (events, rest) := Split(t[j + n..]);
      var later := NothingIsLost(t[j + n..]);
      ends := [t[j..j + n]] + later;
      FirstEventEnds(t, j, n);
      OneMoreBlankLine(t[..j], t[j..j + n], events, later);
      InFront(t, j, n, events, later, rest);
      SplitAt(t, j, n);
    }
  }

  lemma OneMoreBlankLine(event: Bytes, end: Bytes, events: seq<Bytes>, ends: seq<Bytes>)
    requires BlankLineAt(end, 0, |end|) && NoneBefore(event + end, |event|) && FirstBlankLines(events, ends)
    ensures FirstBlankLines([event] + events, [end] + ends)
  {
  }

  lemma FirstEventEnds(t: Bytes, j: nat, n: nat)
    requires FirstEnd(t, 0) == j < |t| && EndAt(t, j) == n
    ensures n > 0 && j + n <= |t| && BlankLineAt(t[j..j + n], 0, n) && NoneBefore(t[..j] + t[j..j + n], j)
  {
    EndsAreBlankLines(t, j, n);
    EndAlike(t, j, n);
    NoEndsBefore(t, j);
    NoneInTheHead(t, j, j + n);
    assert t[..j] + t[j..j + n] == t[..j + n];
  }

  lemma EndAlike(t: Bytes, j: nat, n: nat)
    requires BlankLineAt(t, j, n)
    ensures j + n <= |t| && BlankLineAt(t[j..j + n], 0, n)
  {
    var end := t[j..j + n];
    assert forall k :: 0 <= k < |end| ==> end[k] == t[j + k];
  }

  lemma NoneInTheHead(t: Bytes, n: nat, to: nat)
    requires to <= |t| && NoneBefore(t, n)
    ensures NoneBefore(t[..to], n)
  {
    forall i: nat, m: nat | i < n
      ensures !BlankLineAt(t[..to], i, m)
    {
      HeadAlike(t, to, i, m);
    }
  }

  lemma HeadAlike(t: Bytes, to: nat, i: nat, m: nat)
    requires to <= |t|
    ensures BlankLineAt(t[..to], i, m) ==> BlankLineAt(t, i, m)
  {
  }

  lemma InFront(t: Bytes, j: nat, n: nat, events: seq<Bytes>, ends: seq<Bytes>, rest: Bytes)
    requires j + n <= |t| && |events| == |ends| && t[j + n..] == WithEnds(events, ends) + rest
    ensures t == WithEnds([t[..j]] + events, [t[j..j + n]] + ends) + rest
  {
    WithOneMore(t[..j], t[j..j + n], events, ends);
    Rejoined(t, j, n, WithEnds(events, ends), rest);
  }

  lemma WithOneMore(event: Bytes, end: Bytes, events: seq<Bytes>, ends: seq<Bytes>)
    requires |events| == |ends|
    ensures WithEnds([event] + events, [end] + ends) == event + end + WithEnds(events, ends)
  {
    assert ([event] + events)[1..] == events && ([end] + ends)[1..] == ends;
  }

  lemma Rejoined(t: Bytes, j: nat, n: nat, joined: Bytes, rest: Bytes)
    requires j + n <= |t| && t[j + n..] == joined + rest
    ensures t == (t[..j] + t[j..j + n] + joined) + rest
  {
    assert t == t[..j] + t[j..j + n] + t[j + n..];
  }

  /** An entry of a faithful log is its event whole; or, of a longer one, more than the limit of its
      beginning, which may run up to three bytes into its end. */
  lemma EntriesTellTheirEvents(log: seq<Entry>, events: seq<Bytes>, k: nat)
    requires Faithful(log, events) && k < |log|
    ensures |log| == |Nonempty(events)|
    ensures var event := Nonempty(events)[k];
            match log[k]
            case Whole(e) => e == event
            case Cut(head) =>
              16384 < |head| <= |event| + 3 && forall i :: 0 <= i < |head| && i < |event| ==> head[i] == event[i]
  {
    var event := Nonempty(events)[k];
    assert Tells(log[k], event);
    if log[k].Cut? {
      var n := Min(|log[k].head|, |event|);
      forall i | 0 <= i < n
        ensures log[k].head[i] == event[i]
      {
        assert log[k].head[..n][i] == event[..n][i];
      }
    }
  }
}
