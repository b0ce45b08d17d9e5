/**
 The event stream of a traced response (`log_events`, `log_window`, backend/app/debug.py): events
 are told apart and logged whole, however the stream is cut into chunks.
 */
module EventSplitter {
  import opened Basics

  const LIMIT: nat := 16384
  const CR: bv8 := 13
  const LF: bv8 := 10

  // ---------------------------------------------------------------- event ends

  predicate At(t: Bytes, i: nat, b: bv8) {
    i < |t| && t[i] == b
  }

  /** The length of the event end (`\r?\n\r?\n`) at `i`, or zero. */
  function EndAt(t: Bytes, i: nat): (n: nat)
    ensures n > 0 ==> 2 <= n <= 4 && i + n <= |t|
  {
    var a := if At(t, i, CR) then 1 else 0;
    var b := if At(t, i + a + 1, CR) then 1 else 0;
    if At(t, i + a, LF) && At(t, i + a + 1 + b, LF) then a + b + 2 else 0
  }

  /** The first event end from `i` on, or the end of the text. */
  function FirstEnd(t: Bytes, i: nat): (j: nat)
    requires i <= |t|
    ensures i <= j <= |t| && (j < |t| ==> EndAt(t, j) > 0)
    ensures forall k :: i <= k < j ==> EndAt(t, k) == 0
    decreases |t| - i
  {
    if i == |t| || EndAt(t, i) > 0 then i else FirstEnd(t, i + 1)
  }

  /** The events that ended, and what has not. */
  function Split(t: Bytes): (r: (seq<Bytes>, Bytes))
    decreases |t|
  {
    var j := FirstEnd(t, 0);
    if j == |t| then ([], t)
    else
      var (events, rest) := Split(t[j + EndAt(t, j)..]);
      ([t[..j]] + events, rest)
  }

  // ---------------------------------------------------------------- chunks don't matter

  /** An event end doesn't depend on what follows it, and none starts earlier once one is seen. */
  lemma EndsAreStable(t: Bytes, u: Bytes, j: nat)
    requires j <= |t|
    ensures EndAt(t, j) > 0 ==> EndAt(t + u, j) == EndAt(t, j)
    ensures j + 4 <= |t| ==> EndAt(t + u, j) == EndAt(t, j)
  {
  }

  lemma FirstEndIsStable(t: Bytes, u: Bytes)
    requires FirstEnd(t, 0) < |t|
    ensures FirstEnd(t + u, 0) == FirstEnd(t, 0) && EndAt(t + u, FirstEnd(t, 0)) == EndAt(t, FirstEnd(t, 0))
  {
    var j := FirstEnd(t, 0);
    EndsAreStable(t, u, j);
    forall k | 0 <= k < j
      ensures EndAt(t + u, k) == 0
    {
      assert EndAt(t, k) == 0;
    }
    FirstEndIs(t + u, 0, j);
  }

  lemma {:induction false} FirstEndIs(t: Bytes, i: nat, j: nat)
    requires i <= j <= |t| && (j < |t| ==> EndAt(t, j) > 0) && forall k :: i <= k < j ==> EndAt(t, k) == 0
    ensures FirstEnd(t, i) == j
    decreases j - i
  {
    if i < j {
      assert EndAt(t, i) == 0;
      FirstEndIs(t, i + 1, j);
    }
  }

  lemma SplitAt(t: Bytes, j: nat, n: nat)
    requires FirstEnd(t, 0) == j < |t| && EndAt(t, j) == n
    ensures j + n <= |t| && n > 0
    ensures Split(t) == ([t[..j]] + Split(t[j + n..]).0, Split(t[j + n..]).1)
  {
  }

  lemma JoinedEvents(first: Bytes, events: seq<Bytes>, more: seq<Bytes>)
    ensures [first] + (events + more) == ([first] + events) + more
  {
  }

  lemma Regroup(a: Bytes, b: Bytes, c: Bytes)
    ensures (a + b) + c == a + (b + c)
  {
  }

  lemma CutJoined(t: Bytes, u: Bytes, j: nat, k: nat)
    requires j <= |t| && k <= |t|
    ensures (t + u)[k..] == t[k..] + u && (t + u)[..j] == t[..j]
  {
  }

  /** Splitting what has come so far, and then the rest with what is new, is splitting the whole. */
  lemma {:induction false} SplitAppend(t: Bytes, u: Bytes)
    ensures Split(t + u).0 == Split(t).0 + Split(Split(t).1 + u).0
    ensures Split(t + u).1 == Split(Split(t).1 + u).1
    decreases |t|
  {
    var j := FirstEnd(t, 0);
    if j < |t| {
      var n := EndAt(t, j);
      FirstEndIsStable(t, u);
      SplitAt(t, j, n);
      SplitAt(t + u, j, n);
      var later := t[j + n..];
      CutJoined(t, u, j, j + n);
      SplitAppend(later, u);
      JoinedEvents(t[..j], Split(later).0, Split(Split(later).1 + u).0);
    }
  }

  function Joined(chunks: seq<Bytes>): Bytes {
    if chunks == [] then [] else chunks[0] + Joined(chunks[1..])
  }

  /** Splitting a stream chunk by chunk, each with what was left over before it. */
  function SplitInChunks(pending: Bytes, chunks: seq<Bytes>): (seq<Bytes>, Bytes)
    decreases |chunks|
  {
    if chunks == [] then ([], pending)
    else
      var (events, rest) := Split(pending + chunks[0]);
      var (more, last) := SplitInChunks(rest, chunks[1..]);
      (events + more, last)
  }

  /** However the stream is cut, the same events end in it. */
  lemma {:induction false} ChunksDoNotMatter(pending: Bytes, chunks: seq<Bytes>)
    requires FirstEnd(pending, 0) == |pending|
    ensures SplitInChunks(pending, chunks) == Split(pending + Joined(chunks))
    decreases |chunks|
  {
    if chunks == [] {
      assert pending + Joined(chunks) == pending;
    } else {
      var (first, others) := (chunks[0], Joined(chunks[1..]));
      assert (pending + first) + others == pending + Joined(chunks);
      SplitAppend(pending + first, others);
      RestHasNoEnd(pending + first);
      ChunksDoNotMatter(Split(pending + first).1, chunks[1..]);
    }
  }

  lemma {:induction false} RestHasNoEnd(t: Bytes)
    ensures FirstEnd(Split(t).1, 0) == |Split(t).1| && |Split(t).1| <= |t|
    decreases |t|
  {
    var j := FirstEnd(t, 0);
    if j < |t| {
      RestHasNoEnd(t[j + EndAt(t, j)..]);
    }
  }

  /** Nothing ends in the head of a text without an event end, whatever follows. */
  lemma NoEndInHead(head: Bytes, tail: Bytes, u: Bytes, k: nat)
    requires 3 <= |tail| && k < |head| && EndAt(head + tail, k) == 0
    ensures EndAt(head + (tail + u), k) == 0
  {
    EndsAreStable(head + tail, u, k);
    Regroup(head, tail, u);
  }

  lemma NoEndBefore(head: Bytes, tail: Bytes, u: Bytes, p: Bytes, j: nat, k: nat)
    requires 3 <= |tail| && FirstEnd(head + tail, 0) == |head + tail|
    requires p == tail + u && j == FirstEnd(p, 0) && k < |head| + j
    ensures EndAt(head + p, k) == 0
  {
    if k < |head| {
      NoEndInHead(head, tail, u, k);
    } else {
      EndPastHead(head, p, k - |head|);
    }
  }

  /** Of a text without an event end, the last three bytes are enough to find the end that
      follows. */
  lemma TailFindsTheEnd(head: Bytes, tail: Bytes, u: Bytes, p: Bytes, w: Bytes)
    requires 3 <= |tail| && FirstEnd(head + tail, 0) == |head + tail|
    requires p == tail + u && w == head + p
    ensures FirstEnd(w, 0) == |head| + FirstEnd(p, 0)
    ensures FirstEnd(p, 0) < |p| ==> EndAt(w, FirstEnd(w, 0)) == EndAt(p, FirstEnd(p, 0))
  {
    var j := FirstEnd(p, 0);
    forall k | 0 <= k < |head| + j
      ensures EndAt(w, k) == 0
    {
      NoEndBefore(head, tail, u, p, j, k);
    }
    EndPastHead(head, p, j);
    FirstEndIs(w, 0, |head| + j);
  }

  /** And that end isn't inside the text. */
  lemma EndIsLate(t: Bytes, u: Bytes)
    requires FirstEnd(t, 0) == |t| && FirstEnd(t + u, 0) < |t + u|
    ensures |t| <= FirstEnd(t + u, 0) + 3
  {
    var i := FirstEnd(t + u, 0);
    if i + 4 <= |t| {
      EndsAreStable(t, u, i);
    }
  }

  lemma EndPastHead(head: Bytes, p: Bytes, k: nat)
    ensures EndAt(head + p, |head| + k) == EndAt(p, k)
  {
    assert forall b, i: nat :: At(head + p, |head| + i, b) <==> At(p, i, b);
  }

  /** Texts that go on alike after their first end. */
  lemma SplitAlike(w: Bytes, i: nat, p: Bytes, j: nat, n: nat)
    requires FirstEnd(w, 0) == i < |w| && EndAt(w, i) == n && FirstEnd(p, 0) == j < |p| && EndAt(p, j) == n
    requires i + n <= |w| && j + n <= |p| && w[i + n..] == p[j + n..]
    ensures Split(w).0 != [] && Split(p).0 != [] && Split(w).0[0] == w[..i]
    ensures Split(w).0[1..] == Split(p).0[1..] && Split(w).1 == Split(p).1
  {
    SplitAt(w, i, n);
    SplitAt(p, j, n);
  }

  /** So only the first event loses its head. */
  lemma TailFindsTheSame(head: Bytes, tail: Bytes, u: Bytes, p: Bytes, w: Bytes)
    requires 3 <= |tail| && FirstEnd(head + tail, 0) == |head + tail|
    requires p == tail + u && w == head + p
    ensures Split(p).0 == [] ==> Split(w) == ([], w) && Split(p).1 == p
    ensures Split(p).0 != [] ==>
              && Split(w).0 != [] && Split(w).1 == Split(p).1 && Split(w).0[1..] == Split(p).0[1..]
              && |head + tail| <= |Split(w).0[0]| + 3
              && Split(w).0[0] <= w
  {
    TailFindsTheEnd(head, tail, u, p, w);
    var j := FirstEnd(p, 0);
    if j < |p| {
      var n := EndAt(p, j);
      Regroup(head, tail, u);
      EndIsLate(head + tail, u);
      SplitAlike(w, |head| + j, p, j, n);
    }
  }

  // ---------------------------------------------------------------- what is logged

  /** An event is logged whole, or, when it was too long to hold, by what had come of it. */
  datatype Entry = Whole(event: Bytes) | Cut(head: Bytes)

  /** The events of a whole stream, the unfinished last one too. */
  function EventsOf(stream: Bytes): seq<Bytes> {
    var (events, rest) := Split(stream);
    if rest == [] then events else events + [rest]
  }

  function Nonempty(events: seq<Bytes>): (r: seq<Bytes>)
    ensures [] !in r && |r| <= |events|
  {
    if events == [] then []
    else if events[0] == [] then Nonempty(events[1..])
    else [events[0]] + Nonempty(events[1..])
  }

  /** Exactly the empty ones go: of two runs of events after each other, and of one event. */
  lemma OnlyTheEmptyGo(a: seq<Bytes>, b: seq<Bytes>, event: Bytes)
    ensures Nonempty(a + b) == Nonempty(a) + Nonempty(b) && Nonempty([]) == []
    ensures Nonempty([event]) == if event == [] then [] else [event]
  {
    NonemptyOfBoth(a, b);
  }

  lemma {:induction false} NonemptyOfBoth(a: seq<Bytes>, b: seq<Bytes>)
    ensures Nonempty(a + b) == Nonempty(a) + Nonempty(b)
    decreases |a|
  {
    if a == [] {
      assert a + b == b;
    } else {
      assert (a + b)[1..] == a[1..] + b;
      NonemptyOfBoth(a[1..], b);
    }
  }

  function Wholes(events: seq<Bytes>): (r: seq<Entry>)
    ensures |r| == |events| && forall k :: 0 <= k < |r| ==> r[k] == Whole(events[k])
  {
    seq(|events|, k requires 0 <= k < |events| => Whole(events[k]))
  }

  predicate SameStart(a: Bytes, b: Bytes) {
    a[..Min(|a|, |b|)] == b[..Min(|a|, |b|)]
  }

  predicate Tells(entry: Entry, event: Bytes) {
    match entry
    case Whole(e) => e == event
    case Cut(head) => LIMIT < |head| <= |event| + 3 && SameStart(head, event)
  }

  /** One entry for each event that isn't empty, in order. */
  predicate Faithful(log: seq<Entry>, events: seq<Bytes>) {
    var told := Nonempty(events);
    |log| == |told| && forall k :: 0 <= k < |log| ==> Tells(log[k], told[k])
  }

  lemma FaithfulMore(log: seq<Entry>, events: seq<Bytes>, more: seq<Bytes>)
    requires Faithful(log, events)
    ensures Faithful(log + Wholes(Nonempty(more)), events + more)
  {
    NonemptyOfBoth(events, more);
    TellsBoth(log, Nonempty(events), Nonempty(more));
  }

  lemma TellsBoth(log: seq<Entry>, told: seq<Bytes>, more: seq<Bytes>)
    requires |log| == |told| && forall k :: 0 <= k < |log| ==> Tells(log[k], told[k])
    ensures var (all, events) := (log + Wholes(more), told + more);
            |all| == |events| && forall k :: 0 <= k < |all| ==> Tells(all[k], events[k])
  {
    var (all, events) := (log + Wholes(more), told + more);
    forall k | 0 <= k < |all|
      ensures Tells(all[k], events[k])
    {
      if k < |log| {
        assert all[k] == log[k] && events[k] == told[k];
      } else {
        assert all[k] == Whole(more[k - |log|]) && events[k] == more[k - |log|];
      }
    }
  }

  lemma FaithfulCut(log: seq<Entry>, events: seq<Bytes>, head: Bytes, event: Bytes)
    requires Faithful(log, events) && Tells(Cut(head), event)
    ensures Faithful(log + [Cut(head)], events + [event])
  {
    NonemptyOfBoth(events, [event]);
    assert Nonempty([event]) == [event];
  }

  /** Nothing of a stream of short events is cut, so two logs of it are the same. */
  lemma ShortEventsAreLoggedWhole(log: seq<Entry>, events: seq<Bytes>)
    requires Faithful(log, events) && forall e :: e in events ==> |e| <= LIMIT - 3
    ensures log == Wholes(Nonempty(events))
  {
    NonemptyAreEvents(events);
    forall k | 0 <= k < |log|
      ensures log[k] == Whole(Nonempty(events)[k])
    {
      assert Nonempty(events)[k] in Nonempty(events);
    }
  }

  lemma {:induction false} NonemptyAreEvents(events: seq<Bytes>)
    ensures forall e :: e in Nonempty(events) ==> e in events
    decreases |events|
  {
    if events != [] {
      NonemptyAreEvents(events[1..]);
    }
  }

  /** Where the log of a stream stands. While an event is skipped, `head` was logged of it and
      `gone` is what was let go since. */
  ghost predicate Stands(seen: Bytes, pending: Bytes, skipping: bool, log: seq<Entry>, head: Bytes, gone: Bytes) {
    var (events, rest) := Split(seen);
    if skipping then
      && 3 <= |pending| && rest == gone + pending && LIMIT < |head| && head <= rest
      && log != [] && log[|log| - 1] == Cut(head) && Faithful(log[..|log| - 1], events)
    else pending == rest && Faithful(log, events)
  }

  /** What a window adds to the log, and whether the event before it is still skipped. */
  function Logged(log: seq<Entry>, skipping: bool, done: seq<Bytes>): seq<Entry> {
    log + Wholes(Nonempty(if skipping && done != [] then done[1..] else done))
  }

  lemma NothingLogged(log: seq<Entry>, skipping: bool)
    ensures Logged(log, skipping, []) == log
  {
  }

  lemma WholesMore(events: seq<Bytes>, event: Bytes)
    ensures Wholes(Nonempty(events + [event])) ==
            Wholes(Nonempty(events)) + if event == [] then [] else [Whole(event)]
  {
    NonemptyOfBoth(events, [event]);
    assert Nonempty([event]) == if event == [] then [] else [event];
  }

  /** One more event of the window: it is logged, unless it is empty or the tail of a skipped one. */
  lemma LoggedMore(log: seq<Entry>, skipping: bool, done: seq<Bytes>, i: nat)
    requires i < |done|
    ensures Logged(log, skipping, done[..i + 1]) ==
            Logged(log, skipping, done[..i]) +
            if (i == 0 && skipping) || done[i] == [] then [] else [Whole(done[i])]
  {
    var told := if skipping && i > 0 then done[1..i] else done[..i];
    WholesMore(told, done[i]);
    if skipping && i == 0 {
      assert done[..1][1..] == [] && done[..0] == [];
    } else if skipping {
      assert done[..i][1..] == told && done[..i + 1][1..] == told + [done[i]];
    } else {
      assert done[..i + 1] == told + [done[i]];
    }
  }

  /** A window while nothing is skipped. */
  lemma WindowGoesOn(seen: Bytes, log: seq<Entry>, chunk: Bytes)
    requires Faithful(log, Split(seen).0)
    ensures var (done, rest) := Split(Split(seen).1 + chunk);
            && Split(seen + chunk).1 == rest && Faithful(Logged(log, false, done), Split(seen + chunk).0)
            && (rest != [] ==> Faithful(Logged(log, false, done + [rest]), EventsOf(seen + chunk)))
  {
    var (done, rest) := Split(Split(seen).1 + chunk);
    SplitAppend(seen, chunk);
    FaithfulMore(log, Split(seen).0, done);
    FaithfulMore(log, Split(seen).0, done + [rest]);
    assert Split(seen).0 + (done + [rest]) == Split(seen + chunk).0 + [rest];
  }

  lemma PrefixesStartAlike(t: Bytes, a: Bytes, b: Bytes)
    requires a <= t && b <= t
    ensures SameStart(a, b)
  {
    assert a == t[..|a|] && b == t[..|b|];
  }

  lemma FirstOfThem(events: seq<Bytes>, whole: seq<Bytes>)
    requires whole != []
    ensures events + whole == events + [whole[0]] + whole[1..]
  {
  }

  /** What a window finds while an event is skipped, told by the whole of that event. */
  lemma SkippedRest(seen: Bytes, pending: Bytes, log: seq<Entry>, head: Bytes, gone: Bytes, chunk: Bytes)
    requires Stands(seen, pending, true, log, head, gone)
    ensures var (done, rest) := Split(pending + chunk);
            if done == [] then rest == pending + chunk && Split(seen + chunk) == (Split(seen).0, gone + rest)
            else
              && Split(seen + chunk).1 == rest
              && exists event :: Tells(Cut(head), event) && Split(seen + chunk).0 == Split(seen).0 + [event] + done[1..]
  {
    var (events, held) := Split(seen);
    var (done, rest) := Split(pending + chunk);
    RestHasNoEnd(seen);
    SplitAppend(seen, chunk);
    Regroup(gone, pending, chunk);
    TailFindsTheSame(gone, pending, chunk, pending + chunk, held + chunk);
    if done == [] {
      assert events + [] == events;
    } else {
      var whole := Split(held + chunk).0;
      PrefixesStartAlike(held + chunk, head, whole[0]);
      FirstOfThem(events, whole);
    }
  }

  lemma CutStays(log: seq<Entry>, events: seq<Bytes>, head: Bytes, event: Bytes)
    requires log != [] && log[|log| - 1] == Cut(head) && Faithful(log[..|log| - 1], events) && Tells(Cut(head), event)
    ensures Faithful(log, events + [event])
  {
    assert log == log[..|log| - 1] + [Cut(head)];
    FaithfulCut(log[..|log| - 1], events, head, event);
  }

  /** The skipped event goes on: its log entry stands for all that came of it. */
  lemma WindowGoesOnSkipping(seen: Bytes, pending: Bytes, log: seq<Entry>, head: Bytes, gone: Bytes, chunk: Bytes)
    requires Stands(seen, pending, true, log, head, gone) && Split(pending + chunk).0 == []
    ensures Stands(seen + chunk, Split(pending + chunk).1, true, log, head, gone)
    ensures Faithful(log, EventsOf(seen + chunk))
  {
    SkippedRest(seen, pending, log, head, gone, chunk);
    var rest := gone + (pending + chunk);
    assert head <= rest;
    CutStays(log, Split(seen).0, head, rest);
  }

  /** The skipped event ends. */
  lemma WindowEndsSkip(seen: Bytes, pending: Bytes, log: seq<Entry>, head: Bytes, gone: Bytes, chunk: Bytes)
    requires Stands(seen, pending, true, log, head, gone) && Split(pending + chunk).0 != []
    ensures var (done, rest) := Split(pending + chunk);
            && Split(seen + chunk).1 == rest && Faithful(Logged(log, true, done), Split(seen + chunk).0)
            && (rest != [] ==> Faithful(Logged(log, true, done + [rest]), EventsOf(seen + chunk)))
  {
    var events := Split(seen).0;
    var (done, rest) := Split(pending + chunk);
    SkippedRest(seen, pending, log, head, gone, chunk);
    var event :| Tells(Cut(head), event) && Split(seen + chunk).0 == events + [event] + done[1..];
    CutStays(log, events, head, event);
    FaithfulMore(log, events + [event], done[1..]);
    FaithfulMore(log, events + [event], done[1..] + [rest]);
    assert (done + [rest])[1..] == done[1..] + [rest];
    assert events + [event] + done[1..] + [rest] == events + [event] + (done[1..] + [rest]);
  }

  lemma CutStands(seen: Bytes, pending: Bytes, log: seq<Entry>)
    requires Stands(seen, pending, false, log, [], []) && |pending| > LIMIT
    ensures Stands(seen, pending, true, log + [Cut(pending)], pending, [])
  {
    assert (log + [Cut(pending)])[..|log|] == log;
    assert [] + pending == pending;
  }

  lemma TrimStands(seen: Bytes, pending: Bytes, log: seq<Entry>, head: Bytes, gone: Bytes)
    requires Stands(seen, pending, true, log, head, gone)
    ensures Stands(seen, pending[|pending| - 3..], true, log, head, gone + pending[..|pending| - 3])
  {
    assert pending[..|pending| - 3] + pending[|pending| - 3..] == pending;
    Regroup(gone, pending[..|pending| - 3], pending[|pending| - 3..]);
  }

  lemma NextWindow(seen: Bytes, chunk: Bytes, at: nat, to: nat)
    requires at <= to <= |chunk|
    ensures seen + chunk[..at] + chunk[at..to] == seen + chunk[..to]
    ensures to == |chunk| ==> chunk[at..to] == chunk[at..] && chunk[..to] == chunk
  {
    assert chunk[..at] + chunk[at..to] == chunk[..to];
  }

  lemma CutAndTrim(seen: Bytes, pending: Bytes, log: seq<Entry>)
    requires Stands(seen, pending, false, log, [], []) && |pending| > LIMIT
    ensures Stands(seen, pending[|pending| - 3..], true, log + [Cut(pending)], pending, [] + pending[..|pending| - 3])
  {
    CutStands(seen, pending, log);
    TrimStands(seen, pending, log + [Cut(pending)], pending, []);
  }

  class EventLog {
    var pending: Bytes
    var skipping: bool
    var log: seq<Entry>
    ghost var seen: Bytes
    ghost var head: Bytes
    ghost var gone: Bytes

    ghost predicate Valid()
      reads this
    {
      |pending| <= LIMIT && Stands(seen, pending, skipping, log, head, gone)
    }

    constructor ()
      ensures Valid() && seen == [] && log == []
    {
      pending, skipping, log, seen, head, gone := [], false, [], [], [], [];
    }

    /** The events that ended in this window, but for the tail of one that was cut. */
    method LogDone(done: seq<Bytes>)
      modifies this`log, this`skipping
      ensures log == Logged(old(log), old(skipping), done)
      ensures skipping == (old(skipping) && done == [])
    {
      NothingLogged(log, skipping);
      for i := 0 to |done|
        invariant log == Logged(old(log), old(skipping), done[..i])
        invariant skipping == (old(skipping) && i == 0)
      {
        LoggedMore(old(log), old(skipping), done, i);
        if i == 0 && skipping {
          skipping := false;
        } else if done[i] != [] {
          log := log + [Whole(done[i])];
        }
      }
      assert done[..|done|] == done;
    }

    /** `log_window`. After the last window everything is told. */
    method LogWindow(chunk: Bytes, end: bool)
      requires Valid()
      modifies this
      ensures seen == old(seen) + chunk
      ensures !end ==> Valid()
      ensures end ==> Faithful(log, EventsOf(seen))
    {
      Take(chunk, end);
      if |pending| > LIMIT {
        Trim();
      }
    }

    /** Find the events that ended, and log them. */
    method Take(chunk: Bytes, end: bool)
      requires Valid()
      modifies this
      ensures seen == old(seen) + chunk
      ensures !end ==> Stands(seen, pending, skipping, log, head, gone)
      ensures end ==> pending == [] && Faithful(log, EventsOf(seen))
    {
      var (done, rest) := Split(pending + chunk);
      if !skipping {
        WindowGoesOn(seen, log, chunk);
      } else if done == [] {
        WindowGoesOnSkipping(seen, pending, log, head, gone, chunk);
      } else {
        WindowEndsSkip(seen, pending, log, head, gone, chunk);
      }
      NothingLogged(log, skipping);
      seen := seen + chunk;
      pending := rest;
      if end && pending != [] {
        done, pending := done + [pending], [];
      }
      LogDone(done);
    }

    /** Too much of an event that didn't end: log what there is, and skip the rest, keeping only
        enough to spot an event end split across chunks. */
    method Trim()
      requires Stands(seen, pending, skipping, log, head, gone) && |pending| > LIMIT
      modifies this`pending, this`skipping, this`log, this`head, this`gone
      ensures Valid()
    {
      ghost var cut := pending[..|pending| - 3];
      if !skipping {
        CutAndTrim(seen, pending, log);
        log := log + [Cut(pending)];
        head, gone := pending, [] + cut;
      } else {
        TrimStands(seen, pending, log, head, gone);
        gone := gone + cut;
      }
      pending, skipping := pending[|pending| - 3..], true;
    }

    /** `log_events`: a chunk is looked at in windows, each just another chunk. */
    method LogEvents(chunk: Bytes, end: bool)
      requires Valid()
      modifies this
      ensures seen == old(seen) + chunk
      ensures !end ==> Valid()
      ensures end ==> Faithful(log, EventsOf(seen))
    {
      var at := 0;
      while at + LIMIT < |chunk|
        invariant 0 <= at <= |chunk| && Valid() && seen == old(seen) + chunk[..at]
        decreases |chunk| - at
      {
        NextWindow(old(seen), chunk, at, at + LIMIT);
        LogWindow(chunk[at..at + LIMIT], false);
        at := at + LIMIT;
      }
      NextWindow(old(seen), chunk, at, |chunk|);
      LogWindow(chunk[at..], end);
    }
  }
}
