/**
 Masking the values of credential-bearing keys in a text (`redact_secrets`,
 backend/app/auth/oauth_flow.py): one pass over the key matches, in the order they start.
 */
module RedactSecrets {
  import opened Basics
  import opened ValueScanner
  import PrintedJson
  import ValueGrammar

  /** A key the finder matched, with its separator; the value starts at `end`. */
  datatype KeyMatch = KeyMatch(start: nat, end: nat, authHeader: bool)

  datatype Range = Range(lo: nat, hi: nat)

  /** A match with what the scanner makes of its value. */
  datatype Found = Found(start: nat, value: Range)

  ghost predicate InOrder(text: string, keys: seq<KeyMatch>) {
    && (forall k :: 0 <= k < |keys| ==> keys[k].start < keys[k].end <= |text|)
    && (forall j, k :: 0 <= j < k < |keys| ==> keys[j].start <= keys[k].start)
  }

  /** What the scanner makes of a key's value. */
  function ValueOf(text: string, key: KeyMatch): Range
    requires key.end <= |text|
  {
    Range(key.end, key.end + if key.end == |text| then 0 else ValueLength(text[key.end..], key.authHeader))
  }

  /** `_redacted_value`: a mask in the value's own quotes. */
  function Mask(text: string, r: Range): string
    requires r.lo < r.hi <= |text|
  {
    var opener := text[r.lo];
    if !IsQuote(opener) then "<redacted>"
    else if r.hi > r.lo + 1 && text[r.hi - 1] == opener then [opener] + "<redacted>" + [opener]
    else [opener] + "<redacted>"
  }

  // ---------------------------------------------------------------- what the output must be

  function FoundIn(text: string, keys: seq<KeyMatch>): (found: seq<Found>)
    requires forall k :: 0 <= k < |keys| ==> keys[k].end <= |text|
    ensures |found| == |keys|
  {
    seq(|keys|, k requires 0 <= k < |keys| => Found(keys[k].start, ValueOf(text, keys[k])))
  }

  ghost predicate Fit(text: string, found: seq<Found>) {
    && (forall k :: 0 <= k < |found| ==> found[k].start < found[k].value.lo <= found[k].value.hi <= |text|)
    && (forall j, k :: 0 <= j < k < |found| ==> found[j].start <= found[k].start)
  }

  /** The ranges lie in order, apart from each other, from `start` on. */
  ghost predicate Apart(text: string, ranges: seq<Range>, start: nat) {
    && (forall k :: 0 <= k < |ranges| ==> start <= ranges[k].lo < ranges[k].hi <= |text|)
    && (forall j, k :: 0 <= j < k < |ranges| ==> ranges[j].hi <= ranges[k].lo)
  }

  /** The text up to the last range's end, everything outside the ranges as it was. */
  function Masked(text: string, ranges: seq<Range>): string
    requires Apart(text, ranges, 0)
  {
    if ranges == [] then ""
    else
      var (before, last) := (ranges[..|ranges| - 1], ranges[|ranges| - 1]);
      Masked(text, before) + text[EndOf(before)..last.lo] + Mask(text, last)
  }

  function EndOf(ranges: seq<Range>): nat {
    if ranges == [] then 0 else ranges[|ranges| - 1].hi
  }

  /** Key `k` has a value and starts past the value of every earlier key that had its turn. */
  ghost predicate InTurn(found: seq<Found>, k: nat)
    requires k < |found|
    decreases k
  {
    && found[k].value.lo < found[k].value.hi
    && forall j: nat :: j < k && InTurn(found, j) ==> found[j].value.hi <= found[k].start
  }

  /** Exactly the values of the keys in their turn, of the first `n`. */
  ghost predicate ValuesInTurn(text: string, found: seq<Found>, ranges: seq<Range>, n: nat)
    requires n <= |found|
  {
    && Apart(text, ranges, 0)
    && (forall k: nat :: k < n && InTurn(found, k) ==> found[k].value in ranges)
    && (forall r :: r in ranges ==> exists k: nat :: k < n && InTurn(found, k) && r == found[k].value)
  }

  /** The text with exactly those values masked and everything else as it was. */
  ghost predicate Redacted(text: string, found: seq<Found>, ranges: seq<Range>, out: string) {
    && ValuesInTurn(text, found, ranges, |found|)
    && EndOf(ranges) <= |text| && out == Masked(text, ranges) + text[EndOf(ranges)..]
  }

  // ---------------------------------------------------------------- the pass

  lemma ValueFits(text: string, key: KeyMatch)
    requires key.end <= |text|
    ensures key.end == ValueOf(text, key).lo <= ValueOf(text, key).hi <= |text|
  {
    if key.end < |text| {
      var t := text[key.end..];
      var p := PrefixLength(t);
      if p < |t| {
        QuoteLengthFits(t[p + 1..], t[p]);
      }
      QuoteLengthFits(t[1..], t[0]);
      StackLengthFits(t, [], None);
    }
  }

  lemma FoundFit(text: string, keys: seq<KeyMatch>)
    requires InOrder(text, keys)
    ensures Fit(text, FoundIn(text, keys))
    ensures forall k :: 0 <= k < |keys| ==>
              FoundIn(text, keys)[k].start == keys[k].start && FoundIn(text, keys)[k].value.lo == keys[k].end
  {
    forall k | 0 <= k < |keys|
      ensures FoundIn(text, keys)[k].start == keys[k].start
      ensures FoundIn(text, keys)[k].value.lo == keys[k].end <= FoundIn(text, keys)[k].value.hi <= |text|
    {
      ValueFits(text, keys[k]);
    }
  }

  method ValueStop(text: string, key: KeyMatch) returns (stop: nat)
    requires key.end <= |text|
    ensures Range(key.end, stop) == ValueOf(text, key) && key.end <= stop <= |text|
  {
    ValueFits(text, key);
    stop := ValueEnd(text, key.end, key.authHeader);
  }

  lemma OneMoreRange(text: string, ranges: seq<Range>, r: Range)
    requires Apart(text, ranges, 0) && EndOf(ranges) <= r.lo < r.hi <= |text|
    ensures Apart(text, ranges + [r], 0)
    ensures Masked(text, ranges + [r]) == Masked(text, ranges) + text[EndOf(ranges)..r.lo] + Mask(text, r)
  {
    assert (ranges + [r])[..|ranges|] == ranges;
  }

  lemma EndsBefore(text: string, ranges: seq<Range>, r: Range)
    requires Apart(text, ranges, 0) && r in ranges
    ensures r.hi <= EndOf(ranges)
  {
    var i :| 0 <= i < |ranges| && ranges[i] == r;
    if i < |ranges| - 1 {
      assert ranges[i].hi <= ranges[|ranges| - 1].lo;
    }
  }

  /** A key that starts inside the last range, or has no value, is passed over. */
  lemma SkipKey(text: string, found: seq<Found>, ranges: seq<Range>, n: nat)
    requires n < |found| && ValuesInTurn(text, found, ranges, n)
    requires found[n].start < EndOf(ranges) || found[n].value.lo == found[n].value.hi
    ensures ValuesInTurn(text, found, ranges, n + 1)
  {
    if found[n].start < EndOf(ranges) {
      var last := ranges[|ranges| - 1];
      assert last in ranges;
      var j: nat :| j < n && InTurn(found, j) && last == found[j].value;
    }
    assert !InTurn(found, n);
  }

  /** A key at or past the last range has its turn. */
  lemma MaskKey(text: string, found: seq<Found>, ranges: seq<Range>, n: nat)
    requires Fit(text, found) && n < |found| && ValuesInTurn(text, found, ranges, n)
    requires EndOf(ranges) <= found[n].start && found[n].value.lo < found[n].value.hi
    ensures var r := found[n].value;
            && EndOf(ranges) <= r.lo && EndOf(ranges + [r]) == r.hi
            && ValuesInTurn(text, found, ranges + [r], n + 1)
            && Masked(text, ranges + [r]) == Masked(text, ranges) + text[EndOf(ranges)..r.lo] + Mask(text, r)
  {
    forall j: nat | j < n && InTurn(found, j)
      ensures found[j].value.hi <= found[n].start
    {
      EndsBefore(text, ranges, found[j].value);
    }
    OneMoreRange(text, ranges, found[n].value);
    OneMoreValue(text, found, ranges, n);
  }

  lemma OneMoreValue(text: string, found: seq<Found>, ranges: seq<Range>, n: nat)
    requires n < |found| && ValuesInTurn(text, found, ranges, n) && InTurn(found, n)
    requires Apart(text, ranges + [found[n].value], 0)
    ensures ValuesInTurn(text, found, ranges + [found[n].value], n + 1)
  {
    var (r, all) := (found[n].value, ranges + [found[n].value]);
    forall k: nat | k < n + 1 && InTurn(found, k)
      ensures found[k].value in all
    {
      if k == n {
        assert all[|ranges|] == r;
      }
    }
    forall x | x in all
      ensures exists k: nat :: k < n + 1 && InTurn(found, k) && x == found[k].value
    {
      if x in ranges {
        var k: nat :| k < n && InTurn(found, k) && x == found[k].value;
      } else {
        assert x == r;
      }
    }
  }

  /** `redact_secrets`. */
  method Redact(text: string, keys: seq<KeyMatch>) returns (out: string)
    requires InOrder(text, keys)
    ensures exists ranges :: Redacted(text, FoundIn(text, keys), ranges, out)
  {
    ghost var found := FoundIn(text, keys);
    FoundFit(text, keys);
    out := "";
    ghost var ranges: seq<Range> := [];
    var cursor := 0;
    for n := 0 to |keys|
      invariant ValuesInTurn(text, found, ranges, n) && EndOf(ranges) == cursor <= |text| && out == Masked(text, ranges)
      invariant cursor == 0 ==> ranges == []
    {
      var key := keys[n];
      if key.start < cursor {
        SkipKey(text, found, ranges, n);
        continue;
      }
      var stop := ValueStop(text, key);
      assert found[n] == Found(key.start, Range(key.end, stop));
      if stop <= key.end {
        SkipKey(text, found, ranges, n);
        continue;
      }
      MaskKey(text, found, ranges, n);
      ranges := ranges + [Range(key.end, stop)];
      out := out + text[cursor..key.end] + Mask(text, Range(key.end, stop));
      cursor := stop;
    }
    out := if cursor == 0 then text else out + text[cursor..];
    assert Redacted(text, found, ranges, out);
  }

  // ---------------------------------------------------------------- one output

  ghost predicate SameMembers(ranges: seq<Range>, others: seq<Range>) {
    forall r :: r in ranges <==> r in others
  }

  lemma LastIsNew(text: string, ranges: seq<Range>, last: Range)
    requires Apart(text, ranges + [last], 0)
    ensures last !in ranges && Apart(text, ranges, 0)
    ensures forall r :: r in ranges ==> r.lo < last.lo
  {
    var all := ranges + [last];
    assert forall k :: 0 <= k < |ranges| ==> all[k] == ranges[k] && all[k].hi <= all[|ranges|].lo;
  }

  /** The last range is the one that starts last. */
  lemma LastIsShared(text: string, ranges: seq<Range>, last: Range, others: seq<Range>, end: Range)
    requires Apart(text, ranges + [last], 0) && Apart(text, others + [end], 0)
    requires SameMembers(ranges + [last], others + [end])
    ensures last == end && SameMembers(ranges, others)
  {
    LastIsNew(text, ranges, last);
    LastIsNew(text, others, end);
    assert last in ranges + [last] && end in others + [end];
    forall r | r in ranges || r in others
      ensures r in ranges && r in others
    {
      assert r in ranges + [last] || r in others + [end];
    }
  }

  lemma {:induction false} SameRanges(text: string, ranges: seq<Range>, others: seq<Range>)
    requires Apart(text, ranges, 0) && Apart(text, others, 0) && SameMembers(ranges, others)
    ensures ranges == others
  {
    assert others == [] || others[0] in others;
    assert ranges == [] || ranges[0] in ranges;
    if ranges != [] {
      var (before, others', last, end) := (ranges[..|ranges| - 1], others[..|others| - 1], ranges[|ranges| - 1], others[|others| - 1]);
      Rejoined(ranges, before, last);
      Rejoined(others, others', end);
      LastIsNew(text, before, last);
      LastIsNew(text, others', end);
      LastIsShared(text, before, last, others', end);
      SameRanges(text, before, others');
    }
  }

  lemma Rejoined(ranges: seq<Range>, before: seq<Range>, last: Range)
    requires ranges != [] && before == ranges[..|ranges| - 1] && last == ranges[|ranges| - 1]
    ensures ranges == before + [last]
  {
  }

  /** Text and key matches leave one possible output. */
  lemma RedactionIsDetermined(text: string, found: seq<Found>, ranges: seq<Range>, out: string, others: seq<Range>, other: string)
    requires Redacted(text, found, ranges, out) && Redacted(text, found, others, other)
    ensures out == other
  {
    SameRanges(text, ranges, others);
  }

  // ---------------------------------------------------------------- what a value is

  /** An unquoted value behind an `Authorization` header is all the rest of its line; behind any other
      key it runs to the next separator. */
  lemma UnquotedValueRunsToAStop(text: string, key: KeyMatch)
    requires key.end <= |text| && ValueGrammar.IsBare(text[key.end..])
    ensures var value := ValueOf(text, key);
            && value.lo == key.end <= value.hi <= |text|
            && (forall p :: value.lo <= p < value.hi ==> !ValueGrammar.Stops(text[p], key.authHeader))
            && (value.hi < |text| ==> ValueGrammar.Stops(text[value.hi], key.authHeader))
  {
    var rest := text[key.end..];
    ValueGrammar.BareValueRunsToAStop(rest, key.authHeader);
    assert forall k :: 0 <= k < |rest| ==> rest[k] == text[key.end + k];
  }

  // ---------------------------------------------------------------- what the output gives away

  /** The value starts with a quote, and ends with the same one. */
  predicate Opens(text: string, r: Range, quote: char)
    requires r.lo < r.hi <= |text|
  {
    text[r.lo] == quote && (quote == '"' || quote == '\'')
  }

  predicate Closes(text: string, r: Range, quote: char)
    requires r.lo < r.hi <= |text|
  {
    Opens(text, r, quote) && r.hi - r.lo >= 2 && text[r.hi - 1] == quote
  }

  lemma MaskWearsTheQuotes(text: string, r: Range)
    requires r.lo < r.hi <= |text|
    ensures forall q :: Closes(text, r, q) ==> Mask(text, r) == [q] + "<redacted>" + [q]
    ensures forall q :: Opens(text, r, q) && !Closes(text, r, q) ==> Mask(text, r) == [q] + "<redacted>"
    ensures (forall q :: !Opens(text, r, q)) ==> Mask(text, r) == "<redacted>"
  {
    assert IsQuote(text[r.lo]) ==> Opens(text, r, text[r.lo]);
  }

  /** The two texts differ at most inside the ranges, and there not in the quotes the values wear. */
  ghost predicate DifferInside(text: string, other: string, ranges: seq<Range>) {
    && |text| == |other|
    && (forall p :: 0 <= p < |text| && (forall r :: r in ranges ==> !(r.lo <= p < r.hi)) ==> text[p] == other[p])
    && forall r :: r in ranges && r.lo < r.hi <= |text| ==>
         forall q :: (Opens(text, r, q) <==> Opens(other, r, q)) && (Closes(text, r, q) <==> Closes(other, r, q))
  }

  lemma SameMask(text: string, other: string, r: Range)
    requires r.lo < r.hi <= |text| == |other|
    requires forall q :: (Opens(text, r, q) <==> Opens(other, r, q)) && (Closes(text, r, q) <==> Closes(other, r, q))
    ensures Mask(text, r) == Mask(other, r)
  {
    MaskWearsTheQuotes(text, r);
    MaskWearsTheQuotes(other, r);
    var q := text[r.lo];
    assert Opens(text, r, q) || forall c :: !Opens(text, r, c);
  }

  lemma FirstFew(text: string, all: seq<Range>, n: nat)
    requires Apart(text, all, 0) && n <= |all|
    ensures Apart(text, all[..n], 0)
    ensures n > 0 ==> all[..n][..n - 1] == all[..n - 1] && all[..n][n - 1] == all[n - 1]
  {
  }

  lemma {:induction false} SameUpTo(text: string, other: string, all: seq<Range>, n: nat)
    requires n <= |all| && DifferInside(text, other, all) && Apart(text, all, 0) && Apart(other, all, 0)
    ensures Apart(text, all[..n], 0) && Apart(other, all[..n], 0) && Masked(text, all[..n]) == Masked(other, all[..n])
  {
    FirstFew(text, all, n);
    FirstFew(other, all, n);
    if n > 0 {
      SameUpTo(text, other, all, n - 1);
      MaskIsTheSame(text, other, all, n - 1);
      SameBetween(text, other, all, n - 1);
      LastMasked(text, all, n);
      LastMasked(other, all, n);
    }
  }

  lemma MaskIsTheSame(text: string, other: string, all: seq<Range>, k: nat)
    requires k < |all| && DifferInside(text, other, all) && Apart(text, all, 0)
    ensures all[k].lo < all[k].hi <= |text| == |other| && Mask(text, all[k]) == Mask(other, all[k])
  {
    assert all[k] in all;
    SameMask(text, other, all[k]);
  }

  lemma LastMasked(text: string, all: seq<Range>, n: nat)
    requires 0 < n <= |all| && Apart(text, all, 0) && Apart(text, all[..n], 0) && Apart(text, all[..n - 1], 0)
    ensures EndOf(all[..n - 1]) <= all[n - 1].lo
    ensures Masked(text, all[..n]) ==
            Masked(text, all[..n - 1]) + text[EndOf(all[..n - 1])..all[n - 1].lo] + Mask(text, all[n - 1])
  {
    FirstFew(text, all, n);
    if n > 1 {
      assert all[n - 2].hi <= all[n - 1].lo;
    }
  }

  /** Between the ranges. */
  lemma SameBetween(text: string, other: string, all: seq<Range>, n: nat)
    requires DifferInside(text, other, all) && Apart(text, all, 0) && n <= |all|
    ensures var (from, to) := (EndOf(all[..n]), if n < |all| then all[n].lo else |text|);
            from <= to <= |text| && text[from..to] == other[from..to]
  {
    var (from, to) := (EndOf(all[..n]), if n < |all| then all[n].lo else |text|);
    if 0 < n < |all| {
      assert all[n - 1].hi <= all[n].lo;
    }
    forall p | from <= p < to
      ensures text[p] == other[p]
    {
      forall r | r in all
        ensures !(r.lo <= p < r.hi)
      {
        var j :| 0 <= j < |all| && all[j] == r;
        PastOrAhead(text, all, n, j);
      }
    }
  }

  lemma PastOrAhead(text: string, all: seq<Range>, n: nat, j: nat)
    requires Apart(text, all, 0) && n <= |all| && j < |all|
    ensures if j < n then all[j].hi <= EndOf(all[..n]) else n < |all| && all[n].lo <= all[j].lo
  {
  }

  /** The output tells nothing of a masked value but the quotes it wears: texts that differ only inside
      the masked ranges come out the same. */
  lemma OutputHidesTheValues(text: string, other: string, ranges: seq<Range>)
    requires Apart(text, ranges, 0) && Apart(other, ranges, 0) && DifferInside(text, other, ranges)
    ensures EndOf(ranges) <= |text| == |other|
    ensures Masked(text, ranges) + text[EndOf(ranges)..] == Masked(other, ranges) + other[EndOf(ranges)..]
  {
    SameRest(text, other, ranges);
    assert ranges[..|ranges|] == ranges;
    SameUpTo(text, other, ranges, |ranges|);
  }

  lemma SameRest(text: string, other: string, ranges: seq<Range>)
    requires Apart(text, ranges, 0) && DifferInside(text, other, ranges)
    ensures EndOf(ranges) <= |text| == |other| && text[EndOf(ranges)..] == other[EndOf(ranges)..]
  {
    var e := EndOf(ranges);
    assert ranges[..|ranges|] == ranges;
    SameBetween(text, other, ranges, |ranges|);
    assert text[e..] == text[e..|text|] && other[e..] == other[e..|other|];
  }

  // ---------------------------------------------------------------- which values are masked whole

  predicate Holds(r: Range, p: nat) {
    r.lo <= p < r.hi
  }

  predicate Contains(r: Range, value: Range) {
    r.lo <= value.lo && value.hi <= r.hi
  }

  /** Character `p` of the text is masked. */
  ghost predicate MaskedAt(ranges: seq<Range>, p: nat) {
    exists r :: r in ranges && Holds(r, p)
  }

  /** No character of the value is left. */
  ghost predicate MaskedWhole(ranges: seq<Range>, value: Range) {
    forall p: nat :: Holds(value, p) ==> MaskedAt(ranges, p)
  }

  /** What masks a character is the value of a key in its turn. */
  lemma MaskedByAKey(text: string, found: seq<Found>, ranges: seq<Range>, out: string, p: nat) returns (j: nat)
    requires Redacted(text, found, ranges, out) && MaskedAt(ranges, p)
    ensures j < |found| && InTurn(found, j) && Holds(found[j].value, p)
  {
    var r :| r in ranges && Holds(r, p);
    j :| j < |found| && InTurn(found, j) && r == found[j].value;
  }

  /** Of two keys in their turn one starts where the other's value ended, or past it. */
  lemma TurnsFollow(found: seq<Found>, i: nat, j: nat)
    requires i < |found| && j < |found| && i != j && InTurn(found, i) && InTurn(found, j)
    ensures found[i].value.hi <= found[j].start || found[j].value.hi <= found[i].start
  {
  }

  /** Whatever the finders matched, overlapping or not: a value is masked to its last character
      exactly when it lies within the value of one key in its turn, its own or another's. */
  lemma MaskedWholeIff(text: string, found: seq<Found>, ranges: seq<Range>, out: string, k: nat)
    requires Fit(text, found) && k < |found| && Redacted(text, found, ranges, out)
    requires found[k].value.lo < found[k].value.hi
    ensures MaskedWhole(ranges, found[k].value) <==>
            exists j: nat :: j < |found| && InTurn(found, j) && Contains(found[j].value, found[k].value)
  {
    var value := found[k].value;
    if MaskedWhole(ranges, value) {
      assert Holds(value, value.lo);
      var j := MaskedByAKey(text, found, ranges, out, value.lo);
      var end := found[j].value.hi;
      if end < value.hi {
        assert Holds(value, end);
        var i := MaskedByAKey(text, found, ranges, out, end);
        TurnsFollow(found, i, j);
        assert false;
      }
      assert Contains(found[j].value, value);
    }
    forall j: nat, p: nat | j < |found| && InTurn(found, j) && Contains(found[j].value, value) && Holds(value, p)
      ensures MaskedAt(ranges, p)
    {
      assert Holds(found[j].value, p);
    }
  }

  /** No two matches share a character. */
  ghost predicate Separate(found: seq<Found>) {
    forall j, k :: 0 <= j < k < |found| ==> found[j].value.lo <= found[k].start
  }

  /** Key `k` sits in the masked value of key `j`, which ends before key `k`'s own value does. */
  ghost predicate CutsOff(found: seq<Found>, j: nat, k: nat)
    requires j < |found| && k < |found|
  {
    InTurn(found, j) && found[k].start < found[j].value.hi < found[k].value.hi
  }

  /** A key's value is masked to its last character exactly when no earlier masked value swallows
      the key and stops short of the value. */
  lemma MaskedUnlessCutOff(text: string, found: seq<Found>, ranges: seq<Range>, out: string, k: nat)
    requires Fit(text, found) && Separate(found) && k < |found| && Redacted(text, found, ranges, out)
    requires found[k].value.lo < found[k].value.hi
    ensures MaskedWhole(ranges, found[k].value) <==> forall j: nat :: j < k ==> !CutsOff(found, j, k)
  {
    MaskedWholeIff(text, found, ranges, out, k);
    if j: nat :| j < k && CutsOff(found, j, k) {
      forall i: nat | i < |found| && InTurn(found, i)
        ensures !Contains(found[i].value, found[k].value)
      {
        if i != j {
          CutOffIsOutside(text, found, i, j, k);
        }
      }
    } else {
      SwallowedOrInTurn(found, k);
    }
  }

  lemma CutOffIsOutside(text: string, found: seq<Found>, i: nat, j: nat, k: nat)
    requires Fit(text, found) && Separate(found) && i < |found| && j < k < |found| && i != j
    requires InTurn(found, i) && CutsOff(found, j, k)
    ensures !Contains(found[i].value, found[k].value)
  {
    TurnsFollow(found, i, j);
  }

  /** A key that isn't in its turn is swallowed; where it isn't cut off, its value is too. */
  lemma SwallowedOrInTurn(found: seq<Found>, k: nat)
    requires Separate(found) && k < |found| && found[k].value.lo < found[k].value.hi && found[k].start < found[k].value.lo
    requires forall j: nat :: j < k ==> !CutsOff(found, j, k)
    ensures exists j: nat :: j < |found| && InTurn(found, j) && Contains(found[j].value, found[k].value)
  {
    if InTurn(found, k) {
      assert Contains(found[k].value, found[k].value);
    } else {
      var j: nat :| j < k && InTurn(found, j) && found[k].start < found[j].value.hi;
      assert !CutsOff(found, j, k);
      assert Contains(found[j].value, found[k].value);
    }
  }

  /** Of two matches that do overlap, the second never gets a range of its own. */
  lemma OverlappingKeyHasNoTurn(text: string, found: seq<Found>, j: nat, k: nat)
    requires Fit(text, found) && j < k < |found| && InTurn(found, j) && found[k].start < found[j].value.lo
    ensures !InTurn(found, k)
  {
  }

  lemma PrintedValue(text: string, key: KeyMatch, j: PrintedJson.Json, u: string)
    requires key.end <= |text| && PrintedJson.WellFormed(j) && !j.Atom?
    requires text[key.end..] == PrintedJson.Print(j) + u
    ensures ValueOf(text, key) == Range(key.end, key.end + |PrintedJson.Print(j)|) && |PrintedJson.Print(j)| > 0
  {
    PrintedJson.PrintedValueEnds(j, u, key.authHeader);
    PrintedJson.PrintIsNotEmpty(j);
  }

  lemma PrintedFound(text: string, keys: seq<KeyMatch>, k: nat, j: PrintedJson.Json, u: string)
    requires InOrder(text, keys) && k < |keys|
    requires PrintedJson.WellFormed(j) && !j.Atom? && text[keys[k].end..] == PrintedJson.Print(j) + u
    ensures FoundIn(text, keys)[k].value == Range(keys[k].end, keys[k].end + |PrintedJson.Print(j)|)
    ensures |PrintedJson.Print(j)| > 0
  {
    PrintedValue(text, keys[k], j, u);
  }

  /** A printed JSON string, array or object behind a key is masked to its last character, unless
      what an earlier key had masked swallows the key and stops short of it. */
  lemma JsonValueIsMaskedWholeIff(
      text: string, keys: seq<KeyMatch>, ranges: seq<Range>, out: string, k: nat, j: PrintedJson.Json, u: string)
    requires InOrder(text, keys) && k < |keys| && Redacted(text, FoundIn(text, keys), ranges, out)
    requires Separate(FoundIn(text, keys))
    requires PrintedJson.WellFormed(j) && !j.Atom? && text[keys[k].end..] == PrintedJson.Print(j) + u
    ensures MaskedWhole(ranges, Range(keys[k].end, keys[k].end + |PrintedJson.Print(j)|)) <==>
            forall i: nat :: i < k ==> !CutsOff(FoundIn(text, keys), i, k)
  {
    PrintedFound(text, keys, k, j, u);
    FoundFit(text, keys);
    MaskedUnlessCutOff(text, FoundIn(text, keys), ranges, out, k);
  }

  // ---------------------------------------------------------------- a value that stays

  lemma {:induction false} BareRunsTo(t: string, stop: string, n: nat)
    requires n < |t| && t[n] in stop && forall i :: 0 <= i < n ==> t[i] !in stop
    ensures BareLength(t, stop) == n
    decreases n
  {
    if n > 0 {
      BareRunsTo(t[1..], stop, n - 1);
    }
  }

  lemma BareValue(t: string, n: nat)
    requires 0 < n < |t| && t[n] in BARE_TERMINATORS && forall i :: 0 <= i < n ==> t[i] !in BARE_TERMINATORS
    requires !IsQuote(t[0]) && !IsOpener(t[0]) && t[0] !in REPR_PREFIXES
    ensures ValueLength(t, false) == n
  {
    BareRunsTo(t, BARE_TERMINATORS, n);
  }

  lemma OneLetterQuoted(t: string)
    requires |t| == 3 && t[0] == t[2] == '"' && t[1] != '"' && t[1] != '\\'
    ensures ValueLength(t, false) == 3
  {
    assert t[1..][0] == t[1] && t[1..][1..][0] == t[2];
    assert QuoteLength(t[1..][1..], '"') == Some(1);
    assert QuoteLength(t[1..], '"') == Some(2);
    assert '"' !in REPR_PREFIXES;
  }

  /** `code=code: "S"`, and where the finder matches in it. */
  predicate NestedKey(text: string, keys: seq<KeyMatch>) {
    text == "code=code: \"S\"" && keys == [KeyMatch(0, 5, false), KeyMatch(5, 11, false)]
  }

  predicate NestedFound(found: seq<Found>) {
    found == [Found(0, Range(5, 10)), Found(5, Range(11, 14))]
  }

  /** The bare value of the first key is the second key, up to its colon. */
  lemma FirstNestedValue(text: string, keys: seq<KeyMatch>)
    requires NestedKey(text, keys)
    ensures ValueOf(text, keys[0]) == Range(5, 10)
  {
    BareValue(text[5..], 5);
  }

  lemma SecondNestedValue(text: string, keys: seq<KeyMatch>)
    requires NestedKey(text, keys)
    ensures ValueOf(text, keys[1]) == Range(11, 14)
  {
    OneLetterQuoted(text[11..]);
  }

  lemma NestedValues(text: string, keys: seq<KeyMatch>)
    requires NestedKey(text, keys)
    ensures InOrder(text, keys) && NestedFound(FoundIn(text, keys))
  {
    FirstNestedValue(text, keys);
    SecondNestedValue(text, keys);
  }

  lemma CutOffAtTheColon(text: string, found: seq<Found>)
    requires |text| == 14 && NestedFound(found)
    ensures Fit(text, found) && Separate(found)
    ensures InTurn(found, 0) && !InTurn(found, 1) && CutsOff(found, 0, 1)
  {
    assert InTurn(found, 0);
  }

  lemma OneMask(text: string, r: Range)
    requires r.lo < r.hi <= |text| && !IsQuote(text[r.lo])
    ensures Apart(text, [r], 0) && EndOf([r]) == r.hi && Masked(text, [r]) == text[..r.lo] + "<redacted>"
  {
    var none: seq<Range> := [];
    assert none + [r] == [r];
    OneMoreRange(text, none, r);
    assert Masked(text, none) == "" && EndOf(none) == 0 && text[0..r.lo] == text[..r.lo];
  }

  lemma OnlyTheFirst(text: string, found: seq<Found>, r: Range)
    requires NestedFound(found) && r == Range(5, 10) && |text| == 14 && !IsQuote(text[5])
    ensures Redacted(text, found, [r], text[..5] + "<redacted>" + text[10..])
  {
    CutOffAtTheColon(text, found);
    OneMask(text, r);
    assert r in [r];
  }

  lemma SecondStays(text: string, found: seq<Found>, ranges: seq<Range>, out: string)
    requires NestedFound(found) && |text| == 14 && !IsQuote(text[5]) && Redacted(text, found, ranges, out)
    ensures !MaskedWhole(ranges, Range(11, 14)) && out == text[..5] + "<redacted>" + text[10..]
  {
    CutOffAtTheColon(text, found);
    MaskedUnlessCutOff(text, found, ranges, out, 1);
    OnlyTheFirst(text, found, Range(5, 10));
    RedactionIsDetermined(text, found, ranges, out, [Range(5, 10)], text[..5] + "<redacted>" + text[10..]);
  }

  /** The second key is skipped as part of the first one's value, and its own stays in the clear. */
  lemma NestedSecretStays(text: string, keys: seq<KeyMatch>, ranges: seq<Range>, out: string)
    requires NestedKey(text, keys) && InOrder(text, keys) && Redacted(text, FoundIn(text, keys), ranges, out)
    ensures !MaskedWhole(ranges, Range(11, 14))
    ensures out == text[..5] + "<redacted>" + text[10..]
  {
    NestedValues(text, keys);
    SecondStays(text, FoundIn(text, keys), ranges, out);
  }
}
