/**
 The stdio child's stderr, teed into a ring of its latest bytes (`_StderrTee`, `_stderr_block`,
 backend/app/bridge/host.py): which part of the stream a failed call carries, and what of it shows.
 */
module StderrTee {
  import opened Basics
  import opened HideValues

  const RING_BYTES: nat := 256 * 1024
  const READ_BYTES: nat := 65536
  const ATTACH_LINES: nat := 20
  const ATTACH_BYTES: nat := 2048

  function Last(s: Bytes, n: nat): (r: Bytes) {
    if |s| <= n then s else s[|s| - n..]
  }

  /** The ring is bounded, and holds what was written last. */
  lemma RingHoldsTheLast(stream: Bytes)
    ensures var ring := Last(stream, RING_BYTES);
            && |ring| == (if |stream| < 262144 then |stream| else 262144)
            && forall i :: 0 <= i < |ring| ==> ring[i] == stream[|stream| - |ring| + i]
  {
  }

  function Longest(values: seq<Bytes>): (n: nat)
    ensures forall v :: v in values ==> |v| <= n
    ensures n == 0 || exists v :: v in values && |v| == n
  {
    if values == [] then 0
    else
      var rest := Longest(values[1..]);
      assert forall v :: v in values <==> v == values[0] || v in values[1..];
      Max(|values[0]|, rest)
  }

  /** The bytes of `ring` a window ending at `hi` must not show: `dropped` says that the ring lost
      what came before it. */
  ghost predicate MustHide(ring: Bytes, secrets: seq<Bytes>, dropped: bool, hi: nat, i: nat) {
    Covered(ring, secrets, dropped, hi == |ring|, i)
  }

  /** Positions of `ring`; the pieces count from `from`. */
  ghost predicate HidesExactly(
      pieces: seq<Piece>, ring: Bytes, secrets: seq<Bytes>, dropped: bool, from: nat, lo: nat, hi: nat)
  {
    forall i: nat :: lo - from <= i < hi - from ==>
      (ShownAt(pieces, i) <==> !MustHide(ring, secrets, dropped, hi, from + i))
  }

  class Tee {
    /** Whether the platform can say how much waits in the pipe. */
    const tells: bool
    const secrets: seq<Bytes>
    var read: nat
    var buf: Bytes
    var base: nat
    /** What the child wrote and nobody read yet. */
    var pipe: Bytes
    /** Every byte pumped so far. */
    ghost var stream: Bytes

    ghost predicate Valid()
      reads this
    {
      read == |stream| && buf == Last(stream, RING_BYTES) && base == |stream| - |buf|
    }

    constructor (tells: bool, secrets: seq<Bytes>)
      ensures Valid() && stream == [] && pipe == [] && this.secrets == secrets && this.tells == tells
    {
      this.tells, this.secrets := tells, secrets;
      read, buf, base, pipe, stream := 0, [], 0, [], [];
    }

    /** The child writes. */
    method ChildWrites(bytes: Bytes)
      requires Valid()
      modifies this`pipe
      ensures Valid() && pipe == old(pipe) + bytes
    {
      pipe := pipe + bytes;
    }

    /** `mark`: the stream position right now. */
    method Mark() returns (position: nat)
      requires Valid()
      ensures position == if tells then |stream| + |pipe| else |stream|
    {
      position := read + if tells then |pipe| else 0;
    }

    /** `_file`. */
    method File(chunk: Bytes)
      requires Valid()
      modifies this`read, this`buf, this`base, this`stream
      ensures Valid() && stream == old(stream) + chunk
    {
      stream := stream + chunk;
      read := read + |chunk|;
      buf := buf + chunk;
      if |buf| > RING_BYTES {
        var drop := |buf| - RING_BYTES;
        buf := buf[drop..];
        base := base + drop;
      }
    }

    /** One turn of the pump: read what the pipe gives, and file it. */
    method Pump(n: nat)
      requires Valid() && n <= |pipe| && n <= READ_BYTES
      modifies this
      ensures Valid() && stream + pipe == old(stream + pipe) && stream == old(stream) + old(pipe)[..n]
    {
      var chunk := pipe[..n];
      pipe := pipe[n..];
      File(chunk);
      assert old(pipe) == chunk + pipe;
    }

    /** The part of the ring a window needs, with what belongs to a secret hidden. */
    method WindowOf(ring: Bytes, dropped: bool, look: nat, lo: nat, hi: nat, from: nat, to: nat) returns (pieces: seq<Piece>)
      requires look == Longest(secrets) && lo < hi <= |ring|
      requires from == Max(0, lo - look) && to == Min(|ring|, hi + look)
      ensures HidesExactly(pieces, ring, secrets, dropped, from, lo, hi)
    {
      pieces := HideIn(ring[from..to], secrets, lo - from, hi - from, dropped && from == 0, hi == to);
      WindowShows(ring, secrets, dropped, look, lo, hi, from, to, pieces);
    }

    /** `window`, up to its split into lines: the bytes of the stream in `[start, end)` that are
        still kept, each shown exactly when it must not be hidden. The pieces count from stream
        position `from`. */
    method Window(start: nat, end: nat) returns (lo: nat, hi: nat, from: nat, pieces: seq<Piece>)
      requires Valid()
      ensures lo == Max(start, base) && hi == Min(end, read)
      ensures hi <= lo ==> pieces == []
      ensures lo < hi ==> base <= from <= lo && HidesExactly(pieces, buf, secrets, base > 0, from - base, lo - base, hi - base)
    {
      var look := Longest(secrets);
      lo, hi := Max(start, base), Min(end, read);
      if hi <= lo {
        return lo, hi, lo, [];
      }
      from := Max(base, lo - look);
      var to := Min(read, hi + look);
      pieces := WindowOf(buf, base > 0, look, lo - base, hi - base, from - base, to - base);
    }
  }

  /** Looking the longest secret's length past each edge of a window is as good as looking at the
      whole ring. */
  lemma WindowIsEnough(
      ring: Bytes, secrets: seq<Bytes>, dropped: bool, look: nat, lo: nat, hi: nat, i: nat)
    requires lo <= i < hi <= |ring| && look == Longest(secrets)
    ensures var (from, to) := (Max(0, lo - look), Min(|ring|, hi + look));
            MustHide(ring, secrets, dropped, hi, i) <==>
            Covered(ring[from..to], secrets, dropped && from == 0, hi == to, i - from)
  {
    if look == 0 {
      assert forall n :: n in secrets ==> n == [];
      assert forall n :: n in secrets ==> !CoveredBy(ring, n, dropped, hi == |ring|, i);
    } else {
      SliceIsEnough(ring, secrets, dropped, hi == |ring|, look, lo, hi, i);
    }
  }

  lemma WindowShows(
      ring: Bytes, secrets: seq<Bytes>, dropped: bool, look: nat, lo: nat, hi: nat, from: nat, to: nat, pieces: seq<Piece>)
    requires lo < hi <= |ring| && look == Longest(secrets)
    requires from == Max(0, lo - look) && to == Min(|ring|, hi + look)
    requires ShowsTheRest(pieces, ring[from..to], secrets, dropped && from == 0, hi == to, lo - from, hi - from)
    ensures HidesExactly(pieces, ring, secrets, dropped, from, lo, hi)
  {
    forall i: nat | lo - from <= i < hi - from
      ensures ShownAt(pieces, i) <==> !MustHide(ring, secrets, dropped, hi, from + i)
    {
      WindowIsEnough(ring, secrets, dropped, look, lo, hi, from + i);
    }
  }

  // ---------------------------------------------------------------- the whole stream

  /** A secret the child wrote before or while the ring dropped bytes is hidden too, as long as
      enough of it is left to tell: no byte of an occurrence in the whole stream shows. */
  lemma WindowHidesTheStreamsSecrets(stream: Bytes, secrets: seq<Bytes>, n: Bytes, at: nat, i: nat, hi: nat)
    requires n in secrets && OccursAt(stream, n, at)
    ensures var ring := Last(stream, RING_BYTES);
            var base := |stream| - |ring|;
            at <= i < at + |n| && base <= i && (at < base ==> MIN_PARTIAL <= at + |n| - base) ==>
              MustHide(ring, secrets, base > 0, hi, i - base)
  {
    var ring := Last(stream, RING_BYTES);
    var base := |stream| - |ring|;
    if at <= i < at + |n| && base <= i {
      if base <= at {
        OccursInSlice(stream, n, base, |stream|, at);
        assert stream[base..|stream|] == ring;
        assert InOccurrence(ring, n, i - base);
      } else {
        var k := at + |n| - base;
        assert ring[..k] == stream[base..at + |n|] == stream[at..at + |n|][base - at..] == n[|n| - k..];
        if MIN_PARTIAL <= k {
          assert StartsWithPart(ring, n, k);
          assert InOpenStart(ring, n, i - base);
        }
      }
    }
  }

  /** One the child has only begun to write is hidden in a window that reaches the stream's end, from
      its fourth byte on. */
  lemma WindowHidesWhatIsBegun(stream: Bytes, more: Bytes, secrets: seq<Bytes>, n: Bytes, at: nat, i: nat)
    requires n in secrets && OccursAt(stream + more, n, at) && at + 4 <= |stream| < at + |n|
    ensures var ring := Last(stream, RING_BYTES);
            var base := |stream| - |ring|;
            base <= at <= i < |stream| ==> MustHide(ring, secrets, base > 0, |ring|, i - base)
  {
    var ring := Last(stream, RING_BYTES);
    var base := |stream| - |ring|;
    if base <= at <= i < |stream| {
      assert ring == stream[base..];
      BegunInTheRing(stream, more, n, at, base);
      OpenEndMeans(ring, n, i - base);
      assert InOpenEnd(ring, n, i - base);
    }
  }

  lemma BegunInTheRing(stream: Bytes, more: Bytes, n: Bytes, at: nat, base: nat)
    requires base <= at && OccursAt(stream + more, n, at) && at + 4 <= |stream| < at + |n|
    ensures SpelledOnward(stream[base..], n, more, at - base)
  {
    var (all, kept) := (stream + more, stream[base..] + more);
    assert all[base..] == kept;
    assert kept[at - base..at - base + |n|] == all[at..at + |n|];
  }

  // ---------------------------------------------------------------- the attached block

  /** What the lines take in the block, each with its line break. */
  function SizeOf(lines: seq<Bytes>): nat {
    if lines == [] then 0 else |lines[0]| + 1 + SizeOf(lines[1..])
  }

  lemma {:induction false} SizeOfMore(line: Bytes, lines: seq<Bytes>)
    ensures SizeOf([line] + lines) == |line| + 1 + SizeOf(lines)
  {
    assert ([line] + lines)[1..] == lines;
  }

  function Cleaned(lines: seq<Bytes>, clean: Bytes -> Bytes): (r: seq<Bytes>)
    ensures |r| == |lines| && forall k :: 0 <= k < |r| ==> r[k] == clean(lines[k])
  {
    seq(|lines|, k requires 0 <= k < |lines| => clean(lines[k]))
  }

  const ELLIPSIS: Bytes := [0xE2, 0x80, 0xA6]

  /** The lines as the block shows them. */
  function Written(lines: seq<Bytes>): Bytes {
    if lines == [] then [] else Written(lines[..|lines| - 1]) + lines[|lines| - 1] + [10]
  }

  lemma {:induction false} WrittenMore(line: Bytes, lines: seq<Bytes>)
    ensures Written([line] + lines) == line + [10] + Written(lines)
    decreases |lines|
  {
    var all := [line] + lines;
    if lines == [] {
      assert all[..0] == [] && all[0] == line;
    } else {
      var (init, last) := (lines[..|lines| - 1], lines[|lines| - 1]);
      assert all[..|all| - 1] == [line] + init && all[|all| - 1] == last;
      WrittenMore(line, init);
    }
  }

  /** That is how long the block's text is, with a line break after each line. */
  lemma {:induction false} SizeIsTheBlocksLength(lines: seq<Bytes>)
    ensures SizeOf(lines) == |Written(lines)|
    decreases |lines|
  {
    if lines != [] {
      assert lines == [lines[0]] + lines[1..];
      WrittenMore(lines[0], lines[1..]);
      SizeIsTheBlocksLength(lines[1..]);
    }
  }

  /** `b` is the suffix of the lines that fits, as long as it can be. */
  ghost predicate LongestFit(lines: seq<Bytes>, b: seq<Bytes>) {
    && |b| <= |lines| && b == lines[|lines| - |b|..] && SizeOf(b) <= ATTACH_BYTES
    && (|b| < |lines| ==> SizeOf([lines[|lines| - |b| - 1]] + b) > ATTACH_BYTES)
  }

  /** `_stderr_block`: the last lines, each cleaned before the cap. `readable` drops what isn't a
      whole character at a cut. */
  method StderrBlock(lines: seq<Bytes>, clean: Bytes -> Bytes, readable: Bytes -> Bytes) returns (block: seq<Bytes>)
    requires forall b :: |readable(b)| <= |b|
    ensures SizeOf(block) <= ATTACH_BYTES
    ensures var last := Cleaned(lines[|lines| - Min(|lines|, ATTACH_LINES)..], clean);
            if last != [] && |last[|last| - 1]| + 1 > ATTACH_BYTES
            then
              var line := last[|last| - 1];
              block == [ELLIPSIS + readable(line[|line| - (ATTACH_BYTES - 4)..])]
            else LongestFit(last, block)
  {
    var recent := lines[|lines| - Min(|lines|, ATTACH_LINES)..];
    ghost var last := Cleaned(recent, clean);
    block := [];
    var room := ATTACH_BYTES;
    var i := |recent|;
    while i > 0
      invariant 0 <= i <= |recent| && block == last[i..]
      invariant 0 <= room == ATTACH_BYTES - SizeOf(block)
      invariant block != [] ==> |last[|last| - 1]| + 1 <= ATTACH_BYTES
      decreases i
    {
      var line := clean(recent[i - 1]);
      SizeOfMore(line, block);
      var size := |line| + 1;
      if size > room {
        if block == [] {
          assert i == |recent| && line == last[|last| - 1] && room == ATTACH_BYTES;
          block := [ELLIPSIS + readable(line[|line| - (room - 4)..])];
          assert [block[0]] + [] == block;
          SizeOfMore(block[0], []);
        }
        return;
      }
      block := [line] + block;
      room := room - size;
      i := i - 1;
      assert last[i..] == [last[i]] + last[i + 1..];
    }
  }
}
