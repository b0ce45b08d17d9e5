/**
 Where `_value_end` (backend/app/auth/oauth_flow.py) ends a value, by what the value is: bare text, a
 quoted text, or brackets around well-nested text. The scans are not mentioned in what each is.
 */
module ValueGrammar {
  import opened Basics
  import opened ValueScanner

  // ---------------------------------------------------------------- bare values

  /** A bare value stops at whitespace and at what separates values; an `Authorization` header's, at
      the end of its line. */
  predicate Stops(c: char, toEndOfLine: bool) {
    c == '\r' || c == '\n' || (!toEndOfLine && c in {' ', '\t', ',', '&', ')', '}', ']'})
  }

  /** A literal's prefix letters and its quote. */
  predicate PrefixedQuote(t: string, p: nat) {
    p <= 2 && p < |t| && (t[p] == '"' || t[p] == '\'') &&
    forall k :: 0 <= k < p ==> t[k] in {'b', 'B', 'r', 'R', 'u', 'U', 'f', 'F'}
  }

  predicate IsBare(t: string) {
    t != "" && t[0] != '[' && t[0] != '{' && !PrefixedQuote(t, 0) && !PrefixedQuote(t, 1) && !PrefixedQuote(t, 2)
  }

  lemma {:induction false} BareRuns(t: string, stop: string)
    ensures var n := BareLength(t, stop);
            (forall k :: 0 <= k < n ==> t[k] !in stop) && (n < |t| ==> t[n] in stop)
    decreases |t|
  {
    if t != "" && t[0] !in stop {
      BareRuns(t[1..], stop);
      var n := BareLength(t[1..], stop);
      assert forall k :: 1 <= k <= n ==> t[k] == t[1..][k - 1];
      assert n < |t[1..]| ==> t[n + 1] == t[1..][n];
    }
  }

  /** A bare value is the longest part of the text that holds no stop. */
  lemma BareValueRunsToAStop(t: string, toEndOfLine: bool)
    requires IsBare(t)
    ensures var n := ValueLength(t, toEndOfLine);
            && n <= |t| && (forall k :: 0 <= k < n ==> !Stops(t[k], toEndOfLine)) && (n < |t| ==> Stops(t[n], toEndOfLine))
  {
    var p := PrefixLength(t);
    assert p > 0 && p < |t| && IsQuote(t[p]) ==> PrefixedQuote(t, p);
    BareRuns(t, LINE_TERMINATORS);
    BareRuns(t, BARE_TERMINATORS);
    forall c: char
      ensures c in LINE_TERMINATORS <==> Stops(c, true)
      ensures c in BARE_TERMINATORS <==> Stops(c, false)
    {
    }
  }

  // ---------------------------------------------------------------- quoted values

  /** How many backslashes stand right before place `k`, from `from` on. */
  function Backslashes(t: string, from: nat, k: nat): nat
    requires from <= k <= |t|
    decreases k
  {
    if k > from && t[k - 1] == '\\' then 1 + Backslashes(t, from, k - 1) else 0
  }

  /** The quote at `k` is no part of an escape. */
  predicate ClosesAt(t: string, from: nat, k: nat, quote: char)
    requires from <= |t|
  {
    from <= k < |t| && t[k] == quote && Backslashes(t, from, k) % 2 == 0
  }

  /** No quote from `a` on, before `b`, that isn't escaped. */
  ghost predicate NoneCloses(t: string, from: nat, a: nat, b: nat, quote: char)
    requires from <= |t|
  {
    forall k :: a <= k < b ==> !ClosesAt(t, from, k, quote)
  }

  /** The next quote that isn't escaped is the last of the `length` characters from `i` on. */
  ghost predicate RunsTo(t: string, from: nat, i: nat, length: Option<nat>, quote: char)
    requires from <= |t|
  {
    match length
    case Some(n) => n > 0 && ClosesAt(t, from, i + n - 1, quote) && NoneCloses(t, from, i, i + n - 1, quote)
    case None => NoneCloses(t, from, i, |t|, quote)
  }

  lemma RunsFurther(t: string, from: nat, i: nat, step: nat, length: Option<nat>, quote: char)
    requires from <= |t| && NoneCloses(t, from, i, i + step, quote) && RunsTo(t, from, i + step, length, quote)
    ensures RunsTo(t, from, i, Plus(step, length), quote)
  {
  }

  /** From a place that isn't escaped, the scan stops past the next quote that isn't. */
  lemma {:induction false} QuoteRuns(t: string, from: nat, i: nat, quote: char)
    requires from <= i <= |t| && Backslashes(t, from, i) % 2 == 0 && IsQuote(quote)
    ensures RunsTo(t, from, i, QuoteLength(t[i..], quote), quote)
    decreases |t| - i
  {
    if i < |t| {
      QuoteStep(t, i, quote);
      if t[i] == '\\' {
        if i + 1 < |t| {
          EscapeIsOver(t, from, i, quote);
          QuoteRuns(t, from, i + 2, quote);
          RunsFurther(t, from, i, 2, QuoteLength(t[i + 2..], quote), quote);
        }
      } else if t[i] != quote {
        PlainIsOver(t, from, i, quote);
        QuoteRuns(t, from, i + 1, quote);
        RunsFurther(t, from, i, 1, QuoteLength(t[i + 1..], quote), quote);
      }
    }
  }

  lemma QuoteStep(t: string, i: nat, quote: char)
    requires i < |t|
    ensures QuoteLength(t[i..], quote) ==
            if t[i] == '\\' then if i + 1 == |t| then None else Plus(2, QuoteLength(t[i + 2..], quote))
            else if t[i] == quote then Some(1)
            else Plus(1, QuoteLength(t[i + 1..], quote))
  {
    assert t[i..][1..] == t[i + 1..] && (i + 1 < |t| ==> t[i..][2..] == t[i + 2..]);
  }

  lemma PlainIsOver(t: string, from: nat, i: nat, quote: char)
    requires from <= i < |t| && t[i] != '\\' && t[i] != quote
    ensures Backslashes(t, from, i + 1) % 2 == 0 && NoneCloses(t, from, i, i + 1, quote)
  {
  }

  /** A backslash that isn't escaped escapes the character after it, and no more. */
  lemma EscapeIsOver(t: string, from: nat, i: nat, quote: char)
    requires from <= i && i + 1 < |t| && t[i] == '\\' && Backslashes(t, from, i) % 2 == 0 && IsQuote(quote)
    ensures Backslashes(t, from, i + 2) % 2 == 0 && NoneCloses(t, from, i, i + 2, quote)
  {
    assert Backslashes(t, from, i + 1) == 1 + Backslashes(t, from, i);
  }

  lemma PrefixFound(t: string, p: nat)
    requires PrefixedQuote(t, p)
    ensures PrefixLength(t) == p && IsQuote(t[p])
  {
    forall c: char
      ensures c in REPR_PREFIXES <==> c in {'b', 'B', 'r', 'R', 'u', 'U', 'f', 'F'}
    {
    }
  }

  /** A quoted value, a literal's prefix and all, ends with the first quote of its own kind that isn't
      escaped, or with the text. */
  lemma QuotedValueRunsToItsQuote(t: string, p: nat, toEndOfLine: bool)
    requires PrefixedQuote(t, p)
    ensures var (n, from) := (ValueLength(t, toEndOfLine), p + 1);
            && p < n <= |t|
            && if exists k :: ClosesAt(t, from, k, t[p])
               then ClosesAt(t, from, n - 1, t[p]) && NoneCloses(t, from, from, n - 1, t[p])
               else n == |t|
  {
    var (from, quote) := (p + 1, t[p]);
    PrefixFound(t, p);
    QuoteRuns(t, from, from, quote);
    QuoteLengthFits(t[from..], quote);
    assert ValueLength(t, toEndOfLine) == from + OrAll(t[from..], QuoteLength(t[from..], quote));
    if k :| ClosesAt(t, from, k, quote) {
      assert QuoteLength(t[from..], quote).Some?;
    }
  }

  // ---------------------------------------------------------------- brackets

  /** Text between quotes: no quote of that kind but behind a backslash. */
  ghost predicate InQuotes(s: string, quote: char)
    decreases |s|
  {
    s == "" ||
    (if s[0] == '\\' then |s| >= 2 && InQuotes(s[2..], quote) else s[0] != quote && InQuotes(s[1..], quote))
  }

  ghost predicate IsQuoted(s: string) {
    |s| >= 2 && IsQuote(s[0]) && s[|s| - 1] == s[0] && InQuotes(s[1..|s| - 1], s[0])
  }

  /** Brackets of one kind around well-nested text. */
  ghost predicate IsGroup(s: string)
    decreases |s|, 0
  {
    |s| >= 2 && ((s[0] == '[' && s[|s| - 1] == ']') || (s[0] == '{' && s[|s| - 1] == '}')) && WellNested(s[1..|s| - 1])
  }

  /** Quoted texts, groups, and characters that are neither quote nor bracket, one after the other. */
  ghost predicate WellNested(s: string)
    decreases |s|, 2
  {
    s == "" || exists k :: 0 < k <= |s| && IsPiece(s[..k]) && WellNested(s[k..])
  }

  ghost predicate IsPiece(s: string)
    decreases |s|, 1
  {
    (|s| == 1 && s[0] !in {'"', '\'', '[', ']', '{', '}'}) || IsQuoted(s) || IsGroup(s)
  }

  lemma {:induction false} QuotesPass(s: string, u: string, stack: seq<char>, quote: char)
    requires InQuotes(s, quote) && IsQuote(quote)
    ensures StackLength(s + [quote] + u, stack, Some(quote)) == Plus(|s| + 1, StackLength(u, stack, None))
    decreases |s|
  {
    var t := s + [quote] + u;
    if s == "" {
      assert t[1..] == u;
    } else if s[0] == '\\' {
      assert t[2..] == s[2..] + [quote] + u;
      QuotesPass(s[2..], u, stack, quote);
    } else {
      assert t[1..] == s[1..] + [quote] + u;
      QuotesPass(s[1..], u, stack, quote);
    }
  }

  lemma QuotedPasses(p: string, u: string, stack: seq<char>)
    requires IsQuoted(p)
    ensures StackLength(p + u, stack, None) == Plus(|p|, StackLength(u, stack, None))
  {
    var inner := p[1..|p| - 1];
    assert (p + u)[1..] == inner + [p[0]] + u;
    QuotesPass(inner, u, stack, p[0]);
  }

  lemma {:induction false} GroupPasses(p: string, u: string, stack: seq<char>)
    requires IsGroup(p)
    ensures StackLength(p + u, stack, None) == if stack == [] then Some(|p|) else Plus(|p|, StackLength(u, stack, None))
    decreases |p|, 0
  {
    var (inner, closer) := (p[1..|p| - 1], CloserOf(p[0]));
    var deeper := stack + [closer];
    Unwrapped(p, u);
    NestedPasses(inner, [closer] + u, deeper);
    ClosingPasses(u, stack, closer);
  }

  lemma Unwrapped(p: string, u: string)
    requires |p| >= 2
    ensures (p + u)[0] == p[0] && (p + u)[1..] == p[1..|p| - 1] + ([p[|p| - 1]] + u)
  {
  }

  lemma ClosingPasses(u: string, stack: seq<char>, closer: char)
    requires IsCloser(closer)
    ensures StackLength([closer] + u, stack + [closer], None) ==
            if stack == [] then Some(1) else Plus(1, StackLength(u, stack, None))
  {
    assert ([closer] + u)[1..] == u && (stack + [closer])[..|stack|] == stack;
  }

  lemma {:induction false} NestedPasses(s: string, u: string, stack: seq<char>)
    requires WellNested(s) && stack != []
    ensures StackLength(s + u, stack, None) == Plus(|s|, StackLength(u, stack, None))
    decreases |s|, 2
  {
    if s == "" {
      assert s + u == u;
    } else {
      var k :| 0 < k <= |s| && IsPiece(s[..k]) && WellNested(s[k..]);
      assert s + u == s[..k] + (s[k..] + u);
      PiecePasses(s[..k], s[k..] + u, stack);
      NestedPasses(s[k..], u, stack);
    }
  }

  lemma {:induction false} PiecePasses(p: string, u: string, stack: seq<char>)
    requires IsPiece(p) && stack != []
    ensures StackLength(p + u, stack, None) == Plus(|p|, StackLength(u, stack, None))
    decreases |p|, 1
  {
    if IsGroup(p) {
      GroupPasses(p, u, stack);
    } else if IsQuoted(p) {
      QuotedPasses(p, u, stack);
    } else {
      assert (p + u)[1..] == u;
    }
  }

  // ---------------------------------------------------------------- and back

  lemma PieceInFront(p: string, s: string)
    requires IsPiece(p) && WellNested(s)
    ensures WellNested(p + s)
  {
    assert (p + s)[..|p|] == p && (p + s)[|p|..] == s;
    assert p != "";
  }

  /** Where a scan inside quotes ends, the quote before it closes. */
  lemma {:induction false} QuotesParse(t: string, stack: seq<char>, quote: char) returns (m: nat)
    requires IsQuote(quote) && StackLength(t, stack, Some(quote)).Some?
    ensures m < |t| && t[m] == quote && InQuotes(t[..m], quote)
    ensures StackLength(t, stack, Some(quote)) == Plus(m + 1, StackLength(t[m + 1..], stack, None))
    decreases |t|
  {
    if t[0] == '\\' {
      var n := QuotesParse(t[2..], stack, quote);
      m := n + 2;
      assert t[..m][2..] == t[2..][..n] && t[2..][n + 1..] == t[m + 1..];
    } else if t[0] == quote {
      m := 0;
    } else {
      var n := QuotesParse(t[1..], stack, quote);
      m := n + 1;
      assert t[..m][1..] == t[1..][..n] && t[1..][n + 1..] == t[m + 1..];
    }
  }

  lemma Joined(t: string, p: nat, n: nat)
    requires p + n < |t|
    ensures t[..p + n] == t[..p] + t[p..][..n] && t[p..][n + 1..] == t[p + n + 1..] && t[p..][n] == t[p + n]
  {
  }

  /** Where the innermost bracket closes, what came before is well nested. */
  lemma {:induction false} NestingParses(t: string, stack: seq<char>) returns (k: nat)
    requires stack != [] && StackLength(t, stack, None).Some?
    ensures k < |t| && WellNested(t[..k]) && t[k] == stack[|stack| - 1] && IsCloser(t[k])
    ensures StackLength(t, stack, None) ==
            if |stack| == 1 then Some(k + 1) else Plus(k + 1, StackLength(t[k + 1..], stack[..|stack| - 1], None))
    decreases |t|, 1
  {
    if IsCloser(t[0]) {
      k := 0;
    } else {
      var p := PieceParses(t, stack);
      var n := NestingParses(t[p..], stack);
      k := p + n;
      Joined(t, p, n);
      PieceInFront(t[..p], t[p..][..n]);
      Further(StackLength(t, stack, None), StackLength(t[p..], stack, None),
              StackLength(t[k + 1..], stack[..|stack| - 1], None), |stack| == 1, p, n);
    }
  }

  lemma Further(whole: Option<nat>, part: Option<nat>, rest: Option<nat>, last: bool, p: nat, n: nat)
    requires whole == Plus(p, part) && part == if last then Some(n + 1) else Plus(n + 1, rest)
    ensures whole == if last then Some(p + n + 1) else Plus(p + n + 1, rest)
  {
  }

  /** What stands before anything else is a piece. */
  lemma {:induction false} PieceParses(t: string, stack: seq<char>) returns (p: nat)
    requires stack != [] && StackLength(t, stack, None).Some? && !IsCloser(t[0])
    ensures 0 < p <= |t| && IsPiece(t[..p])
    ensures StackLength(t, stack, None) == Plus(p, StackLength(t[p..], stack, None))
    decreases |t|, 0
  {
    if IsQuote(t[0]) {
      var m := QuotesParse(t[1..], stack, t[0]);
      p := m + 2;
      Inner(t, m);
    } else if IsOpener(t[0]) {
      var n := NestingParses(t[1..], stack + [CloserOf(t[0])]);
      p := n + 2;
      Inner(t, n);
      GroupFound(t, n, stack);
    } else {
      p := 1;
    }
  }

  lemma Inner(t: string, n: nat)
    requires n + 2 <= |t|
    ensures t[..n + 2][1..n + 1] == t[1..][..n] && t[1..][n + 1..] == t[n + 2..] && t[1..][n] == t[..n + 2][n + 1]
    ensures t[..n + 2][0] == t[0] && |t[..n + 2]| == n + 2
  {
  }

  lemma GroupFound(t: string, n: nat, stack: seq<char>)
    requires n + 2 <= |t| && IsOpener(t[0]) && WellNested(t[1..][..n]) && t[1..][n] == CloserOf(t[0])
    ensures IsGroup(t[..n + 2]) && (stack + [CloserOf(t[0])])[..|stack|] == stack
  {
    Inner(t, n);
  }

  /** A value in brackets ends exactly where the group it begins does; where it begins none, because
      a bracket doesn't match or none closes it, it is all the rest. */
  lemma BracketedValueIsItsGroup(t: string, n: nat, toEndOfLine: bool)
    requires t != "" && (t[0] == '[' || t[0] == '{')
    ensures n <= |t| && IsGroup(t[..n]) ==> ValueLength(t, toEndOfLine) == n
    ensures (forall m :: 0 <= m <= |t| ==> !IsGroup(t[..m])) ==> ValueLength(t, toEndOfLine) == |t|
  {
    assert t[0] !in REPR_PREFIXES;
    if n <= |t| && IsGroup(t[..n]) {
      assert t == t[..n] + t[n..];
      GroupPasses(t[..n], t[n..], []);
    }
    if StackLength(t, [], None).Some? {
      GroupParses(t);
    }
  }

  lemma GroupParses(t: string)
    requires t != "" && IsOpener(t[0]) && StackLength(t, [], None).Some?
    ensures var n := StackLength(t, [], None).value; n <= |t| && IsGroup(t[..n])
  {
    assert [] + [CloserOf(t[0])] == [CloserOf(t[0])];
    var n := NestingParses(t[1..], [CloserOf(t[0])]);
    GroupFound(t, n, []);
  }
}
