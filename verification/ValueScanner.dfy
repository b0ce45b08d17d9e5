/**
 Where a value in third-party text ends (`_value_end`, backend/app/auth/oauth_flow.py, and
 `_container_end`, backend/app/debug.py): one forward pass over quotes and brackets.
 */
module ValueScanner {
  import opened Basics

  const BARE_TERMINATORS: string := " \t\r\n,&)}]"
  const LINE_TERMINATORS: string := "\r\n"
  const REPR_PREFIXES: string := "bBrRuUfF"

  predicate IsQuote(c: char) {
    c == '"' || c == '\''
  }

  predicate IsOpener(c: char) {
    c == '[' || c == '{'
  }

  predicate IsCloser(c: char) {
    c == ']' || c == '}'
  }

  function CloserOf(c: char): char {
    if c == '[' then ']' else '}'
  }

  function Plus(n: nat, m: Option<nat>): Option<nat> {
    if m.Some? then Some(n + m.value) else None
  }

  // ---------------------------------------------------------------- what a scan finds

  /** How much of `t` belongs to a quoted value whose opening quote was just read. */
  function QuoteLength(t: string, quote: char): Option<nat> {
    if t == "" then None
    else if t[0] == '\\' then if |t| == 1 then None else Plus(2, QuoteLength(t[2..], quote))
    else if t[0] == quote then Some(1)
    else Plus(1, QuoteLength(t[1..], quote))
  }

  /** How much of `t` belongs to the containers that `stack` says are open, closers innermost last;
      nothing when a bracket doesn't match or `t` ends first. */
  function StackLength(t: string, stack: seq<char>, quote: Option<char>): Option<nat> {
    if t == "" then None
    else if quote.Some? then
      if t[0] == '\\' then if |t| == 1 then None else Plus(2, StackLength(t[2..], stack, quote))
      else Plus(1, StackLength(t[1..], stack, if t[0] == quote.value then None else quote))
    else if IsQuote(t[0]) then Plus(1, StackLength(t[1..], stack, Some(t[0])))
    else if IsOpener(t[0]) then Plus(1, StackLength(t[1..], stack + [CloserOf(t[0])], None))
    else if IsCloser(t[0]) then
      if stack == [] || t[0] != stack[|stack| - 1] then None
      else if |stack| == 1 then Some(1)
      else Plus(1, StackLength(t[1..], stack[..|stack| - 1], None))
    else Plus(1, StackLength(t[1..], stack, None))
  }

  /** The same with a counter for a stack: any bracket closes any other. */
  function DepthLength(t: string, depth: nat, quote: Option<char>): Option<nat> {
    if t == "" then None
    else if quote.Some? then
      if t[0] == '\\' then if |t| == 1 then None else Plus(2, DepthLength(t[2..], depth, quote))
      else Plus(1, DepthLength(t[1..], depth, if t[0] == quote.value then None else quote))
    else if IsQuote(t[0]) then Plus(1, DepthLength(t[1..], depth, Some(t[0])))
    else if IsOpener(t[0]) then Plus(1, DepthLength(t[1..], depth + 1, None))
    else if IsCloser(t[0]) then
      if depth <= 1 then Some(1) else Plus(1, DepthLength(t[1..], depth - 1, None))
    else Plus(1, DepthLength(t[1..], depth, None))
  }

  function BareLength(t: string, stop: string): (n: nat)
    ensures n <= |t|
  {
    if t == "" || t[0] in stop then 0 else 1 + BareLength(t[1..], stop)
  }

  /** A Python literal's prefix letters before its quote. */
  function PrefixLength(t: string): (n: nat)
    ensures n <= 2 && n <= |t|
  {
    if |t| > 0 && t[0] in REPR_PREFIXES then if |t| > 1 && t[1] in REPR_PREFIXES then 2 else 1 else 0
  }

  function OrAll(t: string, length: Option<nat>): nat {
    if length.Some? then length.value else |t|
  }

  /** How much of `t` is the value it starts with. */
  function ValueLength(t: string, toEndOfLine: bool): nat
    requires t != ""
  {
    var prefix := PrefixLength(t);
    if prefix > 0 && prefix < |t| && IsQuote(t[prefix]) then
      prefix + 1 + OrAll(t[prefix + 1..], QuoteLength(t[prefix + 1..], t[prefix]))
    else if IsQuote(t[0]) then 1 + OrAll(t[1..], QuoteLength(t[1..], t[0]))
    else if IsOpener(t[0]) then OrAll(t, StackLength(t, [], None))
    else BareLength(t, if toEndOfLine then LINE_TERMINATORS else BARE_TERMINATORS)
  }

  lemma {:induction false} QuoteLengthFits(t: string, quote: char)
    ensures QuoteLength(t, quote).Some? ==> 1 <= QuoteLength(t, quote).value <= |t|
    decreases |t|
  {
    if t != "" {
      if t[0] == '\\' {
        if |t| > 1 {
          QuoteLengthFits(t[2..], quote);
        }
      } else {
        QuoteLengthFits(t[1..], quote);
      }
    }
  }

  lemma {:induction false} StackLengthFits(t: string, stack: seq<char>, quote: Option<char>)
    ensures StackLength(t, stack, quote).Some? ==> 1 <= StackLength(t, stack, quote).value <= |t|
    decreases |t|
  {
    if t != "" {
      if quote.Some? {
        if t[0] == '\\' {
          if |t| > 1 {
            StackLengthFits(t[2..], stack, quote);
          }
        } else {
          StackLengthFits(t[1..], stack, if t[0] == quote.value then None else quote);
        }
      } else if IsQuote(t[0]) {
        StackLengthFits(t[1..], stack, Some(t[0]));
      } else if IsOpener(t[0]) {
        StackLengthFits(t[1..], stack + [CloserOf(t[0])], None);
      } else if IsCloser(t[0]) {
        if |stack| > 1 {
          StackLengthFits(t[1..], stack[..|stack| - 1], None);
        }
      } else {
        StackLengthFits(t[1..], stack, None);
      }
    }
  }

  // ---------------------------------------------------------------- the scans themselves

  /** The quoted case of `_value_end`. */
  method QuoteEnd(text: string, start: nat) returns (end: nat)
    requires start < |text| && IsQuote(text[start])
    ensures end == start + 1 + OrAll(text[start + 1..], QuoteLength(text[start + 1..], text[start]))
  {
    var opener, i := text[start], start + 1;
    while i < |text|
      invariant start < i
      invariant i <= |text| ==>
                  QuoteLength(text[start + 1..], opener) == Plus(i - start - 1, QuoteLength(text[i..], opener))
      invariant i > |text| ==> QuoteLength(text[start + 1..], opener).None?
      decreases |text| - i
    {
      if text[i] == '\\' {
        if i + 1 < |text| {
          assert text[i..][2..] == text[i + 2..];
        }
        i := i + 2;
      } else if text[i] == opener {
        return i + 1;
      } else {
        assert text[i..][1..] == text[i + 1..];
        i := i + 1;
      }
    }
    return |text|;
  }

  /** The container case: a stack of the closers still expected. */
  method StackEnd(text: string, start: nat) returns (end: nat)
    requires start < |text| && IsOpener(text[start])
    ensures end == start + OrAll(text[start..], StackLength(text[start..], [], None))
  {
    var expected: seq<char>, quote: Option<char>, i := [], None, start;
    while i < |text|
      invariant start <= i && (i == start <==> expected == []) && (i == start ==> quote.None?)
      invariant i <= |text| ==>
                  StackLength(text[start..], [], None) == Plus(i - start, StackLength(text[i..], expected, quote))
      invariant i > |text| ==> StackLength(text[start..], [], None).None?
      decreases |text| - i
    {
      var c := text[i];
      assert text[i..][0] == c && text[i..][1..] == text[i + 1..];
      if quote.Some? {
        if c == '\\' {
          if i + 1 < |text| {
            assert text[i..][2..] == text[i + 2..];
          }
          i := i + 2;
          continue;
        }
        if c == quote.value {
          quote := None;
        }
      } else if IsQuote(c) {
        quote := Some(c);
      } else if IsOpener(c) {
        expected := expected + [CloserOf(c)];
      } else if IsCloser(c) {
        if c != expected[|expected| - 1] {
          return |text|;
        }
        expected := expected[..|expected| - 1];
        if expected == [] {
          return i + 1;
        }
      }
      i := i + 1;
    }
    return |text|;
  }

  /** A Python literal's prefix letters, at most two. */
  method PrefixAt(text: string, start: nat) returns (prefix: nat)
    requires start < |text|
    ensures prefix == PrefixLength(text[start..])
  {
    prefix := 0;
    while prefix < 2 && start + prefix < |text| && text[start + prefix] in REPR_PREFIXES
      invariant prefix <= 2 && start + prefix <= |text|
      invariant prefix > 0 ==> text[start] in REPR_PREFIXES
      invariant prefix > 1 ==> text[start + 1] in REPR_PREFIXES
    {
      prefix := prefix + 1;
    }
    var t := text[start..];
    assert t[0] == text[start] && (|t| > 1 ==> t[1] == text[start + 1]);
  }

  /** A bare value runs to the next character in `stop`. */
  method BareEnd(text: string, start: nat, stop: string) returns (end: nat)
    requires start < |text|
    ensures end == start + BareLength(text[start..], stop)
  {
    end := start;
    while end < |text| && text[end] !in stop
      invariant start <= end <= |text|
      invariant BareLength(text[start..], stop) == end - start + BareLength(text[end..], stop)
    {
      assert text[end..][1..] == text[end + 1..];
      end := end + 1;
    }
  }

  /** `_value_end`. */
  method ValueEnd(text: string, start: nat, toEndOfLine: bool) returns (end: nat)
    ensures start >= |text| ==> end == start
    ensures start < |text| ==> end == start + ValueLength(text[start..], toEndOfLine)
  {
    if start >= |text| {
      return start;
    }
    var prefix := PrefixAt(text, start);
    if prefix > 0 && start + prefix < |text| && IsQuote(text[start + prefix]) {
      end := QuoteEnd(text, start + prefix);
      assert text[start..][prefix + 1..] == text[start + prefix + 1..];
      return;
    }
    if IsQuote(text[start]) {
      end := QuoteEnd(text, start);
      assert text[start..][1..] == text[start + 1..];
      return;
    }
    if IsOpener(text[start]) {
      end := StackEnd(text, start);
      return;
    }
    end := BareEnd(text, start, if toEndOfLine then LINE_TERMINATORS else BARE_TERMINATORS);
  }

  /** `_container_end`: a counter where `_value_end` keeps a stack. */
  method ContainerEnd(text: string, start: nat) returns (end: nat)
    requires start < |text| && IsOpener(text[start])
    ensures end == start + OrAll(text[start..], DepthLength(text[start..], 0, None))
  {
    var depth, quote: Option<char>, i := 0, None, start;
    while i < |text|
      invariant start <= i && depth >= 0 && (i == start <==> depth == 0) && (i == start ==> quote.None?)
      invariant i <= |text| ==>
                  DepthLength(text[start..], 0, None) == Plus(i - start, DepthLength(text[i..], depth, quote))
      invariant i > |text| ==> DepthLength(text[start..], 0, None).None?
      decreases |text| - i
    {
      var c := text[i];
      assert text[i..][0] == c && text[i..][1..] == text[i + 1..];
      if quote.Some? {
        if c == '\\' {
          if i + 1 < |text| {
            assert text[i..][2..] == text[i + 2..];
          }
          i := i + 1;
        } else if c == quote.value {
          quote := None;
        }
      } else if IsQuote(c) {
        quote := Some(c);
      } else if IsOpener(c) {
        depth := depth + 1;
      } else if IsCloser(c) {
        depth := depth - 1;
        if depth == 0 {
          return i + 1;
        }
      }
      i := i + 1;
    }
    return |text|;
  }
}
