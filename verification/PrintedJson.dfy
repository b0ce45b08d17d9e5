/**
 JSON as it is printed (RFC 8259, sections 2 to 7), and where the scanners of `ValueScanner` find
 its end.
 */
module PrintedJson {
  import opened Basics
  import opened ValueScanner

  /** A character of a string: as it is, or behind a backslash (`\u` is followed by four plain
      characters). */
  datatype Char = Plain(c: char) | Escaped(c: char)

  /** Every value carries the whitespace it was printed with. */
  datatype Json =
    | Text(chars: seq<Char>)
    | Atom(text: string)
    | Array(pad: string, elements: Elements)
    | Object(pad: string, members: Members)

  datatype Elements = NoElements | Element(value: Json, after: string, before: string, rest: Elements)

  datatype Members =
    | NoMembers
    | Member(name: seq<Char>, beforeColon: string, afterColon: string, value: Json, after: string, before: string, rest: Members)

  // ---------------------------------------------------------------- printing

  function PrintChar(x: Char): string {
    match x
    case Plain(c) => [c]
    case Escaped(c) => ['\\', c]
  }

  function PrintChars(chars: seq<Char>): string {
    if chars == [] then ""
    else PrintChar(chars[0]) + PrintChars(chars[1..])
  }

  function PrintText(chars: seq<Char>): string {
    "\"" + PrintChars(chars) + "\""
  }

  function Print(j: Json): string {
    match j
    case Text(chars) => PrintText(chars)
    case Atom(text) => text
    case Array(pad, elements) => "[" + pad + PrintElements(elements) + "]"
    case Object(pad, members) => "{" + pad + PrintMembers(members) + "}"
  }

  function PrintElements(e: Elements): string {
    match e
    case NoElements => ""
    case Element(value, after, before, rest) =>
      Print(value) + after + (if rest.NoElements? then "" else "," + before) + PrintElements(rest)
  }

  function PrintMembers(m: Members): string {
    match m
    case NoMembers => ""
    case Member(name, beforeColon, afterColon, value, after, before, rest) =>
      PrintText(name) + beforeColon + ":" + afterColon + Print(value) + after +
      (if rest.NoMembers? then "" else "," + before) + PrintMembers(rest)
  }

  // ---------------------------------------------------------------- what the grammar allows

  predicate IsWhitespace(s: string) {
    forall c :: c in s ==> c == ' ' || c == '\t' || c == '\r' || c == '\n'
  }

  predicate Legal(chars: seq<Char>) {
    forall x :: x in chars && x.Plain? ==> x.c != '"' && x.c != '\\' && x.c >= ' '
  }

  /** The characters of numbers, `true`, `false` and `null`. */
  predicate IsAtom(s: string) {
    s != "" && forall c :: c in s ==> '0' <= c <= '9' || 'a' <= c <= 'z' || c == 'E' || c == '+' || c == '-' || c == '.'
  }

  predicate WellFormed(j: Json) {
    match j
    case Text(chars) => Legal(chars)
    case Atom(text) => IsAtom(text)
    case Array(pad, elements) => IsWhitespace(pad) && ElementsWellFormed(elements)
    case Object(pad, members) => IsWhitespace(pad) && MembersWellFormed(members)
  }

  predicate ElementsWellFormed(e: Elements) {
    match e
    case NoElements => true
    case Element(value, after, before, rest) =>
      WellFormed(value) && IsWhitespace(after) && IsWhitespace(before) && ElementsWellFormed(rest)
  }

  predicate MembersWellFormed(m: Members) {
    match m
    case NoMembers => true
    case Member(name, beforeColon, afterColon, value, after, before, rest) =>
      Legal(name) && IsWhitespace(beforeColon) && IsWhitespace(afterColon) && WellFormed(value) &&
      IsWhitespace(after) && IsWhitespace(before) && MembersWellFormed(rest)
  }

  // ---------------------------------------------------------------- passing over a value

  /** Characters no scanner stops at. */
  predicate Inert(s: string) {
    forall c :: c in s ==> !IsQuote(c) && !IsOpener(c) && !IsCloser(c)
  }

  lemma {:induction false} PassInert(p: string, u: string, stack: seq<char>)
    requires Inert(p)
    ensures StackLength(p + u, stack, None) == Plus(|p|, StackLength(u, stack, None))
    decreases |p|
  {
    if p == "" {
      assert p + u == u;
    } else {
      assert (p + u)[1..] == p[1..] + u && p[0] in p;
      PassInert(p[1..], u, stack);
    }
  }

  lemma PassPlain(c: char, later: string, stack: seq<char>)
    requires c != '"' && c != '\\'
    ensures StackLength([c] + later, stack, Some('"')) == Plus(1, StackLength(later, stack, Some('"')))
    ensures QuoteLength([c] + later, '"') == Plus(1, QuoteLength(later, '"'))
  {
    assert ([c] + later)[1..] == later;
  }

  lemma PassEscaped(c: char, later: string, stack: seq<char>)
    ensures StackLength(['\\', c] + later, stack, Some('"')) == Plus(2, StackLength(later, stack, Some('"')))
    ensures QuoteLength(['\\', c] + later, '"') == Plus(2, QuoteLength(later, '"'))
  {
    assert (['\\', c] + later)[2..] == later;
  }

  lemma PassQuote(u: string, stack: seq<char>)
    ensures StackLength("\"" + u, stack, Some('"')) == Plus(1, StackLength(u, stack, None))
    ensures QuoteLength("\"" + u, '"') == Some(1)
  {
    assert ("\"" + u)[1..] == u;
  }

  lemma PrintsFirst(chars: seq<Char>)
    requires chars != []
    ensures PrintChars(chars) == PrintChar(chars[0]) + PrintChars(chars[1..])
  {
  }

  lemma FirstChar(chars: seq<Char>, u: string)
    requires chars != []
    ensures PrintChars(chars) + "\"" + u == PrintChar(chars[0]) + (PrintChars(chars[1..]) + "\"" + u)
    ensures |PrintChars(chars)| == |PrintChar(chars[0])| + |PrintChars(chars[1..])|
  {
    PrintsFirst(chars);
    Join(PrintChar(chars[0]), PrintChars(chars[1..]), "\"", u);
  }

  lemma Join(a: string, b: string, c: string, d: string)
    ensures (a + b) + c + d == a + (b + c + d)
  {
  }

  lemma LegalRest(chars: seq<Char>)
    requires Legal(chars) && chars != []
    ensures Legal(chars[1..]) && (chars[0].Plain? ==> chars[0].c != '"' && chars[0].c != '\\')
  {
    assert chars[0] in chars && forall x :: x in chars[1..] ==> x in chars;
  }

  lemma PassChar(x: Char, later: string, stack: seq<char>)
    requires x.Plain? ==> x.c != '"' && x.c != '\\'
    ensures StackLength(PrintChar(x) + later, stack, Some('"')) ==
            Plus(|PrintChar(x)|, StackLength(later, stack, Some('"')))
    ensures QuoteLength(PrintChar(x) + later, '"') == Plus(|PrintChar(x)|, QuoteLength(later, '"'))
  {
    match x
    case Plain(c) => PassPlain(c, later, stack);
    case Escaped(c) => PassEscaped(c, later, stack);
  }

  /** A string's characters and its closing quote, for either scanner. */
  lemma {:induction false} PassChars(chars: seq<Char>, u: string, stack: seq<char>)
    requires Legal(chars)
    ensures StackLength(PrintChars(chars) + "\"" + u, stack, Some('"')) ==
            Plus(|PrintChars(chars)| + 1, StackLength(u, stack, None))
    ensures QuoteLength(PrintChars(chars) + "\"" + u, '"') == Some(|PrintChars(chars)| + 1)
    decreases |chars|
  {
    if chars == [] {
      assert PrintChars(chars) + "\"" + u == "\"" + u;
      PassQuote(u, stack);
    } else {
      FirstChar(chars, u);
      LegalRest(chars);
      PassChars(chars[1..], u, stack);
      PassChar(chars[0], PrintChars(chars[1..]) + "\"" + u, stack);
    }
  }

  lemma PassText(chars: seq<Char>, u: string, stack: seq<char>)
    requires Legal(chars)
    ensures StackLength(PrintText(chars) + u, stack, None) == Plus(|PrintText(chars)|, StackLength(u, stack, None))
  {
    var t := PrintText(chars) + u;
    assert t[1..] == PrintChars(chars) + "\"" + u;
    PassChars(chars, u, stack);
  }

  /** A scan inside some container takes `s`, and goes on with `u` as if nothing had been. */
  ghost predicate Passes(s: string, u: string, stack: seq<char>) {
    StackLength(s + u, stack, None) == Plus(|s|, StackLength(u, stack, None))
  }

  lemma Regroup(a: string, b: string, c: string)
    ensures (a + b) + c == a + (b + c)
  {
  }

  lemma PassBoth(a: string, b: string, u: string, stack: seq<char>)
    requires Passes(a, b + u, stack) && Passes(b, u, stack)
    ensures Passes(a + b, u, stack)
  {
    Regroup(a, b, u);
  }

  lemma InertPasses(p: string, u: string, stack: seq<char>)
    requires Inert(p)
    ensures Passes(p, u, stack)
  {
    PassInert(p, u, stack);
  }

  function Bracketed(opener: char, inner: string): string {
    [opener] + inner + [CloserOf(opener)]
  }

  lemma OpenerTaken(opener: char, rest: string, stack: seq<char>)
    requires IsOpener(opener)
    ensures StackLength([opener] + rest, stack, None) == Plus(1, StackLength(rest, stack + [CloserOf(opener)], None))
  {
    assert ([opener] + rest)[1..] == rest;
  }

  lemma CloserTaken(closer: char, u: string, stack: seq<char>)
    requires IsCloser(closer)
    ensures StackLength([closer] + u, stack + [closer], None) ==
            if stack == [] then Some(1) else Plus(1, StackLength(u, stack, None))
  {
    assert ([closer] + u)[1..] == u && (stack + [closer])[..|stack|] == stack;
  }

  /** A container whose inside passes. */
  lemma BracketsPass(opener: char, inner: string, u: string, stack: seq<char>)
    requires IsOpener(opener) && Passes(inner, [CloserOf(opener)] + u, stack + [CloserOf(opener)])
    ensures stack != [] ==> Passes(Bracketed(opener, inner), u, stack)
    ensures stack == [] ==> StackLength(Bracketed(opener, inner) + u, stack, None) == Some(|inner| + 2)
  {
    var tail := [CloserOf(opener)] + u;
    Join([opener], inner, [CloserOf(opener)], u);
    Regroup(inner, [CloserOf(opener)], u);
    OpenerTaken(opener, inner + tail, stack);
    CloserTaken(CloserOf(opener), u, stack);
  }

  lemma {:induction false} ValuePasses(j: Json, u: string, stack: seq<char>)
    requires WellFormed(j) && stack != []
    ensures Passes(Print(j), u, stack)
    decreases j, 0
  {
    match j
    case Text(chars) => PassText(chars, u, stack);
    case Atom(text) => InertPasses(text, u, stack);
    case Array(pad, elements) =>
      InsideArrayPasses(pad, elements, "]" + u, stack + [']']);
      BracketsPass('[', pad + PrintElements(elements), u, stack);
      PrintedInBrackets(j);
    case Object(pad, members) =>
      InsideObjectPasses(pad, members, "}" + u, stack + ['}']);
      BracketsPass('{', pad + PrintMembers(members), u, stack);
      PrintedInBrackets(j);
  }

  lemma PrintedInBrackets(j: Json)
    ensures j.Array? ==> Print(j) == Bracketed('[', j.pad + PrintElements(j.elements))
    ensures j.Object? ==> Print(j) == Bracketed('{', j.pad + PrintMembers(j.members))
  {
  }

  lemma {:induction false} InsideArrayPasses(pad: string, elements: Elements, u: string, stack: seq<char>)
    requires IsWhitespace(pad) && ElementsWellFormed(elements) && stack != []
    ensures Passes(pad + PrintElements(elements), u, stack)
    decreases elements, 1
  {
    ElementsPass(elements, u, stack);
    InertPasses(pad, PrintElements(elements) + u, stack);
    PassBoth(pad, PrintElements(elements), u, stack);
  }

  lemma {:induction false} InsideObjectPasses(pad: string, members: Members, u: string, stack: seq<char>)
    requires IsWhitespace(pad) && MembersWellFormed(members) && stack != []
    ensures Passes(pad + PrintMembers(members), u, stack)
    decreases members, 1
  {
    MembersPass(members, u, stack);
    InertPasses(pad, PrintMembers(members) + u, stack);
    PassBoth(pad, PrintMembers(members), u, stack);
  }

  /** A value, then characters no scanner stops at, then the rest. */
  lemma {:induction false} ValueThenPasses(value: Json, mark: string, later: string, u: string, stack: seq<char>)
    requires WellFormed(value) && Inert(mark) && stack != [] && Passes(later, u, stack)
    ensures Passes(Print(value) + mark + later, u, stack)
    decreases value, 1
  {
    InertPasses(mark, later + u, stack);
    ValuePasses(value, mark + (later + u), stack);
    Regroup(mark, later, u);
    PassBoth(mark, later, u, stack);
    PassBoth(Print(value), mark + later, u, stack);
    Regroup(Print(value), mark, later);
  }

  lemma {:induction false} ElementsPass(e: Elements, u: string, stack: seq<char>)
    requires ElementsWellFormed(e) && stack != []
    ensures Passes(PrintElements(e), u, stack)
    decreases e, 0
  {
    match e
    case NoElements => InertPasses("", u, stack);
    case Element(value, after, before, rest) =>
      var comma := if rest.NoElements? then "" else "," + before;
      ElementsPass(rest, u, stack);
      ValueThenPasses(value, after + comma, PrintElements(rest), u, stack);
      Regroup(Print(value), after, comma);
  }

  lemma {:induction false} MembersPass(m: Members, u: string, stack: seq<char>)
    requires MembersWellFormed(m) && stack != []
    ensures Passes(PrintMembers(m), u, stack)
    decreases m, 0
  {
    match m
    case NoMembers => InertPasses("", u, stack);
    case Member(name, beforeColon, afterColon, value, after, before, rest) =>
      var comma := if rest.NoMembers? then "" else "," + before;
      var later := Print(value) + (after + comma) + PrintMembers(rest);
      var colon := beforeColon + ":" + afterColon;
      MembersPass(rest, u, stack);
      ValueThenPasses(value, after + comma, PrintMembers(rest), u, stack);
      NamePasses(name, colon, later, u, stack);
      MemberText(PrintText(name), beforeColon, afterColon, Print(value), after, comma, PrintMembers(rest));
  }

  lemma NamePasses(name: seq<Char>, colon: string, later: string, u: string, stack: seq<char>)
    requires Legal(name) && Inert(colon) && Passes(later, u, stack)
    ensures Passes(PrintText(name) + (colon + later), u, stack)
  {
    InertPasses(colon, later + u, stack);
    PassBoth(colon, later, u, stack);
    PassText(name, (colon + later) + u, stack);
    PassBoth(PrintText(name), colon + later, u, stack);
  }

  lemma MemberText(name: string, a: string, b: string, value: string, after: string, comma: string, rest: string)
    ensures name + a + ":" + b + value + after + comma + rest ==
            name + ((a + ":" + b) + (value + (after + comma) + rest))
  {
  }

  // ---------------------------------------------------------------- where a value ends

  /** A scan of a printed container takes just that. */
  lemma ContainerTaken(j: Json, u: string)
    requires WellFormed(j) && (j.Array? || j.Object?)
    ensures StackLength(Print(j) + u, [], None) == Some(|Print(j)|)
    ensures IsOpener((Print(j) + u)[0])
  {
    PrintedInBrackets(j);
    match j
    case Array(pad, elements) =>
      assert [] + [']'] == [']'];
      InsideArrayPasses(pad, elements, "]" + u, [']']);
      BracketsPass('[', pad + PrintElements(elements), u, []);
    case Object(pad, members) =>
      assert [] + ['}'] == ['}'];
      InsideObjectPasses(pad, members, "}" + u, ['}']);
      BracketsPass('{', pad + PrintMembers(members), u, []);
  }

  lemma PrintIsNotEmpty(j: Json)
    requires !j.Atom?
    ensures Print(j) != ""
  {
  }

  /** A printed string, array or object ends exactly where `_value_end` says, whatever follows. */
  lemma PrintedValueEnds(j: Json, u: string, toEndOfLine: bool)
    requires WellFormed(j) && !j.Atom?
    ensures ValueLength(Print(j) + u, toEndOfLine) == |Print(j)|
  {
    if j.Text? {
      PassChars(j.chars, u, []);
      assert (Print(j) + u)[1..] == PrintChars(j.chars) + "\"" + u;
    } else {
      ContainerTaken(j, u);
    }
  }

  /** Where brackets match, counting them finds the same end. */
  lemma {:induction false} CountingAgrees(t: string, stack: seq<char>, quote: Option<char>)
    requires StackLength(t, stack, quote).Some?
    ensures DepthLength(t, |stack|, quote) == StackLength(t, stack, quote)
    decreases |t|
  {
    if quote.Some? {
      if t[0] == '\\' {
        CountingAgrees(t[2..], stack, quote);
      } else {
        CountingAgrees(t[1..], stack, if t[0] == quote.value then None else quote);
      }
    } else if IsQuote(t[0]) {
      CountingAgrees(t[1..], stack, Some(t[0]));
    } else if IsOpener(t[0]) {
      CountingAgrees(t[1..], stack + [CloserOf(t[0])], None);
    } else if IsCloser(t[0]) {
      if |stack| > 1 {
        CountingAgrees(t[1..], stack[..|stack| - 1], None);
      }
    } else {
      CountingAgrees(t[1..], stack, None);
    }
  }

  /** The two scanners agree on every printed array and object, and wherever `_value_end` finds
      an end; elsewhere it masks the rest of the text, so it never stops before the other. */
  lemma ScannersAgree(t: string)
    requires t != "" && IsOpener(t[0])
    ensures var (ended, counted) := (ValueLength(t, false), OrAll(t, DepthLength(t, 0, None)));
            && (StackLength(t, [], None).Some? ==> counted == ended)
            && (StackLength(t, [], None).None? ==> ended == |t|)
            && counted <= ended
  {
    assert t[0] !in REPR_PREFIXES;
    if StackLength(t, [], None).Some? {
      CountingAgrees(t, [], None);
    } else {
      DepthLengthFits(t, 0, None);
    }
  }

  lemma {:induction false} DepthLengthFits(t: string, depth: nat, quote: Option<char>)
    ensures DepthLength(t, depth, quote).Some? ==> DepthLength(t, depth, quote).value <= |t|
    decreases |t|
  {
    if t != "" {
      if quote.Some? {
        if t[0] == '\\' {
          if |t| > 1 {
            DepthLengthFits(t[2..], depth, quote);
          }
        } else {
          DepthLengthFits(t[1..], depth, if t[0] == quote.value then None else quote);
        }
      } else if IsQuote(t[0]) {
        DepthLengthFits(t[1..], depth, Some(t[0]));
      } else if IsOpener(t[0]) {
        DepthLengthFits(t[1..], depth + 1, None);
      } else if IsCloser(t[0]) {
        if depth > 1 {
          DepthLengthFits(t[1..], depth - 1, None);
        }
      } else {
        DepthLengthFits(t[1..], depth, None);
      }
    }
  }

  lemma PrintedContainerEnds(j: Json, u: string)
    requires WellFormed(j) && (j.Array? || j.Object?)
    ensures OrAll(Print(j) + u, DepthLength(Print(j) + u, 0, None)) == |Print(j)|
  {
    ContainerTaken(j, u);
    CountingAgrees(Print(j) + u, [], None);
  }
}
