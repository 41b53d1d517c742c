/**
 * `sde-output-parser/lib.rs`: the line-driven reader of an SDE `-omix` report. Before the
 * start marker every line is ignored; afterwards each section header flushes the section
 * being accumulated and opens the next one, and value lines set one counter of the current
 * section. The last section is flushed once more at end of input.
 */
module SdeParser {
  import opened Common
  import opened Text

  /** `Count`: the six counters SDE reports per function. */
  datatype Count = Count(total: nat, memRead: nat, memWrite: nat, stackRead: nat, stackWrite: nat, call: nat)

  /** `Count::default()`. */
  const ZeroCount: Count := Count(0, 0, 0, 0, 0, 0)

  /** The line that switches the parser on (its trailing space is part of it). */
  const START_MARKER: string := "#GLOBAL_FUNCTION TOTALS "
  /** The header of the whole-program section. */
  const GLOBAL_HEADER: string := "# $global-dynamic-counts"
  /** The prefix of a per-function header. */
  const FUNCTION_PREFIX: string := "# $dynamic-counts-for-function: "

  /**
   * The value-line prefixes, tried in this order. Index `f` sets counter `f` in the order
   * total, stack_read, stack_write, mem_read, mem_write, call.
   */
  const VALUE_PREFIXES: seq<string> := ["*total", "*stack-read ", "*stack-write ", "*mem-read ", "*mem-write ", "*category-CALL"]

  /** Counter `f` of `c`, in the order of `VALUE_PREFIXES`. */
  function Field(c: Count, f: nat): nat
    requires f < 6
  {
    match f
    case 0 => c.total
    case 1 => c.stackRead
    case 2 => c.stackWrite
    case 3 => c.memRead
    case 4 => c.memWrite
    case _ => c.call
  }

  /** `c` with counter `f` set to `v`. */
  function SetField(c: Count, f: nat, v: nat): (r: Count)
    requires f < 6
    ensures Field(r, f) == v
    ensures forall g :: 0 <= g < 6 && g != f ==> Field(r, g) == Field(c, g)
  {
    match f
    case 0 => c.(total := v)
    case 1 => c.(stackRead := v)
    case 2 => c.(stackWrite := v)
    case 3 => c.(memRead := v)
    case 4 => c.(memWrite := v)
    case _ => c.(call := v)
  }

  /** Two counts agreeing on all six counters are the same count. */
  lemma FieldsDetermineCount(a: Count, b: Count)
    requires forall g :: 0 <= g < 6 ==> Field(a, g) == Field(b, g)
    ensures a == b
  {
    assert Field(a, 0) == Field(b, 0) && Field(a, 1) == Field(b, 1) && Field(a, 2) == Field(b, 2);
    assert Field(a, 3) == Field(b, 3) && Field(a, 4) == Field(b, 4) && Field(a, 5) == Field(b, 5);
  }

  /** The index of the first value prefix `line` starts with, or 6 when there is none. */
  function FieldOf(line: string): (f: nat)
    ensures f <= 6
    ensures f < 6 ==> StartsWith(line, VALUE_PREFIXES[f])
    ensures forall g :: 0 <= g < f && g < 6 ==> !StartsWith(line, VALUE_PREFIXES[g])
  {
    if StartsWith(line, VALUE_PREFIXES[0]) then 0
    else if StartsWith(line, VALUE_PREFIXES[1]) then 1
    else if StartsWith(line, VALUE_PREFIXES[2]) then 2
    else if StartsWith(line, VALUE_PREFIXES[3]) then 3
    else if StartsWith(line, VALUE_PREFIXES[4]) then 4
    else if StartsWith(line, VALUE_PREFIXES[5]) then 5
    else 6
  }

  /** `rest.trim_start().parse::<u32>()`, a failure standing for the `unwrap` panic. */
  function Number(rest: string): (r: Result<nat, string>)
    ensures r.Success? <==> ParseUnsigned(TrimStart(rest), U32_MAX).Some?
    ensures r.Success? ==> r.value == ParseUnsigned(TrimStart(rest), U32_MAX).value
  {
    match ParseUnsigned(TrimStart(rest), U32_MAX)
    case None => Failure("invalid digit found in string")
    case Some(v) => Success(v)
  }

  /**
   * A non-header line: a value line sets its one counter to the number after the prefix,
   * any other line leaves the count alone.
   */
  function SetValue(c: Count, line: string): (r: Result<Count, string>)
    ensures FieldOf(line) == 6 ==> r == Success(c)
    ensures FieldOf(line) < 6 ==>
      var f := FieldOf(line);
      var n := Number(line[|VALUE_PREFIXES[f]|..]);
      (r.Success? <==> n.Success?) &&
      (r.Success? ==>
        Field(r.value, f) == n.value &&
        forall g :: 0 <= g < 6 && g != f ==> Field(r.value, g) == Field(c, g))
  {
    var f := FieldOf(line);
    if f == 6 then Success(c)
    else
      match Number(line[|VALUE_PREFIXES[f]|..])
      case Failure(e) => Failure(e)
      case Success(v) => Success(SetField(c, f, v))
  }

  /** A later value line for the same counter overwrites an earlier one. */
  lemma LaterValueWins(c: Count, first: string, second: string)
    requires FieldOf(first) < 6 && FieldOf(first) == FieldOf(second)
    requires SetValue(c, first).Success?
    ensures SetValue(SetValue(c, first).value, second) == SetValue(c, second)
  {
    var f := FieldOf(first);
    match SetValue(c, second)
    case Failure(_) =>
    case Success(want) =>
      var got := SetValue(SetValue(c, first).value, second).value;
      FieldsDetermineCount(got, want);
  }

  /**
   * The section a header line opens: `global` for the whole-program header, the text up to
   * the first space for a function header (a failure when there is no space), `None` for
   * every other line.
   */
  function HeaderName(line: string): (r: Result<Option<string>, string>)
    ensures line == GLOBAL_HEADER ==> r == Success(Some("global"))
    ensures line != GLOBAL_HEADER && !StartsWith(line, FUNCTION_PREFIX) ==> r == Success(None)
    ensures line != GLOBAL_HEADER && StartsWith(line, FUNCTION_PREFIX) ==>
      var rest := line[|FUNCTION_PREFIX|..];
      (r.Success? <==> ' ' in rest) &&
      (r.Success? ==> r.value.Some? && ' ' !in r.value.value && StartsWith(rest, r.value.value + " "))
  {
    if line == GLOBAL_HEADER then Success(Some("global"))
    else
      match StripPrefix(line, FUNCTION_PREFIX)
      case None => Success(None)
      case Some(rest) =>
        match SplitOnce(rest, ' ')
        case None => Failure("called `Option::unwrap()` on a `None` value")
        case Some((name, _)) =>
          assert rest[..|name| + 1] == name + " ";
          Success(Some(name))
  }

  /** Undoes SDE's escaping of angle brackets: `$LT$` first, then `$GT$`. */
  function Unescape(name: string): string {
    Replace(Replace(name, "$LT$", "<"), "$GT$", ">")
  }

  /** The names the internals filter drops. */
  predicate IsInternal(section: string) {
    Contains(section, "alloc") || Contains(section, "std") || Contains(section, "core")
  }

  /** Whether a header keeps the section it flushes: named, and not internal when the filter is on. */
  predicate Kept(section: string, skipRustInternals: bool) {
    section != "" && !(skipRustInternals && IsInternal(section))
  }

  /** The parser's variables between two lines. */
  datatype ParserState = ParserState(start: bool, section: string, count: Count, parts: seq<(string, Count)>)

  const Initial: ParserState := ParserState(false, "", ZeroCount, [])

  /** The effect of one line. */
  function Step(st: ParserState, line: string, skipRustInternals: bool): (r: Result<ParserState, string>) {
    var start := st.start || line == START_MARKER;
    if !start then Success(st)
    else
      match HeaderName(line)
      case Failure(e) => Failure(e)
      case Success(None) =>
        (match SetValue(st.count, line)
         case Failure(e) => Failure(e)
         case Success(c) => Success(st.(start := true, count := c)))
      case Success(Some(name)) =>
        var parts := if Kept(st.section, skipRustInternals) then st.parts + [(st.section, st.count)] else st.parts;
        Success(ParserState(true, Unescape(name), ZeroCount, parts))
  }

  /** The state after feeding `lines` one by one, or the first failure. */
  function Run(st: ParserState, lines: seq<string>, skipRustInternals: bool): Result<ParserState, string>
    decreases |lines|
  {
    if |lines| == 0 then Success(st)
    else
      match Step(st, lines[0], skipRustInternals)
      case Failure(e) => Failure(e)
      case Success(next) => Run(next, lines[1..], skipRustInternals)
  }

  /** The end-of-input flush: the last section is emitted when it has a name, whatever the filter says. */
  function Finish(st: ParserState): seq<(string, Count)> {
    if st.section != "" then st.parts + [(st.section, st.count)] else st.parts
  }

  /** The result of `parse` on the report's lines. */
  function ParseSpec(lines: seq<string>, skipRustInternals: bool): Result<seq<(string, Count)>, string> {
    match Run(Initial, lines, skipRustInternals)
    case Failure(e) => Failure(e)
    case Success(st) => Success(Finish(st))
  }

  /** `parse`: the loop over the lines with its mutable `start`, `section`, `count` and `parts`. */
  method Parse(lines: seq<string>, skipRustInternals: bool) returns (r: Result<seq<(string, Count)>, string>)
    ensures r == ParseSpec(lines, skipRustInternals)
  {
    var section: string := "";
    var count := ZeroCount;
    var parts: seq<(string, Count)> := [];
    var start := false;
    var i := 0;
    while i < |lines|
      invariant i <= |lines|
      invariant Run(ParserState(start, section, count, parts), lines[i..], skipRustInternals)
             == Run(Initial, lines, skipRustInternals)
    {
      var line := lines[i];
      assert lines[i..][1..] == lines[i + 1..];
      if line == START_MARKER {
        start := true;
      }
      if !start {
        i := i + 1;
        continue;
      }
      var name := HeaderName(line);
      if name.Failure? {
        return Failure(name.error);
      }
      if name.value.Some? {
        var skip := if skipRustInternals then IsInternal(section) else false;
        skip := skip || section == "";
        var taken := count;
        count := ZeroCount;
        if !skip {
          parts := parts + [(section, taken)];
        }
        section := Unescape(name.value.value);
      } else {
        var updated := SetValue(count, line);
        if updated.Failure? {
          return Failure(updated.error);
        }
        count := updated.value;
      }
      i := i + 1;
    }
    if section != "" {
      parts := parts + [(section, count)];
    }
    return Success(parts);
  }

  // ---------------------------------------------------------------------------
  // Properties

  /** Before the start marker a line changes nothing at all. */
  lemma StepBeforeStart(st: ParserState, line: string, skipRustInternals: bool)
    requires !st.start && line != START_MARKER
    ensures Step(st, line, skipRustInternals) == Success(st)
  {
  }

  /** Lines before the first start marker have no effect on the result. */
  lemma {:induction false} PrefixIgnored(prefix: seq<string>, rest: seq<string>, skipRustInternals: bool)
    requires START_MARKER !in prefix
    ensures ParseSpec(prefix + rest, skipRustInternals) == ParseSpec(rest, skipRustInternals)
  {
    RunPrefixIgnored(prefix, rest, skipRustInternals);
  }

  lemma {:induction false} RunPrefixIgnored(prefix: seq<string>, rest: seq<string>, skipRustInternals: bool)
    requires START_MARKER !in prefix
    ensures Run(Initial, prefix + rest, skipRustInternals) == Run(Initial, rest, skipRustInternals)
    decreases |prefix|
  {
    if |prefix| > 0 {
      assert (prefix + rest)[0] == prefix[0];
      assert (prefix + rest)[1..] == prefix[1..] + rest;
      StepBeforeStart(Initial, prefix[0], skipRustInternals);
      assert Run(Initial, prefix + rest, skipRustInternals) == Run(Initial, prefix[1..] + rest, skipRustInternals);
      RunPrefixIgnored(prefix[1..], rest, skipRustInternals);
    } else {
      assert prefix + rest == rest;
    }
  }

  /** A report without the start marker yields no entries. */
  lemma {:induction false} NoMarkerNoEntries(lines: seq<string>, skipRustInternals: bool)
    requires START_MARKER !in lines
    ensures ParseSpec(lines, skipRustInternals) == Success([])
  {
    RunPrefixIgnored(lines, [], skipRustInternals);
    assert lines + [] == lines;
  }

  /**
   * A header, once started, flushes the section being accumulated (kept unless it is unnamed or
   * filtered out), resets the counts to zero either way, and names the next section.
   */
  lemma StepHeader(st: ParserState, line: string, skipRustInternals: bool, name: string)
    requires st.start
    requires HeaderName(line) == Success(Some(name))
    ensures Step(st, line, skipRustInternals).Success?
    ensures var next := Step(st, line, skipRustInternals).value;
      && next.count == ZeroCount
      && next.section == Unescape(name)
      && (Kept(st.section, skipRustInternals) ==> next.parts == st.parts + [(st.section, st.count)])
      && (!Kept(st.section, skipRustInternals) ==> next.parts == st.parts)
  {
  }

  /** Once started, a non-header line only touches the count, through `SetValue`. */
  lemma StepValue(st: ParserState, line: string, skipRustInternals: bool)
    requires st.start
    requires HeaderName(line) == Success(None)
    ensures Step(st, line, skipRustInternals).Success? <==> SetValue(st.count, line).Success?
    ensures Step(st, line, skipRustInternals).Success? ==>
      Step(st, line, skipRustInternals).value == st.(count := SetValue(st.count, line).value)
  {
  }

  /** Entries are only ever appended, so the output follows the order of the headers in the input. */
  lemma {:induction false} RunAppendsOnly(st: ParserState, lines: seq<string>, skipRustInternals: bool)
    requires Run(st, lines, skipRustInternals).Success?
    ensures st.parts <= Run(st, lines, skipRustInternals).value.parts
    decreases |lines|
  {
    if |lines| > 0 {
      var next := Step(st, lines[0], skipRustInternals).value;
      RunAppendsOnly(next, lines[1..], skipRustInternals);
    }
  }

  /** Every entry a header emits is named and, under the filter, not internal. */
  predicate AllKept(parts: seq<(string, Count)>, skipRustInternals: bool) {
    forall j :: 0 <= j < |parts| ==> Kept(parts[j].0, skipRustInternals)
  }

  lemma {:induction false} RunKeepsKept(st: ParserState, lines: seq<string>, skipRustInternals: bool)
    requires AllKept(st.parts, skipRustInternals)
    requires Run(st, lines, skipRustInternals).Success?
    ensures AllKept(Run(st, lines, skipRustInternals).value.parts, skipRustInternals)
    decreases |lines|
  {
    if |lines| > 0 {
      var next := Step(st, lines[0], skipRustInternals).value;
      RunKeepsKept(next, lines[1..], skipRustInternals);
    }
  }

  /**
   * Every emitted entry has a non-empty name; with the filter on, every entry but the last is
   * free of "alloc", "std" and "core" (the end-of-input flush does not filter).
   */
  lemma ParsedEntriesNamed(lines: seq<string>, skipRustInternals: bool)
    requires ParseSpec(lines, skipRustInternals).Success?
    ensures var out := ParseSpec(lines, skipRustInternals).value;
      && (forall j :: 0 <= j < |out| ==> out[j].0 != "")
      && (skipRustInternals ==> forall j :: 0 <= j < |out| - 1 ==> !IsInternal(out[j].0))
  {
    RunKeepsKept(Initial, lines, skipRustInternals);
  }

  /** Counts that arrive before the first header belong to the unnamed section and are never emitted. */
  lemma CountsBeforeFirstHeaderDropped(st: ParserState, line: string, skipRustInternals: bool, name: string)
    requires st.start && st.section == ""
    requires HeaderName(line) == Success(Some(name))
    ensures Step(st, line, skipRustInternals) == Success(ParserState(true, Unescape(name), ZeroCount, st.parts))
  {
  }

  /** A function header without a space after the name is a failure. */
  lemma HeaderWithoutSpaceFails()
    ensures ParseSpec([START_MARKER, FUNCTION_PREFIX + "main"], false).Failure?
  {
    assert Run(Initial, [START_MARKER, FUNCTION_PREFIX + "main"], false).Failure? by {
      var line := FUNCTION_PREFIX + "main";
      assert StripPrefix(line, FUNCTION_PREFIX) == Some("main");
      assert ' ' !in "main";
    }
  }

  /** How the compiler spells a name in the report: `<` as `$LT$`, `>` as `$GT$`. */
  function Escape(s: string): string {
    if |s| == 0 then ""
    else (if s[0] == '<' then "$LT$" else if s[0] == '>' then "$GT$" else [s[0]]) + Escape(s[1..])
  }

  /** `s` with only `>` escaped: what remains after the first of the two replacements. */
  function EscapeGreater(s: string): string {
    if |s| == 0 then "" else (if s[0] == '>' then "$GT$" else [s[0]]) + EscapeGreater(s[1..])
  }

  /**
   * The names the two left-to-right replacements restore exactly: no `$` of their own, and no
   * `L` right after a `>` (otherwise the `$` closing `$GT$` would start a spurious `$LT$`).
   */
  predicate Unambiguous(s: string) {
    '$' !in s && forall i :: 0 <= i < |s| - 1 && s[i] == '>' ==> s[i + 1] != 'L'
  }

  lemma {:induction false} ReplaceLessOfEscape(s: string)
    requires Unambiguous(s)
    ensures Replace(Escape(s), "$LT$", "<") == EscapeGreater(s)
    decreases |s|
  {
    if |s| > 0 {
      var tail := Escape(s[1..]);
      assert Unambiguous(s[1..]) by {
        forall i | 0 <= i < |s[1..]| - 1 && s[1..][i] == '>'
          ensures s[1..][i + 1] != 'L'
        {
          assert s[i + 1] == '>';
        }
      }
      ReplaceLessOfEscape(s[1..]);
      if s[0] == '<' {
        ReplaceAtStart(tail, "$LT$", "<");
      } else if s[0] == '>' {
        assert |s| > 1 ==> s[1] != 'L';
        assert |s| > 1 ==> tail[0] == (if s[1] == '<' || s[1] == '>' then '$' else s[1]);
        ReplaceLessAfterGreater(tail);
      } else {
        assert s[0] != '$';
        ReplaceFreePrefix([s[0]], tail, "$LT$", "<");
      }
    }
  }

  /** The `$GT$` of a `>` survives the first replacement when what follows does not start with `LT$`. */
  lemma ReplaceLessAfterGreater(tail: string)
    requires |tail| == 0 || tail[0] != 'L'
    ensures Replace("$GT$" + tail, "$LT$", "<") == "$GT$" + Replace(tail, "$LT$", "<")
  {
    var e, pattern := "$GT$", "$LT$";
    assert e[0] == '$' && e[1] == 'G' && e[2] == 'T' && e[3] == '$';
    assert pattern[0] == '$' && pattern[1] == 'L';
    ReplaceAfterClosing(e, tail, pattern, "<");
  }

  /**
   * Scanning a four-character escape whose second character differs from the pattern's and whose
   * only pattern-initial characters are its ends.
   */
  lemma ReplaceAfterClosing(e: string, tail: string, pattern: string, replacement: string)
    requires |e| == 4 && |pattern| == 4 && e[0] == e[3] == pattern[0] && e[1] != pattern[1]
    requires e[1] != pattern[0] && e[2] != pattern[0]
    requires |tail| == 0 || tail[0] != pattern[1]
    ensures Replace(e + tail, pattern, replacement) == e + Replace(tail, pattern, replacement)
  {
    var s := e + tail;
    var t := [e[3]] + tail;
    var middle := e[1..3];
    var rest := Replace(tail, pattern, replacement);
    assert !StartsWith(t, pattern) by { if |t| >= 4 { assert t[..4][1] == tail[0]; } }
    ReplaceSkipOne(t, pattern, replacement);
    assert t[1..] == tail;
    assert Replace(t, pattern, replacement) == [e[3]] + rest;
    ReplaceFreePrefix(middle, t, pattern, replacement);
    assert s[1..] == middle + t;
    assert !StartsWith(s, pattern) by { assert |s| >= 4 ==> s[..4][1] == e[1]; }
    ReplaceSkipOne(s, pattern, replacement);
    assert Replace(s, pattern, replacement) == [e[0]] + (middle + ([e[3]] + rest));
    assert [e[0]] + (middle + ([e[3]] + rest)) == e + rest;
  }

  lemma {:induction false} ReplaceGreaterOfEscape(s: string)
    requires '$' !in s
    ensures Replace(EscapeGreater(s), "$GT$", ">") == s
    decreases |s|
  {
    if |s| > 0 {
      var tail := EscapeGreater(s[1..]);
      ReplaceGreaterOfEscape(s[1..]);
      if s[0] == '>' {
        ReplaceAtStart(tail, "$GT$", ">");
      } else {
        assert s[0] != '$';
        ReplaceFreePrefix([s[0]], tail, "$GT$", ">");
      }
      assert s == [s[0]] + s[1..];
    }
  }

  /** A header name written with the compiler's escaping is restored to the original name. */
  lemma UnescapeEscape(s: string)
    requires Unambiguous(s)
    ensures Unescape(Escape(s)) == s
  {
    ReplaceLessOfEscape(s);
    ReplaceGreaterOfEscape(s);
  }

  /** A line starting with neither `#` nor `*` is neither a header nor a value line. */
  lemma NotValueLine(line: string)
    requires |line| > 0 && line[0] != '*'
    ensures FieldOf(line) == 6
  {
    forall f | 0 <= f < 6
      ensures !StartsWith(line, VALUE_PREFIXES[f])
    {
      FirstCharDiffers(line, VALUE_PREFIXES[f]);
    }
  }

  /** Before the first header the start marker itself is an ordinary line. */
  lemma StartMarkerStep(skipRustInternals: bool)
    ensures Step(Initial, START_MARKER, skipRustInternals) == Success(Initial.(start := true))
  {
    assert |START_MARKER| < |FUNCTION_PREFIX|;
    NotValueLine(START_MARKER);
  }

  /** The header of function `name`, followed by a space and the rest of SDE's header text. */
  lemma FunctionHeaderName(name: string, more: string)
    requires ' ' !in name
    ensures HeaderName(FUNCTION_PREFIX + name + " " + more) == Success(Some(name))
  {
    var line := FUNCTION_PREFIX + name + " " + more;
    assert line != GLOBAL_HEADER by {
      assert line[3] != GLOBAL_HEADER[3];
    }
    assert StartsWith(line, FUNCTION_PREFIX) by {
      assert line[..|FUNCTION_PREFIX|] == FUNCTION_PREFIX;
    }
    assert line[|FUNCTION_PREFIX|..] == name + [' '] + more;
    SplitOnceAt(name, ' ', more);
  }

  /**
   * The end-of-input flush does not filter: a report whose only section is an internal function
   * still yields that section with the filter on.
   */
  lemma FinalFlushUnfiltered(name: string, more: string, skipRustInternals: bool)
    requires name != "" && ' ' !in name && '$' !in name
    ensures ParseSpec([START_MARKER, FUNCTION_PREFIX + name + " " + more], skipRustInternals)
         == Success([(name, ZeroCount)])
  {
    var lines := [START_MARKER, FUNCTION_PREFIX + name + " " + more];
    StartMarkerStep(skipRustInternals);
    FunctionHeaderName(name, more);
    NotContainsFirst(name, "$LT$");
    NotContainsFirst(name, "$GT$");
    var st := ParserState(true, name, ZeroCount, []);
    assert Step(Initial.(start := true), lines[1], skipRustInternals) == Success(st);
    assert lines[1..][1..] == [];
    assert Run(Initial, lines, skipRustInternals) == Run(st, [], skipRustInternals) == Success(st);
    assert Finish(st) == [(name, ZeroCount)];
  }

  /** `std` is such a name: the filter would drop it at any later header. */
  lemma StdIsInternal()
    ensures IsInternal("std") && !Kept("std", true) && Kept("std", false)
  {
    assert StartsWith("std", "std");
  }
}
