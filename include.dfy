/**
 * Kernel-source loading with `#include` expansion (GLSLComputeProgram.load).
 *
 * The file system is a map from path to the file's lines as `readlines`
 * returns them (each line keeps its own newline). A line whose stripped
 * form starts with `#include` is replaced by the expansion of the file it
 * names; every other line is copied unchanged. The path is the string
 * literal after the directive, used exactly as written. Nothing detects
 * cycles: the only bound on the nesting is the interpreter's recursion
 * limit, modelled by `depth`.
 */
module Include {
  import opened Wrappers

  type Files = map<string, seq<string>>

  datatype LoadError =
    | FileNotFound(path: string)
    | BadIncludeArgument(argument: string)
    | RecursionLimit

  /** The characters Python's `str.strip()` removes: those for which `str.isspace()` holds. */
  predicate IsSpace(c: char)
  {
    c in {' ', '\t', '\n', '\U{000B}', '\U{000C}', '\r', '\U{001C}', '\U{001D}', '\U{001E}', '\U{001F}',
          '\U{0085}', '\U{00A0}', '\U{1680}', '\U{2000}', '\U{2001}', '\U{2002}', '\U{2003}', '\U{2004}',
          '\U{2005}', '\U{2006}', '\U{2007}', '\U{2008}', '\U{2009}', '\U{200A}', '\U{2028}', '\U{2029}',
          '\U{202F}', '\U{205F}', '\U{3000}'}
  }

  /** The number of whitespace characters that open s. */
  function LeadingSpace(s: string): (n: nat)
    ensures n <= |s|
    ensures forall i :: 0 <= i < n ==> IsSpace(s[i])
    ensures n < |s| ==> !IsSpace(s[n])
  {
    if |s| > 0 && IsSpace(s[0]) then 1 + LeadingSpace(s[1..]) else 0
  }

  /** The length of s once its closing whitespace is dropped. */
  function TrailingEnd(s: string): (n: nat)
    ensures n <= |s|
    ensures forall i :: n <= i < |s| ==> IsSpace(s[i])
    ensures n > 0 ==> !IsSpace(s[n - 1])
  {
    if |s| > 0 && IsSpace(s[|s| - 1]) then TrailingEnd(s[..|s| - 1]) else |s|
  }

  /** str.strip(): the longest slice of s that neither starts nor ends with whitespace. */
  function Strip(s: string): (r: string)
    ensures LeadingSpace(s) + |r| <= |s|
    ensures r == s[LeadingSpace(s)..LeadingSpace(s) + |r|]
    ensures |r| > 0 ==> !IsSpace(r[0]) && !IsSpace(r[|r| - 1])
    ensures forall i :: LeadingSpace(s) + |r| <= i < |s| ==> IsSpace(s[i])
  {
    var rest := s[LeadingSpace(s)..];
    rest[..TrailingEnd(rest)]
  }

  const Directive: string := "#include"

  /** A line is an include directive when its stripped form starts with `#include`. */
  predicate IsInclude(line: string)
  {
    var stripped := Strip(line);
    |stripped| >= |Directive| && stripped[..|Directive|] == Directive
  }

  /** The text the directive hands to `eval`: what follows `#include`, stripped. */
  function IncludeArgument(line: string): string
    requires IsInclude(line)
  {
    Strip(Strip(line)[|Directive|..])
  }

  /**
   * `eval` of the argument, for the one shape the kernels use: a single- or
   * double-quoted literal with no backslash, no line break and no quote of
   * its own kind inside. Anything else is reported as a bad argument.
   */
  function EvalLiteral(argument: string): (r: Result<string, LoadError>)
    ensures r.Success? <==>
      && |argument| >= 2
      && (argument[0] == '"' || argument[0] == '\'')
      && argument[|argument| - 1] == argument[0]
      && forall i :: 1 <= i < |argument| - 1 ==> PlainLiteralChar(argument[i], argument[0])
    ensures r.Success? ==> |argument| == |r.value| + 2 && argument[1..|argument| - 1] == r.value
    ensures r.Failure? ==> r.error == BadIncludeArgument(argument)
  {
    if |argument| >= 2 && (argument[0] == '"' || argument[0] == '\'') && argument[|argument| - 1] == argument[0]
       && (forall i | 1 <= i < |argument| - 1 :: PlainLiteralChar(argument[i], argument[0]))
    then Success(argument[1..|argument| - 1])
    else Failure(BadIncludeArgument(argument))
  }

  /** A character that stands for itself inside a literal opened by `quote`. */
  predicate PlainLiteralChar(c: char, quote: char)
  {
    c != '\\' && c != '\n' && c != '\r' && c != quote
  }

  /** A quoted path whose characters all stand for themselves evaluates to that path. */
  lemma PlainLiteralEvaluates(quote: char, path: string)
    requires quote == '"' || quote == '\''
    requires forall i :: 0 <= i < |path| ==> PlainLiteralChar(path[i], quote)
    ensures EvalLiteral([quote] + path + [quote]) == Success(path)
  {
    var argument := [quote] + path + [quote];
    assert argument[1..|argument| - 1] == path;
    assert forall i :: 1 <= i < |argument| - 1 ==> argument[i] == path[i - 1];
  }

  /** The path an include line names, if its argument is a plain literal. */
  function IncludePath(line: string): Result<string, LoadError>
    requires IsInclude(line)
  {
    EvalLiteral(IncludeArgument(line))
  }

  /**
   * load_lines(path) with at most `depth` nested calls left: the expanded
   * lines of the file, or the first error met in reading order.
   */
  function ExpandFile(files: Files, path: string, depth: nat): Result<seq<string>, LoadError>
    decreases depth, 0, 0
  {
    if depth == 0 then Failure(RecursionLimit)
    else if path !in files then Failure(FileNotFound(path))
    else ExpandLines(files, files[path], depth - 1)
  }

  /** The loop of load_lines over `lines`, with `depth` calls left for the files they include. */
  function ExpandLines(files: Files, lines: seq<string>, depth: nat): Result<seq<string>, LoadError>
    decreases depth, 1, |lines|
  {
    if |lines| == 0 then Success([])
    else
      var head := ExpandLine(files, lines[0], depth);
      if head.Failure? then Failure(head.error)
      else Prepend(head.value, ExpandLines(files, lines[1..], depth))
  }

  /** What one line contributes: the line itself, or the expansion of the file it includes. */
  function ExpandLine(files: Files, line: string, depth: nat): Result<seq<string>, LoadError>
    decreases depth, 0, 1
  {
    if !IsInclude(line) then Success([line])
    else
      var sub := IncludePath(line);
      if sub.Failure? then Failure(sub.error)
      else ExpandFile(files, sub.value, depth)
  }

  /** ''.join(lines). */
  function Concat(lines: seq<string>): (s: string)
    ensures |lines| > 0 ==> s == lines[0] + Concat(lines[1..])
  {
    if |lines| == 0 then "" else lines[0] + Concat(lines[1..])
  }

  /** load(path): the expanded source as one string. */
  function LoadSource(files: Files, path: string, depth: nat): Result<string, LoadError>
  {
    var lines := ExpandFile(files, path, depth);
    if lines.Failure? then Failure(lines.error) else Success(Concat(lines.value))
  }

  /**
   * load_lines as the loop it is: read the file, then append each plain
   * line to the output and extend it by the recursive expansion of each
   * include line.
   */
  method LoadLines(files: Files, path: string, depth: nat) returns (res: Result<seq<string>, LoadError>)
    ensures res == ExpandFile(files, path, depth)
    decreases depth
  {
    if depth == 0 {
      return Failure(RecursionLimit);
    }
    if path !in files {
      return Failure(FileNotFound(path));
    }
    var lines := files[path];
    var linesOut: seq<string> := [];
    var i := 0;
    assert lines[0..] == lines;
    PrependNothing(ExpandLines(files, lines, depth - 1));
    while i < |lines|
      invariant 0 <= i <= |lines|
      invariant ExpandLines(files, lines, depth - 1) == Prepend(linesOut, ExpandLines(files, lines[i..], depth - 1))
    {
      var line := lines[i];
      assert lines[i..][1..] == lines[i + 1..];
      if IsInclude(line) {
        var subpath := IncludePath(line);
        if subpath.Failure? {
          return Failure(subpath.error);
        }
        var sub := LoadLines(files, subpath.value, depth - 1);
        if sub.Failure? {
          return Failure(sub.error);
        }
        PrependTwice(linesOut, sub.value, ExpandLines(files, lines[i + 1..], depth - 1));
        linesOut := linesOut + sub.value;
      } else {
        PrependTwice(linesOut, [line], ExpandLines(files, lines[i + 1..], depth - 1));
        linesOut := linesOut + [line];
      }
      i := i + 1;
    }
    assert linesOut + [] == linesOut;
    return Success(linesOut);
  }

  /** load: expand, then join. */
  method Load(files: Files, path: string, depth: nat) returns (res: Result<string, LoadError>)
    ensures res == LoadSource(files, path, depth)
  {
    var lines := LoadLines(files, path, depth);
    if lines.Failure? {
      return Failure(lines.error);
    }
    var source := "";
    var i := 0;
    while i < |lines.value|
      invariant 0 <= i <= |lines.value|
      invariant Concat(lines.value) == source + Concat(lines.value[i..])
    {
      assert lines.value[i..][1..] == lines.value[i + 1..];
      assert Concat(lines.value[i..]) == lines.value[i] + Concat(lines.value[i + 1..]);
      assert source + Concat(lines.value[i..]) == (source + lines.value[i]) + Concat(lines.value[i + 1..]);
      source := source + lines.value[i];
      i := i + 1;
    }
    assert source + "" == source;
    return Success(source);
  }

  // ------------------------------------------------------------------
  // Properties of the expansion
  // ------------------------------------------------------------------

  /** A plain line is emitted unchanged, at its own position. */
  lemma PlainLineKept(files: Files, lines: seq<string>, depth: nat)
    requires |lines| > 0 && !IsInclude(lines[0])
    ensures ExpandLines(files, lines, depth) == Prepend([lines[0]], ExpandLines(files, lines[1..], depth))
  {
  }

  /**
   * An include line is dropped and the expansion of the file its literal
   * names is spliced in its place; the path is the literal, whoever
   * includes it.
   */
  lemma IncludeSpliced(files: Files, lines: seq<string>, depth: nat, path: string)
    requires |lines| > 0 && IsInclude(lines[0]) && IncludePath(lines[0]) == Success(path)
    ensures ExpandFile(files, path, depth).Success? ==>
      ExpandLines(files, lines, depth) == Prepend(ExpandFile(files, path, depth).value, ExpandLines(files, lines[1..], depth))
    ensures ExpandFile(files, path, depth).Failure? ==>
      ExpandLines(files, lines, depth) == Failure(ExpandFile(files, path, depth).error)
  {
  }

  /** An include whose argument is not a plain literal stops the expansion. */
  lemma BadArgumentFails(files: Files, lines: seq<string>, depth: nat)
    requires |lines| > 0 && IsInclude(lines[0]) && IncludePath(lines[0]).Failure?
    ensures ExpandLines(files, lines, depth) == Failure(BadIncludeArgument(IncludeArgument(lines[0])))
  {
  }

  /** Expansion distributes over concatenation of line lists. */
  lemma {:induction false} ExpandLinesAppend(files: Files, a: seq<string>, b: seq<string>, depth: nat)
    ensures ExpandLines(files, a + b, depth) ==
      (if ExpandLines(files, a, depth).Failure? then Failure(ExpandLines(files, a, depth).error)
       else Prepend(ExpandLines(files, a, depth).value, ExpandLines(files, b, depth)))
  {
    if |a| == 0 {
      assert a + b == b;
      PrependNothing(ExpandLines(files, b, depth));
    } else {
      assert (a + b)[0] == a[0];
      assert (a + b)[1..] == a[1..] + b;
      ExpandLinesAppend(files, a[1..], b, depth);
      var head := ExpandLine(files, a[0], depth);
      if head.Success? && ExpandLines(files, a[1..], depth).Success? {
        PrependTwice(head.value, ExpandLines(files, a[1..], depth).value, ExpandLines(files, b, depth));
      }
    }
  }

  /** Lines without directives expand to themselves. */
  lemma {:induction false} NoIncludesUnchanged(files: Files, lines: seq<string>, depth: nat)
    requires forall i :: 0 <= i < |lines| ==> !IsInclude(lines[i])
    ensures ExpandLines(files, lines, depth) == Success(lines)
  {
    if |lines| > 0 {
      NoIncludesUnchanged(files, lines[1..], depth);
      assert [lines[0]] + lines[1..] == lines;
    }
  }

  /** A file with no include lines loads as the concatenation of its own lines. */
  lemma NoIncludesLoadsItself(files: Files, path: string, depth: nat)
    requires depth > 0 && path in files
    requires forall i :: 0 <= i < |files[path]| ==> !IsInclude(files[path][i])
    ensures ExpandFile(files, path, depth) == Success(files[path])
    ensures LoadSource(files, path, depth) == Success(Concat(files[path]))
  {
    NoIncludesUnchanged(files, files[path], depth - 1);
  }

  /** A missing file is reported by its path. */
  lemma MissingFileFails(files: Files, path: string, depth: nat)
    requires depth > 0 && path !in files
    ensures LoadSource(files, path, depth) == Failure(FileNotFound(path))
  {
  }

  /** Every line of a successful expansion is a plain line of some file: no directive survives. */
  lemma {:induction false} ExpandedLinesArePlain(files: Files, path: string, depth: nat)
    requires ExpandFile(files, path, depth).Success?
    ensures forall l :: l in ExpandFile(files, path, depth).value ==> !IsInclude(l) && exists p :: p in files && l in files[p]
    decreases depth, 0
  {
    ExpandedLinesOfLinesArePlain(files, files[path], depth - 1, path);
  }

  lemma {:induction false} ExpandedLinesOfLinesArePlain(files: Files, lines: seq<string>, depth: nat, owner: string)
    requires owner in files && forall l :: l in lines ==> l in files[owner]
    requires ExpandLines(files, lines, depth).Success?
    ensures forall l :: l in ExpandLines(files, lines, depth).value ==> !IsInclude(l) && exists p :: p in files && l in files[p]
    decreases depth, 1, |lines|
  {
    if |lines| > 0 {
      var head := ExpandLine(files, lines[0], depth);
      ExpandedLinesOfLinesArePlain(files, lines[1..], depth, owner);
      if IsInclude(lines[0]) {
        ExpandedLinesArePlain(files, IncludePath(lines[0]).value, depth);
      } else {
        assert lines[0] in files[owner];
      }
      assert ExpandLines(files, lines, depth).value == head.value + ExpandLines(files, lines[1..], depth).value;
    }
  }

  /**
   * Line k of the file at path includes target, and no line before it is a
   * directive: expanding path reaches target's expansion first.
   */
  predicate IncludesAt(files: Files, path: string, k: nat, target: string)
  {
    && path in files && k < |files[path]|
    && IsInclude(files[path][k]) && IncludePath(files[path][k]) == Success(target)
    && NoDirectives(files[path][..k])
  }

  /** No line of the list is an include directive. */
  predicate NoDirectives(lines: seq<string>)
  {
    |lines| == 0 || (!IsInclude(lines[0]) && NoDirectives(lines[1..]))
  }

  lemma {:induction false} NoDirectivesUnchanged(files: Files, lines: seq<string>, depth: nat)
    requires NoDirectives(lines)
    ensures ExpandLines(files, lines, depth) == Success(lines)
  {
    if |lines| > 0 {
      NoDirectivesUnchanged(files, lines[1..], depth);
      assert [lines[0]] + lines[1..] == lines;
    }
  }

  /** A file reached through its own line k fails as soon as that line is expanded. */
  lemma FailingIncludeAt(files: Files, path: string, k: nat, target: string, depth: nat)
    requires depth > 0 && IncludesAt(files, path, k, target)
    requires ExpandFile(files, target, depth - 1) == Failure(RecursionLimit)
    ensures ExpandFile(files, path, depth) == Failure(RecursionLimit)
  {
    var lines := files[path];
    var depth := depth - 1;
    assert lines == lines[..k] + lines[k..];
    NoDirectivesUnchanged(files, lines[..k], depth);
    ExpandLinesAppend(files, lines[..k], lines[k..], depth);
    assert lines[k..][0] == lines[k];
    assert ExpandLines(files, lines[k..], depth) == Failure(RecursionLimit);
  }

  /**
   * An include cycle: each file in the map includes, at the line recorded for
   * it and before any other directive, a file that is again in the map.
   */
  predicate Cyclic(files: Files, links: map<string, (nat, string)>)
  {
    forall p :: p in links ==> links[p].1 in links && IncludesAt(files, p, links[p].0, links[p].1)
  }

  /** Expanding each file of the map fails one level after the file it includes fails. */
  ghost predicate FailsOneAbove(files: Files, links: map<string, (nat, string)>)
  {
    forall p, d: nat :: p in links && ExpandFile(files, links[p].1, d) == Failure(RecursionLimit) ==>
      ExpandFile(files, p, d + 1) == Failure(RecursionLimit)
  }

  lemma CycleFailsOneAbove(files: Files, links: map<string, (nat, string)>)
    requires Cyclic(files, links)
    ensures FailsOneAbove(files, links)
  {
    forall p, d: nat | p in links && ExpandFile(files, links[p].1, d) == Failure(RecursionLimit)
      ensures ExpandFile(files, p, d + 1) == Failure(RecursionLimit)
    {
      FailingIncludeAt(files, p, links[p].0, links[p].1, d + 1);
    }
  }

  lemma {:induction false} ClosedChainFails(files: Files, links: map<string, (nat, string)>, path: string, depth: nat)
    requires path in links && forall p :: p in links ==> links[p].1 in links
    requires FailsOneAbove(files, links)
    ensures ExpandFile(files, path, depth) == Failure(RecursionLimit)
    decreases depth
  {
    if depth > 0 {
      ClosedChainFails(files, links, links[path].1, depth - 1);
    }
  }

  /**
   * No cycle detection: expanding any file of an include cycle exhausts every
   * recursion limit.
   */
  lemma IncludeCycleNeverTerminates(files: Files, links: map<string, (nat, string)>, path: string, depth: nat)
    requires path in links && Cyclic(files, links)
    ensures ExpandFile(files, path, depth) == Failure(RecursionLimit)
  {
    CycleFailsOneAbove(files, links);
    ClosedChainFails(files, links, path, depth);
  }

  /** A file that includes itself, after any number of plain lines, fails for every recursion limit. */
  lemma SelfIncludeNeverTerminates(files: Files, path: string, k: nat, depth: nat)
    requires IncludesAt(files, path, k, path)
    ensures ExpandFile(files, path, depth) == Failure(RecursionLimit)
  {
    IncludeCycleNeverTerminates(files, map[path := (k, path)], path, depth);
  }

  /** Two files that include each other both fail for every recursion limit. */
  lemma MutualIncludeNeverTerminates(files: Files, a: string, ka: nat, b: string, kb: nat, depth: nat)
    requires IncludesAt(files, a, ka, b) && IncludesAt(files, b, kb, a)
    ensures ExpandFile(files, a, depth) == Failure(RecursionLimit)
    ensures ExpandFile(files, b, depth) == Failure(RecursionLimit)
  {
    var links := map[a := (ka, b), b := (kb, a)];
    if a == b {
      links := map[a := (ka, b)];
    }
    IncludeCycleNeverTerminates(files, links, a, depth);
    IncludeCycleNeverTerminates(files, links, b, depth);
  }

  /** More headroom does not change a result that did not hit the recursion limit. */
  lemma {:induction false} DepthMonotone(files: Files, path: string, depth: nat, more: nat)
    requires depth <= more
    requires ExpandFile(files, path, depth) != Failure(RecursionLimit)
    ensures ExpandFile(files, path, more) == ExpandFile(files, path, depth)
    decreases depth, 0, 0
  {
    if path in files {
      LinesDepthMonotone(files, files[path], depth - 1, more - 1);
    }
  }

  lemma {:induction false} LinesDepthMonotone(files: Files, lines: seq<string>, depth: nat, more: nat)
    requires depth <= more
    requires ExpandLines(files, lines, depth) != Failure(RecursionLimit)
    ensures ExpandLines(files, lines, more) == ExpandLines(files, lines, depth)
    decreases depth, 1, |lines|
  {
    if |lines| > 0 {
      var line := lines[0];
      if IsInclude(line) && IncludePath(line).Success? {
        var sub := IncludePath(line).value;
        if ExpandFile(files, sub, depth) != Failure(RecursionLimit) {
          DepthMonotone(files, sub, depth, more);
        }
      }
      if ExpandLine(files, line, depth).Success? {
        LinesDepthMonotone(files, lines[1..], depth, more);
      }
    }
  }
}
