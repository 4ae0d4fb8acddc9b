/**
 * What the redaction helpers of the integration tests share: finding the first run of stack-trace
 * lines in a list of console lines, and the reference result of replacing every maximal run of
 * such lines by one marker line. Which lines count as stack-trace lines, and the marker, differ
 * from helper to helper, so they are parameters here.
 */
module StackTraces {
  import opened Results

  /** `lines.findIndex(p)`: the first index whose line satisfies `p`, or -1. */
  function FindIndex(lines: seq<string>, p: string -> bool): (r: int)
    ensures r == -1 <==> forall i :: 0 <= i < |lines| ==> !p(lines[i])
    ensures r != -1 ==> 0 <= r < |lines| && p(lines[r]) && forall i :: 0 <= i < r ==> !p(lines[i])
  {
    if lines == [] then -1
    else if p(lines[0]) then 0
    else
      var r := FindIndex(lines[1..], p);
      assert forall i :: 1 <= i < |lines| ==> lines[i] == lines[1..][i - 1];
      if r == -1 then -1 else r + 1
  }

  /** A run of lines: where it starts and how many lines it has. */
  datatype Run = Run(start: nat, length: nat)

  /** `run` is the first maximal run of lines satisfying `isStack`: nothing before it qualifies,
      all of it does, and it ends at the end of the list or at a line that does not. */
  predicate IsFirstRun(lines: seq<string>, isStack: string -> bool, run: Run) {
    && run.length >= 1 && run.start + run.length <= |lines|
    && (forall i :: 0 <= i < run.start ==> !isStack(lines[i]))
    && (forall i :: run.start <= i < run.start + run.length ==> isStack(lines[i]))
    && (run.start + run.length == |lines| || !isStack(lines[run.start + run.length]))
  }

  /** `findStackTrace(lines)`: the first maximal run of stack-trace lines, or none (`false`). A
      run with no line after it that is not a stack-trace line extends to the end of the list. */
  function FindStackTrace(lines: seq<string>, isStack: string -> bool): (r: Option<Run>)
    ensures r.None? <==> forall i :: 0 <= i < |lines| ==> !isStack(lines[i])
    ensures r.Some? ==> IsFirstRun(lines, isStack, r.value)
  {
    var start := FindIndex(lines, isStack);
    if start == -1 then None
    else
      var length := FindIndex(lines[start..], line => !isStack(line));
      RunAfterStart(lines, isStack, start, length);
      Some(Run(start, if length == -1 then |lines| - start else length))
  }

  /** The run that starts at the first stack-trace line ends where `findIndex` finds the first line
      after it that is not one, or at the end. */
  lemma RunAfterStart(lines: seq<string>, isStack: string -> bool, start: nat, length: int)
    requires start < |lines| && isStack(lines[start]) && forall i :: 0 <= i < start ==> !isStack(lines[i])
    requires length == FindIndex(lines[start..], line => !isStack(line))
    ensures IsFirstRun(lines, isStack, Run(start, if length == -1 then |lines| - start else length))
  {
    var rest := lines[start..];
    assert forall i :: start <= i < |lines| ==> lines[i] == rest[i - start];
  }

  /** The number of leading lines satisfying `isStack`. */
  function RunLength(lines: seq<string>, isStack: string -> bool): (n: nat)
    ensures n <= |lines|
  {
    if lines == [] || !isStack(lines[0]) then 0 else 1 + RunLength(lines[1..], isStack)
  }

  /** The reference result: each maximal run of stack-trace lines becomes one `marker` line, and
      every other line stays, in order. */
  function Collapse(lines: seq<string>, isStack: string -> bool, marker: string): seq<string>
    decreases |lines|
  {
    if lines == [] then []
    else if isStack(lines[0]) then
      var n := RunLength(lines, isStack);
      [marker] + Collapse(lines[n..], isStack, marker)
    else
      [lines[0]] + Collapse(lines[1..], isStack, marker)
  }

  /** The number of stack-trace lines. */
  function StackCount(lines: seq<string>, isStack: string -> bool): nat {
    if lines == [] then 0 else (if isStack(lines[0]) then 1 else 0) + StackCount(lines[1..], isStack)
  }

  lemma {:induction false} StackCountAppend(a: seq<string>, b: seq<string>, isStack: string -> bool)
    ensures StackCount(a + b, isStack) == StackCount(a, isStack) + StackCount(b, isStack)
  {
    if a != [] {
      assert (a + b)[0] == a[0] && (a + b)[1..] == a[1..] + b;
      StackCountAppend(a[1..], b, isStack);
    } else {
      assert a + b == b;
    }
  }

  /** A run of `n` stack-trace lines counts `n`. */
  lemma {:induction false} StackCountOfRun(lines: seq<string>, isStack: string -> bool)
    requires forall i :: 0 <= i < |lines| ==> isStack(lines[i])
    ensures StackCount(lines, isStack) == |lines|
  {
    if lines != [] {
      StackCountOfRun(lines[1..], isStack);
    }
  }

  /** The leading run of a list that starts with a maximal run of length `n` has length `n`. */
  lemma {:induction false} RunLengthOfRun(lines: seq<string>, isStack: string -> bool, n: nat)
    requires n <= |lines| && (forall i :: 0 <= i < n ==> isStack(lines[i]))
    requires n == |lines| || !isStack(lines[n])
    ensures RunLength(lines, isStack) == n
  {
    if n > 0 {
      RunLengthOfRun(lines[1..], isStack, n - 1);
    }
  }

  /** Lines without stack-trace lines pass through `Collapse` unchanged. */
  lemma {:induction false} CollapseClean(a: seq<string>, rest: seq<string>, isStack: string -> bool, marker: string)
    requires forall i :: 0 <= i < |a| ==> !isStack(a[i])
    ensures Collapse(a + rest, isStack, marker) == a + Collapse(rest, isStack, marker)
  {
    if a != [] {
      assert (a + rest)[0] == a[0] && (a + rest)[1..] == a[1..] + rest;
      CollapseClean(a[1..], rest, isStack, marker);
    } else {
      assert a + rest == rest;
    }
  }

  /** Replacing the first run by the marker does not change the reference result. */
  lemma SpliceCollapse(lines: seq<string>, isStack: string -> bool, marker: string, run: Run)
    requires IsFirstRun(lines, isStack, run) && !isStack(marker)
    ensures var spliced := lines[..run.start] + [marker] + lines[run.start + run.length..];
      Collapse(spliced, isStack, marker) == Collapse(lines, isStack, marker)
  {
    var s, e := run.start, run.start + run.length;
    var pre, tail, post := lines[..s], lines[s..], lines[e..];
    assert lines == pre + tail;
    assert tail[run.length..] == post;
    CollapseAtFirstRun(pre, tail, isStack, marker, run.length);
    CollapseSpliced(pre, post, isStack, marker);
  }

  /** Clean lines followed by a maximal run: `Collapse` keeps the clean lines and turns the run
      into the marker. */
  lemma CollapseAtFirstRun(pre: seq<string>, tail: seq<string>, isStack: string -> bool, marker: string, n: nat)
    requires forall i :: 0 <= i < |pre| ==> !isStack(pre[i])
    requires 1 <= n <= |tail| && (forall i :: 0 <= i < n ==> isStack(tail[i]))
    requires n == |tail| || !isStack(tail[n])
    ensures Collapse(pre + tail, isStack, marker) == pre + ([marker] + Collapse(tail[n..], isStack, marker))
  {
    CollapseClean(pre, tail, isStack, marker);
    CollapseLeadingRun(tail, isStack, marker, n);
  }

  /** A leading maximal run of `n` lines collapses to one marker. */
  lemma CollapseLeadingRun(lines: seq<string>, isStack: string -> bool, marker: string, n: nat)
    requires 1 <= n <= |lines| && (forall i :: 0 <= i < n ==> isStack(lines[i]))
    requires n == |lines| || !isStack(lines[n])
    ensures Collapse(lines, isStack, marker) == [marker] + Collapse(lines[n..], isStack, marker)
  {
    RunLengthOfRun(lines, isStack, n);
  }

  /** Clean lines followed by the marker: `Collapse` keeps both. */
  lemma CollapseSpliced(pre: seq<string>, post: seq<string>, isStack: string -> bool, marker: string)
    requires forall i :: 0 <= i < |pre| ==> !isStack(pre[i])
    requires !isStack(marker)
    ensures Collapse(pre + [marker] + post, isStack, marker) == pre + ([marker] + Collapse(post, isStack, marker))
  {
    assert pre + [marker] + post == pre + ([marker] + post);
    CollapseClean(pre, [marker] + post, isStack, marker);
    CollapseClean([marker], post, isStack, marker);
  }



  /** Replacing the first run removes at least one stack-trace line. */
  lemma SpliceShrinks(lines: seq<string>, isStack: string -> bool, marker: string, run: Run)
    requires IsFirstRun(lines, isStack, run) && !isStack(marker)
    ensures var spliced := lines[..run.start] + [marker] + lines[run.start + run.length..];
      StackCount(spliced, isStack) < StackCount(lines, isStack)
  {
    var s, e := run.start, run.start + run.length;
    assert lines == lines[..s] + lines[s..e] + lines[e..];
    StackCountAppend(lines[..s] + lines[s..e], lines[e..], isStack);
    StackCountAppend(lines[..s], lines[s..e], isStack);
    StackCountOfRun(lines[s..e], isStack);
    StackCountAppend(lines[..s] + [marker], lines[e..], isStack);
    StackCountAppend(lines[..s], [marker], isStack);
    assert StackCount([marker], isStack) == 0 by {
      assert [marker][1..] == [];
    }
  }

  /** No stack-trace line is left in the reference result. */
  lemma {:induction false} CollapseNoStackLines(lines: seq<string>, isStack: string -> bool, marker: string)
    requires !isStack(marker)
    ensures forall i :: 0 <= i < |Collapse(lines, isStack, marker)| ==> !isStack(Collapse(lines, isStack, marker)[i])
    decreases |lines|
  {
    if lines != [] {
      if isStack(lines[0]) {
        CollapseNoStackLines(lines[RunLength(lines, isStack)..], isStack, marker);
      } else {
        CollapseNoStackLines(lines[1..], isStack, marker);
      }
    }
  }

  /** Redacting twice is redacting once. */
  lemma CollapseIdempotent(lines: seq<string>, isStack: string -> bool, marker: string)
    requires !isStack(marker)
    ensures Collapse(Collapse(lines, isStack, marker), isStack, marker) == Collapse(lines, isStack, marker)
  {
    var c := Collapse(lines, isStack, marker);
    CollapseNoStackLines(lines, isStack, marker);
    CollapseClean(c, [], isStack, marker);
    assert c + [] == c;
  }

  /** The lines that are neither stack-trace lines nor markers, in order. */
  function Others(lines: seq<string>, isStack: string -> bool, marker: string): seq<string> {
    if lines == [] then []
    else (if isStack(lines[0]) || lines[0] == marker then [] else [lines[0]]) + Others(lines[1..], isStack, marker)
  }

  lemma {:induction false} OthersAppend(a: seq<string>, b: seq<string>, isStack: string -> bool, marker: string)
    ensures Others(a + b, isStack, marker) == Others(a, isStack, marker) + Others(b, isStack, marker)
  {
    if a != [] {
      assert (a + b)[0] == a[0] && (a + b)[1..] == a[1..] + b;
      OthersAppend(a[1..], b, isStack, marker);
    } else {
      assert a + b == b;
    }
  }

  /** Redaction keeps every other line, in order: only stack-trace lines become markers. */
  lemma {:induction false} CollapseKeepsOthers(lines: seq<string>, isStack: string -> bool, marker: string)
    ensures Others(Collapse(lines, isStack, marker), isStack, marker) == Others(lines, isStack, marker)
    decreases |lines|
  {
    if lines != [] {
      if isStack(lines[0]) {
        var n := RunLength(lines, isStack);
        CollapseKeepsOthers(lines[n..], isStack, marker);
        OthersAppend([marker], Collapse(lines[n..], isStack, marker), isStack, marker);
        RunOthers(lines, isStack, marker);
      } else {
        CollapseKeepsOthers(lines[1..], isStack, marker);
        OthersAppend([lines[0]], Collapse(lines[1..], isStack, marker), isStack, marker);
      }
    }
  }

  /** A leading run of stack-trace lines contributes nothing to `Others`. */
  lemma {:induction false} RunOthers(lines: seq<string>, isStack: string -> bool, marker: string)
    ensures Others(lines, isStack, marker) == Others(lines[RunLength(lines, isStack)..], isStack, marker)
  {
    if lines != [] && isStack(lines[0]) {
      RunOthers(lines[1..], isStack, marker);
      assert lines[1..][RunLength(lines[1..], isStack)..] == lines[RunLength(lines, isStack)..];
    }
  }

  /**
   * The loop shared by both `redactStackTraces` helpers: while `findStackTrace` finds a run, the
   * run is spliced out of the copy and replaced by the marker. The result is the reference result.
   */
  method RedactRuns(input: seq<string>, isStack: string -> bool, marker: string) returns (output: seq<string>)
    requires !isStack(marker)
    ensures output == Collapse(input, isStack, marker)
  {
    output := input;
    var stackTrace := FindStackTrace(output, isStack);
    while stackTrace.Some?
      invariant stackTrace == FindStackTrace(output, isStack)
      invariant Collapse(output, isStack, marker) == Collapse(input, isStack, marker)
      decreases StackCount(output, isStack)
    {
      var run := stackTrace.value;
      SpliceCollapse(output, isStack, marker, run);
      SpliceShrinks(output, isStack, marker, run);
      output := output[..run.start] + [marker] + output[run.start + run.length..];
      stackTrace := FindStackTrace(output, isStack);
    }
    CollapseClean(output, [], isStack, marker);
    assert output + [] == output;
  }
}

/**
 * `test/integration/helpers/redact.ts`: stack traces (also those the logger prefixed with
 * `error:`) become `<stack trace>`, and the working directory becomes `<cwd>`.
 */
module Redact {
  import opened Text
  import opened StackTraces

  /** `isStackTraceLine(line)`. */
  predicate IsStackTraceLine(line: string) {
    StartsWith(line, "error:     at ") || StartsWith(line, "    at ")
  }

  const Marker := "<stack trace>"

  /** `redactStackTraces(lines)`: every maximal run of stack-trace lines becomes one marker. */
  method RedactStackTraces(lines: seq<string>) returns (output: seq<string>)
    ensures output == Collapse(lines, IsStackTraceLine, Marker)
    ensures forall i :: 0 <= i < |output| ==> !IsStackTraceLine(output[i])
  {
    assert !IsStackTraceLine(Marker) by {
      assert Marker[..7][0] != "    at "[0];
    }
    output := RedactRuns(lines, IsStackTraceLine, Marker);
    CollapseNoStackLines(lines, IsStackTraceLine, Marker);
  }

  /** `cwd` has no angle brackets and does not occur in `<cwd>`: no occurrence of `cwd` can then
      overlap an inserted `<cwd>`. */
  predicate Redactable(cwd: string) {
    && cwd != []
    && (forall k :: 0 <= k < |cwd| ==> cwd[k] != '<' && cwd[k] != '>')
    && !Contains("<cwd>", cwd)
  }

  /** The index of the first occurrence of `t` in `s`. */
  function FirstOccurrence(s: string, t: string): (i: nat)
    requires Contains(s, t)
    ensures OccursAt(s, t, i) && forall j :: 0 <= j < i ==> !OccursAt(s, t, j)
    decreases |s|
  {
    if OccursAt(s, t, 0) then 0
    else
      var j :| 0 <= j <= |s| && OccursAt(s, t, j);
      OccursShifted(s, t, j);
      var i := FirstOccurrence(s[1..], t) + 1;
      OccursShifted(s, t, i);
      forall k | 1 <= k < i ensures !OccursAt(s, t, k) {
        OccursShifted(s, t, k);
      }
      i
  }

  /** Past the first character, `t` occurs in `s` where it occurs in `s[1..]`, one place later. */
  lemma OccursShifted(s: string, t: string, k: int)
    requires 1 <= k && |s| >= 1
    ensures OccursAt(s, t, k) <==> OccursAt(s[1..], t, k - 1)
  {
    if k + |t| <= |s| {
      assert s[1..][k - 1..k - 1 + |t|] == s[k..k + |t|];
    }
  }


  /** After replacing the first occurrence (at `p`) by `<cwd>`, no occurrence starts before the
      end of the inserted text. */
  lemma ReplaceFirstClears(s: string, cwd: string, p: nat)
    requires Redactable(cwd) && OccursAt(s, cwd, p) && forall j :: 0 <= j < p ==> !OccursAt(s, cwd, j)
    ensures var r := s[..p] + "<cwd>" + s[p + |cwd|..];
      forall j :: 0 <= j < p + 5 ==> !OccursAt(r, cwd, j)
  {
    var r := s[..p] + "<cwd>" + s[p + |cwd|..];
    forall j | 0 <= j < p + 5 ensures !OccursAt(r, cwd, j) {
      var n := |cwd|;
      if j + n > |r| {
      } else if j + n <= p {
        assert r[j..j + n] == s[j..j + n];
        assert !OccursAt(s, cwd, j);
      } else if j < p {
        assert r[j..j + n][p - j] == r[p] == '<' != cwd[p - j];
      } else if j + n <= p + 5 {
        assert r[j..j + n] == "<cwd>"[j - p..j - p + n];
        assert !OccursAt("<cwd>", cwd, j - p);
      } else {
        assert r[j..j + n][p + 4 - j] == r[p + 4] == '>' != cwd[p + 4 - j];
      }
    }
  }

  /** The reference replacement: one scan from left to right that replaces each occurrence of
      `cwd` by `<cwd>` and resumes after it, as `s.replaceAll(cwd, "<cwd>")` does. */
  function ReplaceAll(s: string, cwd: string): string
    requires cwd != []
    decreases |s|
  {
    if |s| < |cwd| then s
    else if s[..|cwd|] == cwd then "<cwd>" + ReplaceAll(s[|cwd|..], cwd)
    else [s[0]] + ReplaceAll(s[1..], cwd)
  }

  /** Where no occurrence starts before `k`, the scan copies the first `k` characters. */
  lemma {:induction false} ReplaceAllSkip(s: string, cwd: string, k: nat)
    requires cwd != [] && k <= |s|
    requires forall j :: 0 <= j < k ==> !OccursAt(s, cwd, j)
    ensures ReplaceAll(s, cwd) == s[..k] + ReplaceAll(s[k..], cwd)
  {
    if k == 0 {
      assert s[k..] == s;
    } else if |s| < |cwd| {
      assert s[..k] + s[k..] == s;
    } else {
      assert !OccursAt(s, cwd, 0);
      forall j | 0 <= j < k - 1 ensures !OccursAt(s[1..], cwd, j) {
        OccursShifted(s, cwd, j + 1);
      }
      ReplaceAllSkip(s[1..], cwd, k - 1);
      assert s[1..][k - 1..] == s[k..];
      assert [s[0]] + s[1..][..k - 1] == s[..k];
    }
  }

  /** A line without `cwd` is left as it is. */
  lemma ReplaceAllClean(s: string, cwd: string)
    requires cwd != [] && !Contains(s, cwd)
    ensures ReplaceAll(s, cwd) == s
  {
    ReplaceAllSkip(s, cwd, |s|);
    assert s[..|s|] == s;
  }

  /** An occurrence at the start is replaced, and the scan resumes after it. */
  lemma ReplaceAllAtStart(s: string, cwd: string)
    requires cwd != [] && OccursAt(s, cwd, 0)
    ensures ReplaceAll(s, cwd) == "<cwd>" + ReplaceAll(s[|cwd|..], cwd)
  {
  }

  /** Where no occurrence starts inside `head`, the scan copies it. */
  lemma ReplaceAllCopies(head: string, tail: string, cwd: string)
    requires cwd != []
    requires forall j :: 0 <= j < |head| ==> !OccursAt(head + tail, cwd, j)
    ensures ReplaceAll(head + tail, cwd) == head + ReplaceAll(tail, cwd)
  {
    ReplaceAllSkip(head + tail, cwd, |head|);
    assert (head + tail)[..|head|] == head && (head + tail)[|head|..] == tail;
  }

  /** Replacing the first occurrence by `<cwd>` leaves the reference result unchanged. */
  lemma ReplaceFirstKeeps(s: string, cwd: string, p: nat)
    requires Redactable(cwd) && OccursAt(s, cwd, p) && forall j :: 0 <= j < p ==> !OccursAt(s, cwd, j)
    ensures ReplaceAll(s[..p] + "<cwd>" + s[p + |cwd|..], cwd) == ReplaceAll(s, cwd)
  {
    var pre, tail := s[..p], s[p + |cwd|..];
    var head := pre + "<cwd>";
    calc {
      ReplaceAll(s, cwd);
      { ReplaceAllSkip(s, cwd, p); }
      pre + ReplaceAll(s[p..], cwd);
      { assert s[p..][..|cwd|] == cwd && s[p..][|cwd|..] == tail;
        ReplaceAllAtStart(s[p..], cwd); }
      pre + ("<cwd>" + ReplaceAll(tail, cwd));
      head + ReplaceAll(tail, cwd);
      { ReplaceFirstClears(s, cwd, p);
        ReplaceAllCopies(head, tail, cwd); }
      ReplaceAll(head + tail, cwd);
    }
  }

  /** `result.replace(cwd, "<cwd>")` repeated while `result.includes(cwd)`: the same as one
      left-to-right replacement of every occurrence. */
  method RedactLine(line: string, cwd: string) returns (result: string)
    requires Redactable(cwd)
    ensures result == ReplaceAll(line, cwd)
    ensures !Contains(result, cwd)
    ensures !Contains(line, cwd) ==> result == line
  {
    result := line;
    ghost var done := 0;
    while Contains(result, cwd)
      invariant done <= |result| && forall j :: 0 <= j < done ==> !OccursAt(result, cwd, j)
      invariant ReplaceAll(result, cwd) == ReplaceAll(line, cwd)
      invariant !Contains(line, cwd) ==> result == line
      decreases |result| - done
    {
      var p := FirstOccurrence(result, cwd);
      ReplaceFirstClears(result, cwd, p);
      ReplaceFirstKeeps(result, cwd, p);
      result := result[..p] + "<cwd>" + result[p + |cwd|..];
      done := p + 5;
    }
    ReplaceAllClean(result, cwd);
  }

  /** `redactCwd(lines)`: each line with every occurrence of `cwd` replaced by `<cwd>`, so that
      none contains `cwd`, and lines without it unchanged. */
  method RedactCwd(lines: seq<string>, cwd: string) returns (output: seq<string>)
    requires Redactable(cwd)
    ensures |output| == |lines|
    ensures forall i :: 0 <= i < |lines| ==> output[i] == ReplaceAll(lines[i], cwd)
    ensures forall i :: 0 <= i < |output| ==> !Contains(output[i], cwd)
    ensures forall i :: 0 <= i < |lines| && !Contains(lines[i], cwd) ==> output[i] == lines[i]
  {
    output := [];
    for i := 0 to |lines|
      invariant |output| == i
      invariant forall k :: 0 <= k < i ==> output[k] == ReplaceAll(lines[k], cwd)
      invariant forall k :: 0 <= k < i ==> !Contains(output[k], cwd)
      invariant forall k :: 0 <= k < i && !Contains(lines[k], cwd) ==> output[k] == lines[k]
    {
      var line := RedactLine(lines[i], cwd);
      output := output + [line];
    }
  }
}

/** `test/integration/helpers/redactStackTraces.ts`: runs of `    at ` lines become
    `--- stack trace ---`. */
module RedactTraces {
  import opened Text
  import opened StackTraces

  predicate IsStackTraceLine(line: string) {
    StartsWith(line, "    at ")
  }

  const Marker := "--- stack trace ---"

  /** `redactStackTraces(input)`. */
  method RedactStackTraces(input: seq<string>) returns (output: seq<string>)
    ensures output == Collapse(input, IsStackTraceLine, Marker)
    ensures forall i :: 0 <= i < |output| ==> !IsStackTraceLine(output[i])
  {
    assert !IsStackTraceLine(Marker) by {
      assert Marker[..7][0] != "    at "[0];
    }
    output := RedactRuns(input, IsStackTraceLine, Marker);
    CollapseNoStackLines(input, IsStackTraceLine, Marker);
  }
}

/** `test/integration/helpers/redactStackTrace.ts`: only the first run of `    at ` lines
    becomes `--- stack trace ---`. */
module RedactTrace {
  import opened Results
  import opened StackTraces
  import RedactTraces

  /** `redactStackTrace(lines)`. */
  function RedactStackTrace(lines: seq<string>): (r: seq<string>)
    ensures (forall i :: 0 <= i < |lines| ==> !RedactTraces.IsStackTraceLine(lines[i])) ==> r == lines
    ensures (exists i :: 0 <= i < |lines| && RedactTraces.IsStackTraceLine(lines[i])) ==>
      exists run :: IsFirstRun(lines, RedactTraces.IsStackTraceLine, run) &&
        r == lines[..run.start] + [RedactTraces.Marker] + lines[run.start + run.length..]
  {
    var isStackTraceLine := RedactTraces.IsStackTraceLine;
    var stackTraceStart := FindIndex(lines, isStackTraceLine);
    if stackTraceStart == -1 then lines
    else
      var stackTraceLength := FindIndex(lines[stackTraceStart..], line => !isStackTraceLine(line));
      var length := if stackTraceLength == -1 then |lines| - stackTraceStart else stackTraceLength;
      assert IsFirstRun(lines, isStackTraceLine, Run(stackTraceStart, length)) by {
        assert forall i :: stackTraceStart <= i < |lines| ==> lines[i] == lines[stackTraceStart..][i - stackTraceStart];
      }
      lines[..stackTraceStart] + [RedactTraces.Marker] + lines[stackTraceStart + length..]
  }

  /** The single-run helper agrees with the full redaction up to the runs it leaves: redacting
      the rest afterwards gives the same result. */
  lemma RedactStackTraceAgrees(lines: seq<string>)
    ensures var p, m := RedactTraces.IsStackTraceLine, RedactTraces.Marker;
      Collapse(RedactStackTrace(lines), p, m) == Collapse(lines, p, m)
  {
    var p, m := RedactTraces.IsStackTraceLine, RedactTraces.Marker;
    assert !p(m) by {
      assert m[..7][0] != "    at "[0];
    }
    var run := FindStackTrace(lines, p);
    if run.Some? {
      var r :| IsFirstRun(lines, p, r) && RedactStackTrace(lines) == lines[..r.start] + [m] + lines[r.start + r.length..];
      SpliceCollapse(lines, p, m, r);
    }
  }
}
