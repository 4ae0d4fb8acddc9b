/**
 * The object-mode line transforms of `src/util/stream.ts`. A transform sees one line per
 * `transform` call and pushes zero or more lines downstream; the pushed lines are kept in
 * `output`, in the order they were pushed.
 */
module StreamLines {

  /** The whole input with its final element removed when that element is the blank line. */
  function DropBlankLast(lines: seq<string>, blankLine: string): (r: seq<string>)
    ensures |lines| > 0 && lines[|lines| - 1] == blankLine ==> |r| == |lines| - 1
    ensures !(|lines| > 0 && lines[|lines| - 1] == blankLine) ==> r == lines
    ensures r == lines[..|r|]
  {
    if |lines| > 0 && lines[|lines| - 1] == blankLine then lines[..|lines| - 1] else lines
  }

  /** Only one trailing blank is dropped: a second one before it stays in place. */
  lemma DropBlankLastOnce(lines: seq<string>, blankLine: string)
    ensures DropBlankLast(lines + [blankLine, blankLine], blankLine) == lines + [blankLine]
  {
    assert (lines + [blankLine, blankLine])[..|lines| + 1] == lines + [blankLine];
  }

  /** A blank line that is followed by another line is emitted in its original position. */
  lemma DropBlankLastKeepsInnerBlanks(lines: seq<string>, blankLine: string, i: int)
    requires 0 <= i < |lines| - 1
    ensures i < |DropBlankLast(lines, blankLine)| && DropBlankLast(lines, blankLine)[i] == lines[i]
  {
  }

  /**
   * `filterBlankLastLine(blankLine)`: a blank line is held back (`bufferedBlankChunk`) until the
   * next line arrives, so a blank line at the very end is never pushed.
   */
  class BlankLastLineFilter {
    const blankLine: string
    var bufferedBlankChunk: bool
    var output: seq<string>
    /** Every line passed to `transform` so far. */
    ghost var input: seq<string>

    /** The buffer holds exactly the last input when it is blank, and everything else has been
        pushed in order. */
    ghost predicate Valid()
      reads this
    {
      && output + (if bufferedBlankChunk then [blankLine] else []) == input
      && (bufferedBlankChunk <==> |input| > 0 && input[|input| - 1] == blankLine)
    }

    constructor(blankLine: string)
      ensures Valid()
      ensures this.blankLine == blankLine && input == [] && output == [] && !bufferedBlankChunk
    {
      this.blankLine := blankLine;
      bufferedBlankChunk := false;
      output := [];
      input := [];
    }

    /** `transform(line)`: first releases a held blank, then holds or pushes `line`. */
    method Transform(line: string)
      requires Valid()
      modifies this
      ensures Valid()
      ensures input == old(input) + [line]
      ensures output == old(output) + (if old(bufferedBlankChunk) then [blankLine] else [])
                                    + (if line == blankLine then [] else [line])
      ensures bufferedBlankChunk <==> line == blankLine
    {
      if bufferedBlankChunk {
        output := output + [blankLine];
        bufferedBlankChunk := false;
      }
      if line == blankLine {
        bufferedBlankChunk := true;
      } else {
        output := output + [line];
      }
      input := input + [line];
    }

    /** At any moment, and in particular when the input ends, the pushed lines are the input
        without a trailing blank. */
    lemma OutputIsInputWithoutBlankLast()
      requires Valid()
      ensures output == DropBlankLast(input, blankLine)
    {
      if bufferedBlankChunk {
        assert input[..|input| - 1] == output;
      }
    }
  }

  /** The whole stream through `filterBlankLastLine`: one `transform` per line, then the end. */
  method FilterBlankLastLine(lines: seq<string>, blankLine: string) returns (out: seq<string>)
    ensures out == DropBlankLast(lines, blankLine)
  {
    var filter := new BlankLastLineFilter(blankLine);
    for i := 0 to |lines|
      invariant filter.Valid() && filter.blankLine == blankLine
      invariant filter.input == lines[..i]
    {
      filter.Transform(lines[i]);
      assert lines[..i + 1] == lines[..i] + [lines[i]];
    }
    assert lines[..|lines|] == lines;
    filter.OutputIsInputWithoutBlankLast();
    out := filter.output;
  }

  /** `mapStreamLines(callback)`: one `callback(line)` pushed per input line, in order. */
  method MapStreamLines(callback: string -> string, lines: seq<string>) returns (out: seq<string>)
    ensures |out| == |lines|
    ensures forall i :: 0 <= i < |lines| ==> out[i] == callback(lines[i])
  {
    out := [];
    for i := 0 to |lines|
      invariant |out| == i
      invariant forall j :: 0 <= j < i ==> out[j] == callback(lines[j])
    {
      out := out + [callback(lines[i])];
    }
  }

  /** `tapStreamLines(callback)`: every line is handed to the callback and then pushed unchanged;
      `calls` lists the callback's arguments in call order. */
  method TapStreamLines(lines: seq<string>) returns (out: seq<string>, calls: seq<string>)
    ensures out == lines
    ensures calls == lines
  {
    out := [];
    calls := [];
    for i := 0 to |lines|
      invariant out == lines[..i] && calls == lines[..i]
    {
      calls := calls + [lines[i]];
      out := out + [lines[i]];
      assert lines[..i + 1] == lines[..i] + [lines[i]];
    }
    assert lines[..|lines|] == lines;
  }
}
