/**
 * The error message built from a ts-interface-checker error tree by `getErrorMessage` (in
 * `src/core/util/ts-interface-checker.ts`, and identically at the end of
 * `src/validateAndNormalizeConfig.ts`): one line per node of the tree in pre-order, each nested
 * level indented by four more spaces, joined with newlines.
 */
module ErrorMessages {
  import opened Text

  /** `IErrorDetail`: a path, a message and the nested details (an absent list reads as empty). */
  datatype ErrorDetail = ErrorDetail(path: string, message: string, nested: seq<ErrorDetail>)

  /** The line of one node: `` `path` message ``. */
  function Headline(e: ErrorDetail): string {
    "`" + e.path + "` " + e.message
  }

  /** The line of a node at nesting depth `depth`. */
  function Line(e: ErrorDetail, depth: nat): string {
    Spaces(4 * depth) + Headline(e)
  }

  /** The reference outline: the node's line, then its children's outlines one level deeper. */
  function Outline(e: ErrorDetail, depth: nat): seq<string>
    decreases e, 1
  {
    [Line(e, depth)] + Children(e, |e.nested|, depth + 1)
  }

  /** The outlines of the first `n` children of `e`, in order. */
  function Children(e: ErrorDetail, n: nat, depth: nat): seq<string>
    requires n <= |e.nested|
    decreases e, 0, n
  {
    if n == 0 then [] else Children(e, n - 1, depth) + Outline(e.nested[n - 1], depth)
  }

  /** The number of nodes of the tree. */
  function Size(e: ErrorDetail): nat
    decreases e, 1
  {
    1 + ChildrenSize(e, |e.nested|)
  }

  function ChildrenSize(e: ErrorDetail, n: nat): nat
    requires n <= |e.nested|
    decreases e, 0, n
  {
    if n == 0 then 0 else ChildrenSize(e, n - 1) + Size(e.nested[n - 1])
  }

  /** `.map(s => "    " + s)`. */
  function Indent(lines: seq<string>): (r: seq<string>)
    ensures |r| == |lines| && forall i :: 0 <= i < |lines| ==> r[i] == "    " + lines[i]
  {
    seq(|lines|, i requires 0 <= i < |lines| => "    " + lines[i])
  }

  lemma IndentAppend(a: seq<string>, b: seq<string>)
    ensures Indent(a + b) == Indent(a) + Indent(b)
  {
    assert forall i :: 0 <= i < |a + b| ==> Indent(a + b)[i] == (Indent(a) + Indent(b))[i];
  }

  lemma IndentLine(e: ErrorDetail, depth: nat)
    ensures "    " + Line(e, depth) == Line(e, depth + 1)
  {
    assert "    " + Spaces(4 * depth) == Spaces(4 * (depth + 1));
  }

  /** Indenting an outline by four spaces is the outline one level deeper. */
  lemma {:induction false} IndentOutline(e: ErrorDetail, depth: nat)
    ensures Indent(Outline(e, depth)) == Outline(e, depth + 1)
    decreases e, 1
  {
    IndentLine(e, depth);
    IndentChildren(e, |e.nested|, depth + 1);
    IndentAppend([Line(e, depth)], Children(e, |e.nested|, depth + 1));
  }

  lemma {:induction false} IndentChildren(e: ErrorDetail, n: nat, depth: nat)
    requires n <= |e.nested|
    ensures Indent(Children(e, n, depth)) == Children(e, n, depth + 1)
    decreases e, 0, n
  {
    if n > 0 {
      IndentChildren(e, n - 1, depth);
      IndentOutline(e.nested[n - 1], depth);
      IndentAppend(Children(e, n - 1, depth), Outline(e.nested[n - 1], depth));
    }
  }

  /** There is one line per node of the tree. */
  lemma {:induction false} OutlineSize(e: ErrorDetail, depth: nat)
    ensures |Outline(e, depth)| == Size(e)
    decreases e, 1
  {
    ChildrenOutlineSize(e, |e.nested|, depth + 1);
  }

  lemma {:induction false} ChildrenOutlineSize(e: ErrorDetail, n: nat, depth: nat)
    requires n <= |e.nested|
    ensures |Children(e, n, depth)| == ChildrenSize(e, n)
    decreases e, 0, n
  {
    if n > 0 {
      ChildrenOutlineSize(e, n - 1, depth);
      OutlineSize(e.nested[n - 1], depth);
    }
  }

  /**
   * `getErrorMessageLines(error)`: the node's line, then each nested detail's lines indented by
   * four spaces. The result is the outline at depth zero: pre-order, one line per node, and a node
   * at depth `d` carries `4 * d` leading spaces before its `` `path` message ``.
   */
  method GetErrorMessageLines(error: ErrorDetail) returns (result: seq<string>)
    ensures result == Outline(error, 0)
    ensures |result| == Size(error) && result[0] == Headline(error)
    decreases error
  {
    result := [Headline(error)];
    assert Line(error, 0) == Headline(error);
    for i := 0 to |error.nested|
      invariant result == [Line(error, 0)] + Children(error, i, 1)
    {
      var lines := GetErrorMessageLines(error.nested[i]);
      IndentOutline(error.nested[i], 0);
      result := result + Indent(lines);
    }
    OutlineSize(error, 0);
  }

  /** No path or message in the tree contains a newline. */
  predicate NoNewlines(e: ErrorDetail)
    decreases e
  {
    && SeparatorFree(e.path, c => c == '\n') && SeparatorFree(e.message, c => c == '\n')
    && forall i :: 0 <= i < |e.nested| ==> NoNewlines(e.nested[i])
  }

  lemma {:induction false} OutlineLinesFree(e: ErrorDetail, depth: nat)
    requires NoNewlines(e)
    ensures forall i :: 0 <= i < |Outline(e, depth)| ==> SeparatorFree(Outline(e, depth)[i], c => c == '\n')
    decreases e, 1
  {
    ChildrenLinesFree(e, |e.nested|, depth + 1);
    var line := Line(e, depth);
    forall k | 0 <= k < |line| ensures line[k] != '\n' {
      var sp := Spaces(4 * depth);
      if k < |sp| {
      } else if k == |sp| || k == |sp| + 1 + |e.path| || k == |sp| + 2 + |e.path| {
      } else if k < |sp| + 1 + |e.path| {
        assert line[k] == e.path[k - |sp| - 1];
      } else {
        assert line[k] == e.message[k - |sp| - 3 - |e.path|];
      }
    }
  }

  lemma {:induction false} ChildrenLinesFree(e: ErrorDetail, n: nat, depth: nat)
    requires n <= |e.nested| && NoNewlines(e)
    ensures forall i :: 0 <= i < |Children(e, n, depth)| ==>
      SeparatorFree(Children(e, n, depth)[i], c => c == '\n')
    decreases e, 0, n
  {
    if n > 0 {
      ChildrenLinesFree(e, n - 1, depth);
      OutlineLinesFree(e.nested[n - 1], depth);
    }
  }

  /** `getErrorMessage(error)`: the lines joined with newlines. */
  function GetErrorMessage(error: ErrorDetail): (m: string)
    ensures NoNewlines(error) ==> Split(m, '\n') == Outline(error, 0)
  {
    var lines := Outline(error, 0);
    assert NoNewlines(error) ==> Split(Join(lines, "\n"), '\n') == lines by {
      if NoNewlines(error) {
        OutlineLinesFree(error, 0);
        SplitByJoin(lines, '\n', c => c == '\n');
      }
    }
    Join(lines, "\n")
  }
}
