/**
  The segmenter that cuts upload-artifact steps out of a workflow file
  (`_upload_artifact_step_blocks` in `tools/ci/public_safe_validation.py`).
 */
module StepBlocks {
  import opened PyText

  /** The two regular expressions: an upload line, and a `- name:` line at a given indent. */
  datatype LineRules = LineRules(isUpload: string -> bool, isNamedStep: (nat, string) -> bool)

  function Indent(line: string): nat {
    |line| - |LStrip(line)|
  }

  /** `max(uses_indent - 2, 0)` */
  function StepIndent(line: string): nat {
    if Indent(line) < 2 then 0 else Indent(line) - 2
  }

  /** A candidate line that ends a block whose step has the given indent. */
  predicate Ends(rules: LineRules, indent: nat, candidate: string) {
    (Strip(candidate) != "" && Indent(candidate) < indent) || rules.isNamedStep(indent, candidate)
  }

  /** A block of lines, `start` included and `end` excluded. */
  datatype Span = Span(start: nat, end: nat)

  /** Leading white space counts as indent, all of a blank line included. */
  lemma IndentIs(line: string, column: nat)
    requires column <= |line| && forall k :: 0 <= k < column ==> IsSpace(line[k])
    requires column < |line| ==> !IsSpace(line[column])
    ensures Indent(line) == column
  {
    LStripMeans(line);
    var rest := LStrip(line);
    assert rest != "" ==> rest[0] == line[|line| - |rest|];
  }

  /** A step stands two columns left of its `uses:`, or at the margin. */
  lemma StepIndentIs(line: string)
    ensures Indent(line) >= 2 ==> StepIndent(line) == Indent(line) - 2
    ensures Indent(line) < 2 ==> StepIndent(line) == 0
  {
  }

  /** A line ends a block when something solid stands left of the step, or another named step starts there. */
  lemma EndsIff(rules: LineRules, indent: nat, candidate: string)
    ensures Ends(rules, indent, candidate) <==>
            || rules.isNamedStep(indent, candidate)
            || exists k :: 0 <= k < |candidate| && k < indent && !IsSpace(candidate[k])
  {
    LStripMeans(candidate);
    var rest := LStrip(candidate);
    var n := |candidate| - |rest|;
    if rest == "" {
      StripAllSpace(candidate);
    } else {
      assert candidate[n] == rest[0];
      SolidIsNotBlank(candidate, n);
    }
  }

  lemma SolidIsNotBlank(s: string, k: nat)
    requires k < |s| && !IsSpace(s[k])
    ensures Strip(s) != ""
  {
    var before, after := StripRemovesSpace(s);
  }

  /** `"\n".join(lines)` */
  function JoinLines(lines: seq<string>): string {
    if lines == [] then "" else if |lines| == 1 then lines[0] else lines[0] + "\n" + JoinLines(lines[1..])
  }

  /** Lines are joined by line feeds. */
  lemma {:induction false} JoinedByLineFeeds(a: seq<string>, b: seq<string>)
    requires a != [] && b != []
    ensures JoinLines(a + b) == JoinLines(a) + "\n" + JoinLines(b)
  {
    assert (a + b)[1..] == a[1..] + b;
    if |a| == 1 {
      assert a[1..] + b == b;
    } else {
      JoinedByLineFeeds(a[1..], b);
    }
  }

  /** The texts of a list of spans. */
  function Texts(lines: seq<string>, spans: seq<Span>): seq<string>
    requires forall k :: 0 <= k < |spans| ==> spans[k].start <= spans[k].end <= |lines|
  {
    seq(|spans|, k requires 0 <= k < |spans| => JoinLines(lines[spans[k].start..spans[k].end]))
  }

  /** Span by span, in order. */
  lemma TextsAre(lines: seq<string>, spans: seq<Span>, k: nat)
    requires forall j :: 0 <= j < |spans| ==> spans[j].start <= spans[j].end <= |lines|
    requires k < |spans|
    ensures |Texts(lines, spans)| == |spans|
    ensures Texts(lines, spans)[k] == JoinLines(lines[spans[k].start..spans[k].end])
  {
  }

  /** One block from an upload line: nothing inside ends it, and it stops at the file's end or at a line that does. */
  predicate IsBlock(rules: LineRules, lines: seq<string>, b: Span) {
    && b.start < b.end <= |lines|
    && rules.isUpload(lines[b.start])
    && (forall j :: b.start < j < b.end ==> !Ends(rules, StepIndent(lines[b.start]), lines[j]))
    && (b.end < |lines| ==> Ends(rules, StepIndent(lines[b.start]), lines[b.end]))
  }

  predicate InBlock(b: Span, line: nat) {
    b.start <= line < b.end
  }

  predicate Covered(spans: seq<Span>, line: nat) {
    exists k :: 0 <= k < |spans| && InBlock(spans[k], line)
  }

  /**
    What the segmenter promises for the lines from `i` on: maximal blocks, in order
    and apart, that together hold every upload line.
   */
  predicate Segmentation(rules: LineRules, lines: seq<string>, i: nat, spans: seq<Span>) {
    && (forall k :: 0 <= k < |spans| ==> i <= spans[k].start && IsBlock(rules, lines, spans[k]))
    && (forall k, m :: 0 <= k < m < |spans| ==> spans[k].end <= spans[m].start)
    && (forall u {:trigger Covered(spans, u)} :: i <= u < |lines| && rules.isUpload(lines[u]) ==> Covered(spans, u))
  }

  /** The same promise for the lines before `i`. */
  predicate CutUpTo(rules: LineRules, lines: seq<string>, i: nat, spans: seq<Span>)
    requires i <= |lines|
  {
    && (forall k :: 0 <= k < |spans| ==> spans[k].end <= i && IsBlock(rules, lines, spans[k]))
    && (forall k, m :: 0 <= k < m < |spans| ==> spans[k].end <= spans[m].start)
    && (forall u {:trigger Covered(spans, u)} :: 0 <= u < i && rules.isUpload(lines[u]) ==> Covered(spans, u))
  }

  lemma AddBlock(rules: LineRules, lines: seq<string>, spans: seq<Span>, b: Span)
    requires b.start < b.end <= |lines|
    requires CutUpTo(rules, lines, b.start, spans) && IsBlock(rules, lines, b)
    ensures CutUpTo(rules, lines, b.end, spans + [b])
  {
    var more := spans + [b];
    forall u | 0 <= u < b.end && rules.isUpload(lines[u]) ensures Covered(more, u) {
      if u < b.start {
        assert Covered(spans, u);
        var k :| 0 <= k < |spans| && InBlock(spans[k], u);
        assert more[k] == spans[k];
      } else {
        assert InBlock(more[|spans|], u);
      }
    }
  }

  lemma TextsOfOneMore(lines: seq<string>, spans: seq<Span>, b: Span)
    requires forall k :: 0 <= k < |spans| ==> spans[k].start <= spans[k].end <= |lines|
    requires b.start <= b.end <= |lines|
    ensures Texts(lines, spans + [b]) == Texts(lines, spans) + [JoinLines(lines[b.start..b.end])]
  {
  }

  /** The segmenter as the source runs it: two nested loops that advance the same index. */
  method UploadStepBlocks(rules: LineRules, lines: seq<string>) returns (blocks: seq<string>)
    ensures exists spans :: Segmentation(rules, lines, 0, spans) && blocks == Texts(lines, spans)
  {
    blocks := [];
    ghost var spans: seq<Span> := [];
    var i := 0;
    while i < |lines|
      invariant 0 <= i <= |lines|
      invariant CutUpTo(rules, lines, i, spans)
      invariant blocks == Texts(lines, spans)
      decreases |lines| - i
    {
      var line := lines[i];
      if !rules.isUpload(line) {
        i := i + 1;
        continue;
      }
      ghost var start := i;
      var stepIndent := StepIndent(line);
      var blockLines := [line];
      i := i + 1;
      while i < |lines|
        invariant start < i <= |lines|
        invariant blockLines == lines[start..i]
        invariant forall j :: start < j < i ==> !Ends(rules, stepIndent, lines[j])
        invariant CutUpTo(rules, lines, start, spans)
        decreases |lines| - i
      {
        var candidate := lines[i];
        if Ends(rules, stepIndent, candidate) {
          break;
        }
        blockLines := blockLines + [candidate];
        i := i + 1;
      }
      AddBlock(rules, lines, spans, Span(start, i));
      TextsOfOneMore(lines, spans, Span(start, i));
      blocks := blocks + [JoinLines(blockLines)];
      spans := spans + [Span(start, i)];
    }
    assert Segmentation(rules, lines, 0, spans);
  }

  /** The blocks are apart, so an upload line lies in exactly one of them. */
  lemma InExactlyOneBlock(rules: LineRules, lines: seq<string>, spans: seq<Span>, u: nat, k: nat, m: nat)
    requires Segmentation(rules, lines, 0, spans)
    requires k < |spans| && m < |spans| && InBlock(spans[k], u) && InBlock(spans[m], u)
    ensures k == m
  {
  }

  /** Two blocks that start on the same line are the same block. */
  lemma BlockEndUnique(rules: LineRules, lines: seq<string>, a: Span, b: Span)
    requires IsBlock(rules, lines, a) && IsBlock(rules, lines, b) && a.start == b.start
    ensures a == b
  {
  }

  /** The blocks after the first, for the lines after it. */
  lemma SegmentationTail(rules: LineRules, lines: seq<string>, i: nat, spans: seq<Span>)
    requires Segmentation(rules, lines, i, spans) && spans != []
    ensures Segmentation(rules, lines, spans[0].end, spans[1..])
  {
    forall u | spans[0].end <= u < |lines| && rules.isUpload(lines[u])
      ensures Covered(spans[1..], u)
    {
      TailHolds(rules, lines, i, spans, u);
    }
  }

  lemma TailHolds(rules: LineRules, lines: seq<string>, i: nat, spans: seq<Span>, u: nat)
    requires Segmentation(rules, lines, i, spans) && spans != []
    requires spans[0].end <= u < |lines| && rules.isUpload(lines[u])
    ensures Covered(spans[1..], u)
  {
    assert Covered(spans, u);
    var k :| 0 <= k < |spans| && InBlock(spans[k], u);
    assert spans[1..][k - 1] == spans[k];
  }

  /** The first block starts at the first upload line. */
  lemma FirstStart(rules: LineRules, lines: seq<string>, i: nat, a: seq<Span>, b: seq<Span>)
    requires Segmentation(rules, lines, i, a) && Segmentation(rules, lines, i, b) && a != []
    ensures b != [] && b[0].start <= a[0].start
  {
    var u := a[0].start;
    assert IsBlock(rules, lines, a[0]);
    assert Covered(b, u);
    var k :| 0 <= k < |b| && InBlock(b[k], u);
    if k > 0 {
      assert b[0].end <= b[k].start && IsBlock(rules, lines, b[0]);
    }
  }

  lemma SameFirst(rules: LineRules, lines: seq<string>, i: nat, a: seq<Span>, b: seq<Span>)
    requires Segmentation(rules, lines, i, a) && Segmentation(rules, lines, i, b) && a != []
    ensures b != [] && a[0] == b[0]
  {
    FirstStart(rules, lines, i, a, b);
    FirstStart(rules, lines, i, b, a);
    assert IsBlock(rules, lines, a[0]) && IsBlock(rules, lines, b[0]);
    BlockEndUnique(rules, lines, a[0], b[0]);
  }

  /** The promise determines the blocks: there is no other way to cut the lines. */
  lemma {:induction false} SegmentationUnique(rules: LineRules, lines: seq<string>, i: nat, a: seq<Span>, b: seq<Span>)
    requires Segmentation(rules, lines, i, a) && Segmentation(rules, lines, i, b)
    ensures a == b
    decreases |a|
  {
    if a == [] {
      if b != [] {
        SameFirst(rules, lines, i, b, a);
      }
    } else {
      SameFirst(rules, lines, i, a, b);
      SegmentationTail(rules, lines, i, a);
      SegmentationTail(rules, lines, i, b);
      SegmentationUnique(rules, lines, a[0].end, a[1..], b[1..]);
      assert a == [a[0]] + a[1..];
      assert b == [b[0]] + b[1..];
    }
  }
}
