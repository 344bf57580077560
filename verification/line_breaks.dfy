/** `fix_line_breaks`: the line-merging rewrite applied to text extracted from
    PDFs. A line is glued to the next one, with a single space, when it does
    not end in sentence punctuation and the next line starts with a
    lowercase letter; a line consumed that way is never merged onward.

    Every line is stripped before it is looked at, so the rewrite is defined
    on the stripped lines `StripAll(text.split("\n"))`.
 */
module LineBreaks {
  import opened Text

  /** The regular expression `[.!?;:\)]$` on an already stripped line. */
  predicate EndsWithPunctuation(line: string) {
    |line| > 0 && line[|line| - 1] in ".!?;:)"
  }

  /** The merge test, on the stripped current and next lines. */
  predicate Mergeable(line: string, next: string) {
    !EndsWithPunctuation(line) && |next| > 0 && IsLower(next[0])
  }

  /** How many stripped lines the first output line consumes. */
  function Width(ls: seq<string>): (w: nat)
    requires |ls| > 0
    ensures 1 <= w <= 2 && w <= |ls|
  {
    if |ls| >= 2 && Mergeable(ls[0], ls[1]) then 2 else 1
  }

  /** The first output line: the first stripped line, merged with the
      second one when they are mergeable. */
  function FirstOutput(ls: seq<string>): string
    requires |ls| > 0
  {
    if Width(ls) == 2 then ls[0] + " " + ls[1] else ls[0]
  }

  /** Reference definition of the merged line list, on stripped lines. */
  function MergeStripped(ls: seq<string>): seq<string>
    decreases |ls|
  {
    if |ls| == 0 then [] else [FirstOutput(ls)] + MergeStripped(ls[Width(ls)..])
  }

  /** The merged lines of the raw `lines`. */
  function MergeLines(lines: seq<string>): seq<string> {
    MergeStripped(StripAll(lines))
  }

  /** `fix_line_breaks(text)`. */
  function FixLineBreaks(text: string): string {
    Join("\n", MergeLines(Split(text, '\n')))
  }

  lemma SuffixOfSuffix<T>(xs: seq<T>, i: nat, w: nat)
    requires i + w <= |xs|
    ensures xs[i..][w..] == xs[i + w..]
  {
  }

  lemma AppendAssoc<T>(a: seq<T>, x: T, b: seq<T>)
    ensures (a + [x]) + b == a + ([x] + b)
  {
  }

  /** The reference definition unfolded once at index `i`. */
  lemma MergeStrippedAt(ls: seq<string>, i: nat)
    requires i < |ls|
    ensures MergeStripped(ls[i..]) == [FirstOutput(ls[i..])] + MergeStripped(ls[i + Width(ls[i..])..])
  {
    SuffixOfSuffix(ls, i, Width(ls[i..]));
  }

  /** The loop body at index `i` computes the first output line of the
      suffix `ls[i..]` and skips exactly the lines that line consumed. */
  lemma MergeStepAt(ls: seq<string>, i: nat)
    requires i < |ls|
    ensures var merges := i < |ls| - 1 && Mergeable(ls[i], ls[i + 1]);
      && Width(ls[i..]) == (if merges then 2 else 1)
      && FirstOutput(ls[i..]) == (if merges then ls[i] + " " + ls[i + 1] else ls[i])
  {
    var suffix := ls[i..];
    assert suffix[0] == ls[i];
    assert |suffix| >= 2 ==> suffix[1] == ls[i + 1];
  }

  /** The source's loop over line indices with its `skip_next` flag. */
  method MergeLinesLoop(lines: seq<string>) returns (merged: seq<string>)
    ensures merged == MergeLines(lines)
  {
    ghost var ls := StripAll(lines);
    merged := [];
    var skipNext := false;
    var i := 0;
    while i < |lines|
      invariant 0 <= i <= |lines|
      invariant skipNext ==> i < |lines|
      invariant !skipNext ==> merged + MergeStripped(ls[i..]) == MergeStripped(ls)
      invariant skipNext ==> merged + MergeStripped(ls[i + 1..]) == MergeStripped(ls)
    {
      if skipNext {
        skipNext := false;
        i := i + 1;
        continue;
      }
      MergeStepAt(ls, i);
      MergeStrippedAt(ls, i);
      AppendAssoc(merged, FirstOutput(ls[i..]), MergeStripped(ls[i + Width(ls[i..])..]));
      var line := Strip(lines[i]);
      if i < |lines| - 1 {
        var next := Strip(lines[i + 1]);
        if Mergeable(line, next) {
          line := line + " " + next;
          skipNext := true;
        }
      }
      merged := merged + [line];
      i := i + 1;
    }
    assert ls[i..] == [];
  }

  /** Each output line consumes one or two input lines:
      `ceil(n / 2) <= |MergeStripped(ls)| <= n`. */
  lemma {:induction false} MergeLinesCount(ls: seq<string>)
    ensures (|ls| + 1) / 2 <= |MergeStripped(ls)| <= |ls|
    decreases |ls|
  {
    if |ls| > 0 {
      MergeLinesCount(ls[Width(ls)..]);
    }
  }

  /** The index of the input line each output line starts at. */
  function Origins(ls: seq<string>): seq<nat>
    decreases |ls|
  {
    if |ls| == 0 then [] else [0] + Shift(Origins(ls[Width(ls)..]), Width(ls))
  }

  function Shift(xs: seq<nat>, d: nat): (r: seq<nat>)
    ensures |r| == |xs|
    ensures forall k :: 0 <= k < |xs| ==> r[k] == xs[k] + d
  {
    if xs == [] then [] else [xs[0] + d] + Shift(xs[1..], d)
  }

  /** Where the group of input lines after the one starting output line `k` begins. */
  function GroupEnd(origins: seq<nat>, k: nat, n: nat): nat
    requires k < |origins|
  {
    if k + 1 < |origins| then origins[k + 1] else n
  }

  /** Output line `out` is produced from the group of stripped lines `[s, e)`:
      either the single line `s`, which does not merge with its successor,
      or line `s` merged with line `s + 1`. */
  predicate Produces(ls: seq<string>, s: nat, e: nat, out: string)
    requires s < |ls|
  {
    || (e == s + 1 && out == ls[s] && (s + 1 < |ls| ==> !Mergeable(ls[s], ls[s + 1])))
    || (e == s + 2 && s + 1 < |ls| && Mergeable(ls[s], ls[s + 1]) && out == ls[s] + " " + ls[s + 1])
  }

  /** The output lines partition the input lines into consecutive groups of
      one or two, starting at line 0 and ending at the last line; a group has
      two lines exactly when its first line merges with the second. So a
      line consumed by a merge is neither emitted nor merged onward, and the
      last line never merges forward. */
  lemma {:induction false} MergeLinesGroups(ls: seq<string>)
    ensures var out := MergeStripped(ls); var o := Origins(ls);
      && |o| == |out|
      && (|ls| > 0 ==> |o| > 0 && o[0] == 0)
      && (forall k :: 0 <= k < |o| ==> o[k] < |ls|)
      && (forall k :: 0 <= k < |o| ==> Produces(ls, o[k], GroupEnd(o, k, |ls|), out[k]))
    decreases |ls|
  {
    if |ls| > 0 {
      var rest := ls[Width(ls)..];
      MergeLinesGroups(rest);
      HeadGroup(ls);
      forall k | 1 <= k < |Origins(ls)|
        ensures Origins(ls)[k] < |ls|
        ensures Produces(ls, Origins(ls)[k], GroupEnd(Origins(ls), k, |ls|), MergeStripped(ls)[k])
      {
        ShiftedGroup(ls, k);
      }
    }
  }

  /** A non-empty list of origins starts at line 0. */
  lemma OriginsStartAtZero(ls: seq<string>)
    requires |Origins(ls)| > 0
    ensures Origins(ls)[0] == 0
  {
  }

  /** The first group starts at line 0 and produces the first output line. */
  lemma HeadGroup(ls: seq<string>)
    requires |ls| > 0
    ensures |Origins(ls)| == 1 + |Origins(ls[Width(ls)..])|
    ensures |MergeStripped(ls)| == 1 + |MergeStripped(ls[Width(ls)..])|
    ensures Origins(ls)[0] == 0
    ensures Produces(ls, 0, GroupEnd(Origins(ls), 0, |ls|), MergeStripped(ls)[0])
  {
    var o := Origins(ls);
    var rest := ls[Width(ls)..];
    var ro := Origins(rest);
    assert GroupEnd(o, 0, |ls|) == Width(ls) by {
      if |ro| > 0 {
        OriginsStartAtZero(rest);
        assert o[1] == ro[0] + Width(ls);
      }
    }
  }

  /** A group of a suffix is a group of the whole list, shifted. */
  lemma ProducesShift(ls: seq<string>, d: nat, s: nat, e: nat, out: string)
    requires d <= |ls| && s < |ls| - d
    requires Produces(ls[d..], s, e, out)
    ensures Produces(ls, s + d, e + d, out)
  {
    assert ls[d..][s] == ls[s + d];
    assert s + 1 < |ls| - d ==> ls[d..][s + 1] == ls[s + d + 1];
  }

  /** One step of `MergeLinesGroups`: a group of the remainder, shifted by
      the width of the first group, is a group of the whole. */
  lemma ShiftedGroup(ls: seq<string>, k: nat)
    requires |ls| > 0
    requires var rest := ls[Width(ls)..]; var ro := Origins(rest);
      && |ro| == |MergeStripped(rest)|
      && (forall j :: 0 <= j < |ro| ==> ro[j] < |rest|)
      && (forall j :: 0 <= j < |ro| ==> Produces(rest, ro[j], GroupEnd(ro, j, |rest|), MergeStripped(rest)[j]))
    requires 1 <= k < |Origins(ls)|
    ensures Origins(ls)[k] < |ls|
    ensures Produces(ls, Origins(ls)[k], GroupEnd(Origins(ls), k, |ls|), MergeStripped(ls)[k])
  {
    var d := Width(ls);
    var rest := ls[d..];
    var ro := Origins(rest);
    TailIndexes(ls, k);
    ProducesShift(ls, d, ro[k - 1], GroupEnd(ro, k - 1, |rest|), MergeStripped(rest)[k - 1]);
  }

  /** Output line `k >= 1` of `ls` is output line `k - 1` of what follows
      the first group, with its origins shifted by the group's width. */
  lemma TailIndexes(ls: seq<string>, k: nat)
    requires |ls| > 0
    requires |Origins(ls[Width(ls)..])| == |MergeStripped(ls[Width(ls)..])|
    requires 1 <= k < |Origins(ls)|
    ensures var d := Width(ls); var rest := ls[d..]; var ro := Origins(rest);
      && k - 1 < |ro| && k < |MergeStripped(ls)|
      && Origins(ls)[k] == ro[k - 1] + d
      && MergeStripped(ls)[k] == MergeStripped(rest)[k - 1]
      && GroupEnd(Origins(ls), k, |ls|) == GroupEnd(ro, k - 1, |rest|) + d
  {
  }

  /** A stripped line ending in `. ! ? ; : )` is emitted on its own. */
  lemma PunctuatedLineNeverMerged(ls: seq<string>, k: nat)
    requires k < |MergeStripped(ls)|
    ensures var o := Origins(ls);
      k < |o| && o[k] < |ls|
      && (EndsWithPunctuation(ls[o[k]]) ==> MergeStripped(ls)[k] == ls[o[k]])
  {
    MergeLinesGroups(ls);
  }

  /** A single line is emitted as it is. */
  lemma MergeSingle(x: string)
    ensures MergeStripped([x]) == [x]
  {
    assert Width([x]) == 1;
    assert [x][1..] == [];
  }

  /** Text without a line break comes back stripped. */
  lemma NoLineBreakIsStripped(text: string)
    requires '\n' !in text
    ensures FixLineBreaks(text) == Strip(text)
  {
    SplitNoSeparator(text, '\n');
    assert StripAll([text]) == [Strip(text)];
    MergeSingle(Strip(text));
  }

  lemma {:induction false} MergedLinesHaveNoBreak(ls: seq<string>)
    requires forall k :: 0 <= k < |ls| ==> '\n' !in ls[k]
    ensures forall k :: 0 <= k < |MergeStripped(ls)| ==> '\n' !in MergeStripped(ls)[k]
    decreases |ls|
  {
    if |ls| > 0 {
      var rest := ls[Width(ls)..];
      MergedLinesHaveNoBreak(rest);
      assert '\n' !in FirstOutput(ls);
      assert MergeStripped(ls) == [FirstOutput(ls)] + MergeStripped(rest);
    }
  }

  /** The pieces of a split on `'\n'`, once stripped, hold no line break. */
  lemma StrippedPiecesHaveNoBreak(text: string)
    ensures forall k :: 0 <= k < |StripAll(Split(text, '\n'))| ==> '\n' !in StripAll(Split(text, '\n'))[k]
  {
    var pieces := Split(text, '\n');
    forall k | 0 <= k < |pieces|
      ensures '\n' !in StripAll(pieces)[k]
    {
      StripKeepsOut(pieces[k], '\n');
    }
  }

  /** The rewritten text has between `ceil(n / 2)` and `n` lines when the input has `n`. */
  lemma FixLineBreaksLineCount(text: string)
    ensures var n := |Split(text, '\n')|;
      var m := |Split(FixLineBreaks(text), '\n')|;
      (n + 1) / 2 <= m <= n
  {
    var ls := StripAll(Split(text, '\n'));
    MergeLinesCount(ls);
    StrippedPiecesHaveNoBreak(text);
    MergedLinesHaveNoBreak(ls);
    SplitJoin(MergeStripped(ls), '\n');
  }
}
