/** The tail of `extract_text_from_docx`: the collected text fragments
    (non-blank paragraphs, then non-blank `<w:t>` runs from the document's
    XML parts) are stripped, de-duplicated in first-occurrence order and
    joined with newlines.
 */
module DocxText {
  import opened Text

  predicate Distinct(xs: seq<string>) {
    forall k, l :: 0 <= k < l < |xs| ==> xs[k] != xs[l]
  }

  /** The fragments whose stripped text is non-empty (`if text.strip():`),
      in their original order. */
  function NonBlank(xs: seq<string>): (r: seq<string>)
    ensures forall x :: x in r <==> x in xs && Strip(x) != ""
  {
    if xs == [] then []
    else
      var rest := NonBlank(xs[1..]);
      assert forall x :: x in xs <==> x == xs[0] || x in xs[1..];
      if Strip(xs[0]) != "" then [xs[0]] + rest else rest
  }

  /** Filtering distributes over concatenation: the paragraphs' fragments
      come first, and each list keeps its own order. */
  lemma {:induction false} NonBlankConcat(xs: seq<string>, ys: seq<string>)
    ensures NonBlank(xs + ys) == NonBlank(xs) + NonBlank(ys)
  {
    if xs == [] {
      assert xs + ys == ys;
    } else {
      var zs := xs + ys;
      assert zs[0] == xs[0] && zs[1..] == xs[1..] + ys;
      NonBlankConcat(xs[1..], ys);
    }
  }

  /** One fragment is kept exactly when its stripped text is non-empty;
      with `NonBlankConcat` this is the source's append-if loop. */
  lemma NonBlankAppend(xs: seq<string>, x: string)
    ensures NonBlank(xs + [x]) == NonBlank(xs) + (if Strip(x) != "" then [x] else [])
  {
    NonBlankConcat(xs, [x]);
    var one := NonBlank([x]);
    assert [x][1..] == [];
    assert NonBlank([x][1..]) == [];
    assert one == if Strip(x) != "" then [x] else [];
  }

  /** Reference definition: the first occurrence of each line, in order. */
  function Dedupe(xs: seq<string>): seq<string> {
    if xs == [] then []
    else
      var front := Dedupe(xs[..|xs| - 1]);
      var x := xs[|xs| - 1];
      if x in front then front else front + [x]
  }

  /** De-duplication keeps every line and invents none. */
  lemma {:induction false} DedupeMembers(xs: seq<string>)
    ensures forall x :: x in Dedupe(xs) <==> x in xs
  {
    if xs != [] {
      var front := xs[..|xs| - 1];
      DedupeMembers(front);
      assert xs == front + [xs[|xs| - 1]];
    }
  }

  /** No line occurs twice after de-duplication. */
  lemma {:induction false} DedupeDistinct(xs: seq<string>)
    ensures Distinct(Dedupe(xs))
  {
    if xs != [] {
      var front := xs[..|xs| - 1];
      var x := xs[|xs| - 1];
      DedupeDistinct(front);
      if x !in Dedupe(front) {
        var r := Dedupe(front) + [x];
        assert forall k :: 0 <= k < |r| - 1 ==> r[k] == Dedupe(front)[k];
      }
    }
  }

  /** The position of the first occurrence of `x` in `xs`. */
  function FirstIndex(xs: seq<string>, x: string): (i: nat)
    requires x in xs
    ensures i < |xs| && xs[i] == x
    ensures forall m :: 0 <= m < i ==> xs[m] != x
  {
    if xs[0] == x then 0 else FirstIndex(xs[1..], x) + 1
  }

  lemma FirstIndexOfPrefix(xs: seq<string>, x: string, y: string)
    requires x in xs
    ensures FirstIndex(xs + [y], x) == FirstIndex(xs, x)
  {
    var i := FirstIndex(xs, x);
    assert (xs + [y])[i] == x;
    assert forall m :: 0 <= m < i ==> (xs + [y])[m] != x;
  }

  lemma FirstIndexOfNew(xs: seq<string>, x: string)
    requires x !in xs
    ensures FirstIndex(xs + [x], x) == |xs|
  {
    assert forall m :: 0 <= m < |xs| ==> (xs + [x])[m] != x;
  }

  /** `r` holds lines of `xs` in the order of their first occurrences in `xs`. */
  predicate InFirstOccurrenceOrder(xs: seq<string>, r: seq<string>) {
    && (forall k :: 0 <= k < |r| ==> r[k] in xs)
    && (forall k, l :: 0 <= k < l < |r| ==> FirstIndex(xs, r[k]) < FirstIndex(xs, r[l]))
  }

  /** Lines of `front` keep their first positions when a line is appended. */
  lemma FirstIndicesKept(front: seq<string>, x: string, r: seq<string>)
    requires forall k :: 0 <= k < |r| ==> r[k] in front
    ensures forall k :: 0 <= k < |r| ==> FirstIndex(front + [x], r[k]) == FirstIndex(front, r[k]) < |front|
  {
    forall k | 0 <= k < |r|
      ensures FirstIndex(front + [x], r[k]) == FirstIndex(front, r[k]) < |front|
    {
      FirstIndexOfPrefix(front, r[k], x);
    }
  }

  /** Appending a line already seen keeps the order. */
  lemma OrderKept(front: seq<string>, x: string, r: seq<string>)
    requires InFirstOccurrenceOrder(front, r)
    ensures InFirstOccurrenceOrder(front + [x], r)
  {
    FirstIndicesKept(front, x, r);
  }

  /** Appending a new line and keeping it at the end keeps the order. */
  lemma OrderAppended(front: seq<string>, x: string, r: seq<string>)
    requires InFirstOccurrenceOrder(front, r)
    requires x !in front
    ensures InFirstOccurrenceOrder(front + [x], r + [x])
  {
    var xs := front + [x];
    var r2 := r + [x];
    FirstIndicesKept(front, x, r);
    FirstIndexOfNew(front, x);
    forall k, l | 0 <= k < l < |r2|
      ensures FirstIndex(xs, r2[k]) < FirstIndex(xs, r2[l])
    {
      if l < |r| {
        assert r2[k] == r[k] && r2[l] == r[l];
      } else {
        assert r2[k] == r[k] && r2[l] == x;
      }
    }
  }

  /** The kept lines appear in the order of their first occurrences. */
  lemma {:induction false} DedupeKeepsFirstOccurrenceOrder(xs: seq<string>)
    ensures InFirstOccurrenceOrder(xs, Dedupe(xs))
  {
    if xs != [] {
      var front := xs[..|xs| - 1];
      var x := xs[|xs| - 1];
      assert xs == front + [x];
      DedupeKeepsFirstOccurrenceOrder(front);
      if x in Dedupe(front) {
        OrderKept(front, x, Dedupe(front));
      } else {
        DedupeMembers(front);
        OrderAppended(front, x, Dedupe(front));
      }
    }
  }

  /** Extending the input by one line extends the de-duplicated list
      exactly when that line is new. */
  lemma DedupeStep(ys: seq<string>, i: nat)
    requires i < |ys|
    ensures Dedupe(ys[..i + 1])
      == if ys[i] in Dedupe(ys[..i]) then Dedupe(ys[..i]) else Dedupe(ys[..i]) + [ys[i]]
  {
    assert ys[..i + 1][..i] == ys[..i];
  }

  /** The stripped, de-duplicated fragments contain every stripped fragment
      and nothing else, and each of them is itself stripped. */
  lemma DedupeLinesCover(parts: seq<string>)
    ensures forall i :: 0 <= i < |parts| ==> Strip(parts[i]) in Dedupe(StripAll(parts))
    ensures forall x :: x in Dedupe(StripAll(parts)) <==> x in StripAll(parts)
    ensures forall x :: x in Dedupe(StripAll(parts)) ==> Strip(x) == x
  {
    var stripped := StripAll(parts);
    DedupeMembers(stripped);
    forall i | 0 <= i < |parts|
      ensures Strip(parts[i]) in stripped
    {
      assert stripped[i] == Strip(parts[i]);
    }
    forall x | x in stripped
      ensures Strip(x) == x
    {
      var i := FirstIndex(stripped, x);
      StripIdempotent(parts[i]);
    }
  }

  /** One iteration of the loop below keeps the `seen` set equal to the
      lines kept so far and the kept lines equal to the reference. */
  lemma UniqueLinesStep(ys: seq<string>, i: nat, kept: seq<string>, seen: set<string>)
    requires i < |ys|
    requires kept == Dedupe(ys[..i])
    requires forall x :: x in seen <==> x in kept
    ensures ys[i] in seen ==> kept == Dedupe(ys[..i + 1])
    ensures ys[i] !in seen ==> kept + [ys[i]] == Dedupe(ys[..i + 1])
    ensures forall x :: x in seen + {ys[i]} <==> x in kept + [ys[i]]
  {
    DedupeStep(ys, i);
  }

  /** The source's loop with its `seen` set. */
  method UniqueLines(textParts: seq<string>) returns (uniqueLines: seq<string>)
    ensures uniqueLines == Dedupe(StripAll(textParts))
    ensures Distinct(uniqueLines)
  {
    ghost var stripped := StripAll(textParts);
    uniqueLines := [];
    var seen: set<string> := {};
    var i := 0;
    while i < |textParts|
      invariant 0 <= i <= |textParts|
      invariant uniqueLines == Dedupe(stripped[..i])
      invariant forall x :: x in seen <==> x in uniqueLines
    {
      var line := Strip(textParts[i]);
      assert line == stripped[i];
      UniqueLinesStep(stripped, i, uniqueLines, seen);
      if line !in seen {
        seen := seen + {line};
        uniqueLines := uniqueLines + [line];
      }
      i := i + 1;
    }
    assert stripped[..i] == stripped;
    DedupeDistinct(stripped);
  }

  /** The text `extract_text_from_docx` returns for the paragraph texts and the
      XML text runs it collected, in collection order. */
  function DocxDocumentText(paragraphs: seq<string>, xmlRuns: seq<string>): string {
    Join("\n", Dedupe(StripAll(NonBlank(paragraphs) + NonBlank(xmlRuns))))
  }

  lemma StrippedIn(parts: seq<string>, x: string)
    requires x in parts
    ensures Strip(x) in StripAll(parts)
  {
    var j := FirstIndex(parts, x);
    assert StripAll(parts)[j] == Strip(x);
  }

  /** The stripped text of a non-blank fragment of either list is among
      the stripped fragments of their concatenation. */
  lemma NonBlankStrippedIn(paragraphs: seq<string>, xmlRuns: seq<string>)
    ensures var stripped := StripAll(NonBlank(paragraphs) + NonBlank(xmlRuns));
      && (forall i :: 0 <= i < |paragraphs| && Strip(paragraphs[i]) != "" ==> Strip(paragraphs[i]) in stripped)
      && (forall i :: 0 <= i < |xmlRuns| && Strip(xmlRuns[i]) != "" ==> Strip(xmlRuns[i]) in stripped)
  {
    var parts := NonBlank(paragraphs) + NonBlank(xmlRuns);
    forall i | 0 <= i < |paragraphs| && Strip(paragraphs[i]) != ""
      ensures Strip(paragraphs[i]) in StripAll(parts)
    {
      StrippedIn(parts, paragraphs[i]);
    }
    forall i | 0 <= i < |xmlRuns| && Strip(xmlRuns[i]) != ""
      ensures Strip(xmlRuns[i]) in StripAll(parts)
    {
      StrippedIn(parts, xmlRuns[i]);
    }
  }

  /** No stripped fragment is empty when no fragment is blank. */
  lemma NoBlankLine(parts: seq<string>)
    requires forall k :: 0 <= k < |parts| ==> Strip(parts[k]) != ""
    ensures forall x :: x in StripAll(parts) ==> x != ""
  {
    forall x | x in StripAll(parts)
      ensures x != ""
    {
      var j := FirstIndex(StripAll(parts), x);
      assert Strip(parts[j]) != "";
    }
  }

  /** A kept fragment is one of the inputs. */
  lemma KeptFrom(xs: seq<string>, y: string) returns (i: nat)
    requires y in NonBlank(xs)
    ensures i < |xs| && xs[i] == y
  {
    i := FirstIndex(xs, y);
  }

  /** A stripped line of two lists put together comes from one of them. */
  lemma PartOf(front: seq<string>, back: seq<string>, x: string) returns (y: string, inFront: bool)
    requires x in StripAll(front + back)
    ensures Strip(y) == x
    ensures inFront ==> y in front
    ensures !inFront ==> y in back
  {
    var parts := front + back;
    var stripped := StripAll(parts);
    var j :| 0 <= j < |stripped| && stripped[j] == x;
    y := parts[j];
    assert Strip(y) == x;
    inFront := j < |front|;
    if inFront {
      assert y == front[j];
    } else {
      assert y == back[j - |front|];
    }
  }

  /** Every stripped fragment of the collected parts is the stripped text
      of a paragraph or of a text run; `i` points at it. */
  lemma StrippedFrom(paragraphs: seq<string>, xmlRuns: seq<string>, x: string) returns (inParagraphs: bool, i: nat)
    requires x in StripAll(NonBlank(paragraphs) + NonBlank(xmlRuns))
    ensures inParagraphs ==> i < |paragraphs| && Strip(paragraphs[i]) == x
    ensures !inParagraphs ==> i < |xmlRuns| && Strip(xmlRuns[i]) == x
  {
    var y;
    y, inParagraphs := PartOf(NonBlank(paragraphs), NonBlank(xmlRuns), x);
    if inParagraphs {
      i := KeptFrom(paragraphs, y);
    } else {
      i := KeptFrom(xmlRuns, y);
    }
  }

  /** `x` is the stripped text of a paragraph or of a text run. */
  predicate FromFragment(paragraphs: seq<string>, xmlRuns: seq<string>, x: string) {
    || (exists i :: 0 <= i < |paragraphs| && Strip(paragraphs[i]) == x)
    || (exists i :: 0 <= i < |xmlRuns| && Strip(xmlRuns[i]) == x)
  }

  /** Every line comes from a paragraph or a text run. */
  lemma LinesFromSomewhere(paragraphs: seq<string>, xmlRuns: seq<string>)
    ensures forall x :: x in Dedupe(StripAll(NonBlank(paragraphs) + NonBlank(xmlRuns))) ==>
      FromFragment(paragraphs, xmlRuns, x)
  {
    var stripped := StripAll(NonBlank(paragraphs) + NonBlank(xmlRuns));
    DedupeMembers(stripped);
    forall x | x in Dedupe(stripped)
      ensures FromFragment(paragraphs, xmlRuns, x)
    {
      var inParagraphs, i := StrippedFrom(paragraphs, xmlRuns, x);
      if inParagraphs {
        assert Strip(paragraphs[i]) == x;
      } else {
        assert Strip(xmlRuns[i]) == x;
      }
    }
  }

  /** Every line of the result is a non-empty stripped fragment of a
      paragraph or text run, no line repeats, every non-blank fragment is
      represented, and the lines keep the order in which their first
      fragments were collected. */
  lemma DocxDocumentLines(paragraphs: seq<string>, xmlRuns: seq<string>)
    ensures var stripped := StripAll(NonBlank(paragraphs) + NonBlank(xmlRuns));
      var lines := Dedupe(stripped);
      && Distinct(lines)
      && (forall x :: x in lines ==> x != "" && Strip(x) == x)
      && (forall x :: x in lines ==> FromFragment(paragraphs, xmlRuns, x))
      && (forall i :: 0 <= i < |paragraphs| && Strip(paragraphs[i]) != "" ==> Strip(paragraphs[i]) in lines)
      && (forall i :: 0 <= i < |xmlRuns| && Strip(xmlRuns[i]) != "" ==> Strip(xmlRuns[i]) in lines)
      && InFirstOccurrenceOrder(stripped, lines)
  {
    var parts := NonBlank(paragraphs) + NonBlank(xmlRuns);
    assert forall k :: 0 <= k < |parts| ==> Strip(parts[k]) != "";
    NoBlankLine(parts);
    DedupeLinesCover(parts);
    DedupeDistinct(StripAll(parts));
    NonBlankStrippedIn(paragraphs, xmlRuns);
    DedupeKeepsFirstOccurrenceOrder(StripAll(parts));
    LinesFromSomewhere(paragraphs, xmlRuns);
  }
}
