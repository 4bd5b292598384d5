/**
 Applying a list of text edits to one document (LSP 3.17, "Text Edit[]"): positions become offsets of
 the original text, overlapping edits are rejected by looking at neighbours after a sort, and the rest
 is spliced from right to left. The meaning is simultaneous substitution in the original text.
 */
module TextEdits {
  import opened Wrappers
  import opened Sequences
  import opened LineTables
  import opened Sorting

  datatype TextEdit = TextEdit(start: Position, end: Position, newText: string)

  /** An edit with its range as offsets and its place in the list of edits. */
  datatype OffsetEdit = OffsetEdit(start: int, end: int, newText: string, index: nat)

  datatype EditError =
    | BadStart(index: nat, startError: PositionError)
    | BadEnd(index: nat, endError: PositionError)
    | ReversedRange(index: nat)
    | OverlappingEdits

  // ---- From positions to offsets -----------------------------------------------------------------

  function ResolveEdit(lines: seq<LineBounds>, edit: TextEdit, index: nat): Result<OffsetEdit, EditError> {
    match PositionOffset(lines, edit.start)
    case Err(e) => Err(BadStart(index, e))
    case Ok(start) =>
      match PositionOffset(lines, edit.end)
      case Err(e) => Err(BadEnd(index, e))
      case Ok(end) =>
        if end < start then Err(ReversedRange(index)) else Ok(OffsetEdit(start, end, edit.newText, index))
  }

  function ResolveFrom(lines: seq<LineBounds>, edits: seq<TextEdit>, index: nat): Result<seq<OffsetEdit>, EditError>
    requires index <= |edits|
    decreases |edits| - index
  {
    if index == |edits| then
      Ok([])
    else
      match ResolveEdit(lines, edits[index], index)
      case Err(e) => Err(e)
      case Ok(first) =>
        match ResolveFrom(lines, edits, index + 1)
        case Err(e) => Err(e)
        case Ok(rest) => Ok([first] + rest)
  }

  function Resolve(content: string, edits: seq<TextEdit>): Result<seq<OffsetEdit>, EditError> {
    ResolveFrom(LineTable(content), edits, 0)
  }

  /** A position on a line of the table, no further than the end of the line. */
  predicate OnLine(lines: seq<LineBounds>, p: Position) {
    p.line < |lines| && lines[p.line].start + p.character <= lines[p.line].end
  }

  predicate Legal(lines: seq<LineBounds>, edit: TextEdit) {
    OnLine(lines, edit.start) && OnLine(lines, edit.end) && !Before(edit.end, edit.start)
  }

  /** The resolved edit says what the edit says, with the offsets of lines in place of their numbers. */
  ghost predicate Says(lines: seq<LineBounds>, edit: TextEdit, resolved: OffsetEdit, index: nat) {
    && Legal(lines, edit) && resolved.index == index && resolved.newText == edit.newText
    && resolved.start == lines[edit.start.line].start + edit.start.character
    && resolved.end == lines[edit.end.line].start + edit.end.character
  }

  ghost predicate SaysTheSame(lines: seq<LineBounds>, edits: seq<TextEdit>, resolved: seq<OffsetEdit>) {
    |resolved| == |edits| && forall i | 0 <= i < |edits| :: Says(lines, edits[i], resolved[i], i)
  }

  predicate WrongPosition(lines: seq<LineBounds>, p: Position, e: PositionError) {
    match e
    case LineOutOfBounds => p.line >= |lines|
    case CharacterOutOfBounds => p.line < |lines| && lines[p.line].start + p.character > lines[p.line].end
  }

  /** The error says what is wrong with one edit, its start before its end. */
  predicate WrongEdit(lines: seq<LineBounds>, edit: TextEdit, error: EditError) {
    match error
    case BadStart(_, e) => WrongPosition(lines, edit.start, e)
    case BadEnd(_, e) => OnLine(lines, edit.start) && WrongPosition(lines, edit.end, e)
    case ReversedRange(_) => OnLine(lines, edit.start) && OnLine(lines, edit.end) && Before(edit.end, edit.start)
    case OverlappingEdits => false
  }

  /** The error names the first edit that is not legal and says what is wrong with it. */
  ghost predicate FirstWrong(lines: seq<LineBounds>, edits: seq<TextEdit>, error: EditError) {
    && !error.OverlappingEdits? && error.index < |edits|
    && WrongEdit(lines, edits[error.index], error)
    && forall k | 0 <= k < error.index :: Legal(lines, edits[k])
  }

  /** The order of positions is the order of their offsets. */
  lemma OffsetsInOrder(content: string, lines: seq<LineBounds>, p: Position, q: Position)
    requires IsLineTable(content, lines) && OnLine(lines, p) && OnLine(lines, q)
    ensures Before(p, q) <==> lines[p.line].start + p.character < lines[q.line].start + q.character
    ensures lines[p.line].start + p.character <= |content|
  {
    assert IsLine(content, lines[p.line]);
    if p.line < q.line {
      LaterLinesStartLater(content, lines, p.line, q.line);
    } else if q.line < p.line {
      LaterLinesStartLater(content, lines, q.line, p.line);
    }
  }

  /** What one edit resolves to, said on lines and characters. */
  lemma ResolveEditMeans(content: string, lines: seq<LineBounds>, edit: TextEdit, index: nat)
    requires IsLineTable(content, lines)
    ensures match ResolveEdit(lines, edit, index)
            case Err(e) => !e.OverlappingEdits? && e.index == index && WrongEdit(lines, edit, e)
            case Ok(resolved) => Says(lines, edit, resolved, index)
    ensures ResolveEdit(lines, edit, index).Ok? <==> Legal(lines, edit)
  {
    if OnLine(lines, edit.start) && OnLine(lines, edit.end) {
      OffsetsInOrder(content, lines, edit.end, edit.start);
    }
  }

  lemma {:induction false} ResolveFromMeans(content: string, lines: seq<LineBounds>, edits: seq<TextEdit>, index: nat)
    requires IsLineTable(content, lines) && index <= |edits|
    requires forall k | 0 <= k < index :: Legal(lines, edits[k])
    ensures match ResolveFrom(lines, edits, index)
            case Err(e) => FirstWrong(lines, edits, e)
            case Ok(resolved) =>
              && |resolved| == |edits| - index
              && forall i | index <= i < |edits| :: Says(lines, edits[i], resolved[i - index], i)
    decreases |edits| - index
  {
    hide Legal, WrongEdit, Says, IsTableFrom, ResolveEdit;
    if index == |edits| {
    } else {
      ResolveEditMeans(content, lines, edits[index], index);
      if ResolveEdit(lines, edits[index], index).Ok? {
        ResolveFromMeans(content, lines, edits, index + 1);
        var r := ResolveFrom(lines, edits, index);
        if r.Ok? {
          forall i | index <= i < |edits| ensures Says(lines, edits[i], r.value[i - index], i) {
            assert i > index ==> r.value[i - index] == ResolveFrom(lines, edits, index + 1).value[i - (index + 1)];
          }
        }
      }
    }
  }

  /** Resolving a list on a table of its text: every edit keeps its meaning, or the first that is wrong is named. */
  lemma ResolveMeans(content: string, lines: seq<LineBounds>, edits: seq<TextEdit>)
    requires IsLineTable(content, lines)
    ensures match Resolve(content, edits)
            case Err(e) => FirstWrong(lines, edits, e)
            case Ok(resolved) => SaysTheSame(lines, edits, resolved)
  {
    LineTableIsTheTable(content, lines);
    hide ResolveFrom, LinesFrom, IsTableFrom, Says, FirstWrong;
    ResolveFromMeans(content, lines, edits, 0);
    var r := Resolve(content, edits);
    if r.Ok? {
      forall i | 0 <= i < |edits| ensures Says(lines, edits[i], r.value[i], i) {
        assert r.value[i] == r.value[i - 0];
      }
    }
  }

  /** Edits of a text of length `size`, in list order: the indices number them and the ranges are in the text. */
  ghost predicate WellFormed(edits: seq<OffsetEdit>, size: nat, first: nat) {
    forall i | 0 <= i < |edits| ::
      edits[i].index == first + i && 0 <= edits[i].start <= edits[i].end <= size
  }

  lemma ResolvedEditsAreWellFormed(
    content: string, lines: seq<LineBounds>, edits: seq<TextEdit>, resolved: seq<OffsetEdit>)
    requires IsLineTable(content, lines) && SaysTheSame(lines, edits, resolved)
    ensures WellFormed(resolved, |content|, 0)
  {
    hide IsTableFrom, Before;
    forall i | 0 <= i < |edits|
      ensures resolved[i].index == i && 0 <= resolved[i].start <= resolved[i].end <= |content|
    {
      assert Says(lines, edits[i], resolved[i], i);
      OffsetsInOrder(content, lines, edits[i].end, edits[i].start);
    }
  }

  // ---- Which lists are accepted ------------------------------------------------------------------

  predicate Ascending(left: OffsetEdit, right: OffsetEdit) {
    || left.start < right.start
    || (left.start == right.start && left.end > right.end)
    || (left.start == right.start && left.end == right.end && left.index <= right.index)
  }

  predicate Descending(left: OffsetEdit, right: OffsetEdit) {
    left.start > right.start || (left.start == right.start && left.index >= right.index)
  }

  /** Two edits that may stand in one list: apart from each other, or both insertions at one offset. */
  predicate Compatible(a: OffsetEdit, b: OffsetEdit) {
    || (a.start != b.start && (a.end <= b.start || b.end <= a.start))
    || a.start == a.end == b.start == b.end
  }

  ghost predicate PairwiseCompatible(edits: seq<OffsetEdit>) {
    forall a, b | a in edits && b in edits && a != b :: Compatible(a, b)
  }

  predicate NeighboursApart(sorted: seq<OffsetEdit>) {
    forall k | 1 <= k < |sorted| :: sorted[k].start >= sorted[k - 1].end
  }

  /** Looking at neighbours of the sorted list finds an overlap exactly when some two edits overlap. */
  lemma NeighbourCheckIsComplete(edits: seq<OffsetEdit>, size: nat)
    requires WellFormed(edits, size, 0)
    ensures NeighboursApart(Sort(edits, Ascending)) <==> PairwiseCompatible(edits)
  {
    hide Sort;
    var sorted := Sort(edits, Ascending);
    SortIsSorted(edits, Ascending);
    SortKeepsDistinct(edits, Ascending);
    forall e ensures e in sorted <==> e in edits {
      SortMembers(edits, Ascending, e);
    }
    if NeighboursApart(sorted) {
      forall a, b | a in edits && b in edits && a != b ensures Compatible(a, b) {
        assert a in sorted && b in sorted;
        var i :| 0 <= i < |sorted| && sorted[i] == a;
        var j :| 0 <= j < |sorted| && sorted[j] == b;
        if i < j {
          LaterIsApart(sorted, i, j);
        } else {
          LaterIsApart(sorted, j, i);
        }
      }
    }
    if PairwiseCompatible(edits) {
      forall k | 1 <= k < |sorted| ensures sorted[k].start >= sorted[k - 1].end {
        assert sorted[k] in sorted && sorted[k - 1] in sorted;
        assert Compatible(sorted[k], sorted[k - 1]);
        assert Ascending(sorted[k - 1], sorted[k]);
      }
    }
  }

  lemma {:induction false} LaterIsApart(sorted: seq<OffsetEdit>, i: nat, j: nat)
    requires SortedBy(sorted, Ascending) && NeighboursApart(sorted)
    requires forall e | e in sorted :: e.start <= e.end
    requires i < j < |sorted|
    ensures sorted[i].end <= sorted[j].start && Compatible(sorted[i], sorted[j])
    decreases j
  {
    assert Ascending(sorted[i], sorted[j]);
    assert sorted[i] in sorted && sorted[j] in sorted && sorted[j - 1] in sorted;
    if i == j - 1 {
    } else {
      LaterIsApart(sorted, i, j - 1);
    }
  }

  // ---- The meaning: simultaneous substitution ----------------------------------------------------

  /** The new texts of the edits that start at `offset`, in list order. */
  function TextsAt(edits: seq<OffsetEdit>, offset: int): string {
    if edits == [] then
      ""
    else
      (if edits[0].start == offset then edits[0].newText else "") + TextsAt(edits[1..], offset)
  }

  predicate Replaced(edits: seq<OffsetEdit>, offset: int) {
    exists e | e in edits :: e.start <= offset < e.end
  }

  function Kept(content: string, edits: seq<OffsetEdit>, offset: nat): string
    requires offset < |content|
  {
    if Replaced(edits, offset) then "" else [content[offset]]
  }

  /**
   The text from `offset` on after doing all edits at once. Each offset of the original is looked at by
   itself: first the texts put there, in list order, then the original character unless an edit replaces it.
   */
  function Substitution(content: string, edits: seq<OffsetEdit>, offset: nat): string
    requires offset <= |content|
    decreases |content| - offset
  {
    if offset == |content| then
      TextsAt(edits, offset)
    else
      TextsAt(edits, offset) + (Kept(content, edits, offset) + Substitution(content, edits, offset + 1))
  }

  // ---- The splice --------------------------------------------------------------------------------

  function Clamp(offset: int, size: nat): (r: nat)
    ensures r <= size
  {
    if offset < 0 then 0 else if offset > size then size else offset
  }

  function Splice(text: string, edit: OffsetEdit): string {
    text[..Clamp(edit.start, |text|)] + (edit.newText + text[Clamp(edit.end, |text|)..])
  }

  /** The reduction of the sorted list: the edits are spliced one after the other, the first of the list first. */
  function SpliceAll(text: string, edits: seq<OffsetEdit>): string
    decreases |edits|
  {
    if edits == [] then text else SpliceAll(Splice(text, edits[0]), edits[1..])
  }

  lemma {:induction false} SpliceLast(text: string, edits: seq<OffsetEdit>, last: OffsetEdit)
    ensures SpliceAll(text, edits + [last]) == Splice(SpliceAll(text, edits), last)
    decreases |edits|
  {
    if edits == [] {
      assert [last][1..] == [];
    } else {
      assert (edits + [last])[1..] == edits[1..] + [last];
      SpliceLast(Splice(text, edits[0]), edits[1..], last);
    }
  }

  /** Each edit lies to the right of all that come after it in the list. */
  ghost predicate RightToLeft(edits: seq<OffsetEdit>, size: nat) {
    && (forall i | 0 <= i < |edits| :: 0 <= edits[i].start <= edits[i].end <= size)
    && (forall i, j | 0 <= i < j < |edits| :: edits[j].end <= edits[i].start)
  }

  function TextsAtRev(edits: seq<OffsetEdit>, offset: int): string {
    if edits == [] then
      ""
    else
      TextsAtRev(edits[1..], offset) + if edits[0].start == offset then edits[0].newText else ""
  }

  function Gap(content: string, from: nat, to: nat): string
    requires to <= |content|
  {
    if from <= to then content[from..to] else ""
  }

  /** One pass over the original from left to right: kept gaps interleaved with the new texts. */
  function Merge(content: string, edits: seq<OffsetEdit>, from: nat): string
    requires from <= |content|
  {
    if edits == [] then
      content[from..]
    else
      var last := edits[|edits| - 1];
      var start, end := Clamp(last.start, |content|), Clamp(last.end, |content|);
      Gap(content, from, start) + (last.newText + Merge(content, edits[..|edits| - 1], end))
  }

  lemma WithoutLeftmost(edits: seq<OffsetEdit>, size: nat)
    requires RightToLeft(edits, size) && edits != []
    ensures var rest, last := edits[..|edits| - 1], edits[|edits| - 1];
            && RightToLeft(rest, size)
            && edits == rest + [last] && last in edits
            && (forall e | e in rest :: last.end <= e.start)
  {
    var rest, last := edits[..|edits| - 1], edits[|edits| - 1];
    forall e | e in rest ensures last.end <= e.start {
      var i :| 0 <= i < |rest| && rest[i] == e;
      assert edits[i] == e;
    }
  }

  lemma SpliceAfterPrefix(content: string, tail: string, edit: OffsetEdit)
    requires 0 <= edit.start <= edit.end <= |content|
    ensures Splice(content[..edit.end] + tail, edit) == content[..edit.start] + (edit.newText + tail)
  {
    var u := content[..edit.end] + tail;
    assert u[..edit.start] == content[..edit.start];
    assert u[edit.end..] == tail;
  }

  lemma PrefixAndGap(content: string, from: nat, to: nat, tail: string)
    requires from <= to <= |content|
    ensures content[..to] + tail == content[..from] + (Gap(content, from, to) + tail)
  {
    assert content[..to] == content[..from] + content[from..to];
    Regroup(content[..from], content[from..to], tail);
  }

  lemma {:induction false} SpliceAllIsMerge(content: string, edits: seq<OffsetEdit>, from: nat)
    requires RightToLeft(edits, |content|)
    requires from <= |content| && forall e | e in edits :: from <= e.start
    ensures SpliceAll(content, edits) == content[..from] + Merge(content, edits, from)
  {
    if edits == [] {
      assert content == content[..from] + content[from..];
    } else {
      var rest, last := edits[..|edits| - 1], edits[|edits| - 1];
      WithoutLeftmost(edits, |content|);
      SpliceAllIsMerge(content, rest, last.end);
      SpliceLast(content, rest, last);
      var tail := Merge(content, rest, last.end);
      SpliceAfterPrefix(content, tail, last);
      PrefixAndGap(content, from, last.start, last.newText + tail);
    }
  }

  /** Substitution with the texts read from a list in splicing order. */
  function SubstitutionRev(content: string, edits: seq<OffsetEdit>, offset: nat): string
    requires offset <= |content|
    decreases |content| - offset
  {
    if offset == |content| then
      TextsAtRev(edits, offset)
    else
      TextsAtRev(edits, offset) + (Kept(content, edits, offset) + SubstitutionRev(content, edits, offset + 1))
  }

  lemma Unfold(content: string, edits: seq<OffsetEdit>, offset: nat)
    requires offset < |content|
    ensures SubstitutionRev(content, edits, offset)
         == TextsAtRev(edits, offset) + (Kept(content, edits, offset) + SubstitutionRev(content, edits, offset + 1))
  {
  }

  lemma {:induction false} TextsAtRevLast(edits: seq<OffsetEdit>, last: OffsetEdit, offset: int)
    ensures TextsAtRev(edits + [last], offset)
         == (if last.start == offset then last.newText else "") + TextsAtRev(edits, offset)
  {
    if edits == [] {
      assert [last][1..] == [];
    } else {
      assert (edits + [last])[1..] == edits[1..] + [last];
      TextsAtRevLast(edits[1..], last, offset);
    }
  }

  lemma {:induction false} NoTextsBefore(edits: seq<OffsetEdit>, offset: int)
    requires forall e | e in edits :: offset < e.start
    ensures TextsAtRev(edits, offset) == "" && !Replaced(edits, offset)
  {
    if edits == [] {
    } else {
      NoTextsBefore(edits[1..], offset);
    }
  }

  lemma {:induction false} NoTextsAfter(edits: seq<OffsetEdit>, offset: int)
    requires forall e | e in edits :: e.start < offset
    ensures TextsAtRev(edits, offset) == ""
  {
    if edits == [] {
    } else {
      NoTextsAfter(edits[1..], offset);
    }
  }

  /** From the end of the leftmost edit on, that edit no longer matters. */
  lemma {:induction false} DropLeftmost(content: string, rest: seq<OffsetEdit>, last: OffsetEdit, offset: nat)
    requires offset <= |content| && last.start < offset && last.end <= offset
    ensures SubstitutionRev(content, rest + [last], offset) == SubstitutionRev(content, rest, offset)
    decreases |content| - offset
  {
    hide TextsAtRev;
    TextsAtRevLast(rest, last, offset);
    assert Replaced(rest + [last], offset) == Replaced(rest, offset);
    if offset == |content| {
    } else {
      DropLeftmost(content, rest, last, offset + 1);
    }
  }

  /** Inside the range of the leftmost edit nothing is written. */
  lemma {:induction false} SkipReplaced(content: string, rest: seq<OffsetEdit>, last: OffsetEdit, offset: nat)
    requires last.start < offset <= last.end <= |content|
    requires forall e | e in rest :: last.end <= e.start
    ensures SubstitutionRev(content, rest + [last], offset) == SubstitutionRev(content, rest, last.end)
    decreases last.end - offset
  {
    hide TextsAtRev, SubstitutionRev;
    if offset == last.end {
      DropLeftmost(content, rest, last, offset);
    } else {
      TextsAtRevLast(rest, last, offset);
      NoTextsBefore(rest, offset);
      Unfold(content, rest + [last], offset);
      assert last in rest + [last];
      assert Kept(content, rest + [last], offset) == "";
      SkipReplaced(content, rest, last, offset + 1);
    }
  }

  lemma LeftmostEdit(content: string, rest: seq<OffsetEdit>, last: OffsetEdit)
    requires 0 <= last.start <= last.end <= |content|
    requires forall e | e in rest :: last.end <= e.start
    ensures SubstitutionRev(content, rest + [last], last.start)
         == last.newText + SubstitutionRev(content, rest, last.end)
  {
    if last.start < last.end {
      LeftmostReplacement(content, rest, last);
    } else {
      LeftmostInsertion(content, rest, last);
    }
  }

  lemma LeftmostReplacement(content: string, rest: seq<OffsetEdit>, last: OffsetEdit)
    requires 0 <= last.start < last.end <= |content|
    requires forall e | e in rest :: last.end <= e.start
    ensures SubstitutionRev(content, rest + [last], last.start)
         == last.newText + SubstitutionRev(content, rest, last.end)
  {
    hide TextsAtRev, SubstitutionRev;
    TextsAtRevLast(rest, last, last.start);
    Unfold(content, rest + [last], last.start);
    NoTextsBefore(rest, last.start);
    assert last in rest + [last];
    assert Kept(content, rest + [last], last.start) == "";
    SkipReplaced(content, rest, last, last.start + 1);
    var tail := SubstitutionRev(content, rest, last.end);
    assert last.newText + "" == last.newText && "" + tail == tail;
  }

  lemma LeftmostInsertion(content: string, rest: seq<OffsetEdit>, last: OffsetEdit)
    requires 0 <= last.start == last.end <= |content|
    ensures SubstitutionRev(content, rest + [last], last.start)
         == last.newText + SubstitutionRev(content, rest, last.start)
  {
    hide TextsAtRev;
    TextsAtRevLast(rest, last, last.start);
    assert Replaced(rest + [last], last.start) == Replaced(rest, last.start);
    if last.start < |content| {
      hide SubstitutionRev;
      Unfold(content, rest + [last], last.start);
      Unfold(content, rest, last.start);
      DropLeftmost(content, rest, last, last.start + 1);
      var tail := Kept(content, rest, last.start) + SubstitutionRev(content, rest, last.start + 1);
      Regroup(last.newText, TextsAtRev(rest, last.start), tail);
    }
  }

  lemma {:induction false} NothingSubstituted(content: string, from: nat)
    requires from <= |content|
    ensures Merge(content, [], from) == SubstitutionRev(content, [], from) == content[from..]
    decreases |content| - from
  {
    if from == |content| {
    } else {
      NothingSubstituted(content, from + 1);
      SubstitutionStep(content, [], from);
      assert content[from..] == [content[from]] + content[from + 1..];
    }
  }

  lemma {:induction false} MergeIsSubstitution(content: string, edits: seq<OffsetEdit>, from: nat)
    requires RightToLeft(edits, |content|)
    requires from <= |content| && forall e | e in edits :: from <= e.start
    ensures Merge(content, edits, from) == SubstitutionRev(content, edits, from)
    decreases |edits|, |content| - from
  {
    hide Merge, SubstitutionRev;
    if edits == [] {
      NothingSubstituted(content, from);
    } else {
      var rest, last := edits[..|edits| - 1], edits[|edits| - 1];
      WithoutLeftmost(edits, |content|);
      if from < last.start {
        forall e | e in edits ensures from < e.start {
          assert e == last || e in rest;
        }
        MergeIsSubstitution(content, edits, from + 1);
        MergeStep(content, edits, from);
        SubstitutionStep(content, edits, from);
      } else {
        LeftmostEdit(content, rest, last);
        MergeIsSubstitution(content, rest, last.end);
        MergeAtEdit(content, edits);
      }
    }
  }

  lemma MergeAtEdit(content: string, edits: seq<OffsetEdit>)
    requires edits != [] && 0 <= edits[|edits| - 1].start <= edits[|edits| - 1].end <= |content|
    ensures var last := edits[|edits| - 1];
            Merge(content, edits, last.start) == last.newText + Merge(content, edits[..|edits| - 1], last.end)
  {
    var last := edits[|edits| - 1];
    assert Gap(content, last.start, last.start) == "";
  }

  lemma SubstitutionStep(content: string, edits: seq<OffsetEdit>, from: nat)
    requires from < |content| && forall e | e in edits :: from < e.start
    ensures SubstitutionRev(content, edits, from) == [content[from]] + SubstitutionRev(content, edits, from + 1)
  {
    NoTextsBefore(edits, from);
    var tail := [content[from]] + SubstitutionRev(content, edits, from + 1);
    assert "" + tail == tail;
  }

  lemma MergeStep(content: string, edits: seq<OffsetEdit>, from: nat)
    requires edits != [] && from < edits[|edits| - 1].start <= edits[|edits| - 1].end <= |content|
    ensures Merge(content, edits, from) == [content[from]] + Merge(content, edits, from + 1)
  {
    var last := edits[|edits| - 1];
    var tail := Merge(content, edits[..|edits| - 1], last.end);
    assert content[from..last.start] == [content[from]] + content[from + 1..last.start];
    Regroup([content[from]], content[from + 1..last.start], last.newText + tail);
  }

  // ---- The splicing order is a right-to-left order of the same edits -----------------------------

  lemma {:induction false} InsertTexts(e: OffsetEdit, s: seq<OffsetEdit>, offset: int)
    requires SortedBy(s, Descending)
    requires forall x | x in s :: e.index < x.index
    ensures TextsAtRev(Insert(e, s, Descending), offset)
         == (if e.start == offset then e.newText else "") + TextsAtRev(s, offset)
  {
    if s == [] {
      assert [e][1..] == [];
    } else if Descending(e, s[0]) {
      assert ([e] + s)[1..] == s;
      assert s[0] in s;
      if e.start == offset {
        forall x | x in s ensures x.start < offset {
          var i :| 0 <= i < |s| && s[i] == x;
          assert i > 0 ==> Descending(s[0], s[i]);
        }
        NoTextsAfter(s, offset);
      }
    } else {
      var tail := Insert(e, s[1..], Descending);
      InsertTexts(e, s[1..], offset);
      assert ([s[0]] + tail)[1..] == tail;
      Regroup(if e.start == offset then e.newText else "", TextsAtRev(s[1..], offset),
              if s[0].start == offset then s[0].newText else "");
    }
  }

  lemma {:induction false} SortTexts(edits: seq<OffsetEdit>, size: nat, first: nat, offset: int)
    requires WellFormed(edits, size, first)
    ensures TextsAtRev(Sort(edits, Descending), offset) == TextsAt(edits, offset)
  {
    if edits == [] {
    } else {
      SortTexts(edits[1..], size, first + 1, offset);
      SortIsSorted(edits[1..], Descending);
      forall x | x in Sort(edits[1..], Descending) ensures edits[0].index < x.index {
        SortMembers(edits[1..], Descending, x);
      }
      InsertTexts(edits[0], Sort(edits[1..], Descending), offset);
    }
  }

  lemma SortKept(content: string, edits: seq<OffsetEdit>, offset: nat)
    requires offset < |content|
    ensures Kept(content, Sort(edits, Descending), offset) == Kept(content, edits, offset)
  {
    forall e ensures e in Sort(edits, Descending) <==> e in edits {
      SortMembers(edits, Descending, e);
    }
  }

  lemma {:induction false} SubstitutionsAgree(content: string, edits: seq<OffsetEdit>, offset: nat)
    requires WellFormed(edits, |content|, 0) && offset <= |content|
    ensures SubstitutionRev(content, Sort(edits, Descending), offset) == Substitution(content, edits, offset)
    decreases |content| - offset
  {
    hide TextsAt, TextsAtRev, Sort, Kept;
    SortTexts(edits, |content|, 0, offset);
    if offset == |content| {
    } else {
      SortKept(content, edits, offset);
      SubstitutionsAgree(content, edits, offset + 1);
    }
  }

  lemma SplicingOrderIsRightToLeft(edits: seq<OffsetEdit>, size: nat)
    requires WellFormed(edits, size, 0) && PairwiseCompatible(edits)
    ensures RightToLeft(Sort(edits, Descending), size)
  {
    var d := Sort(edits, Descending);
    SortIsSorted(edits, Descending);
    SortKeepsDistinct(edits, Descending);
    forall e ensures e in d <==> e in edits {
      SortMembers(edits, Descending, e);
    }
    forall i | 0 <= i < |d| ensures 0 <= d[i].start <= d[i].end <= size {
      assert d[i] in edits;
    }
    forall i, j | 0 <= i < j < |d| ensures d[j].end <= d[i].start {
      assert d[i] in edits && d[j] in edits;
      assert Compatible(d[i], d[j]) && Descending(d[i], d[j]);
    }
  }

  /** Splicing the accepted edits one by one from right to left does all of them at once. */
  lemma SpliceIsSubstitution(content: string, edits: seq<OffsetEdit>)
    requires WellFormed(edits, |content|, 0) && PairwiseCompatible(edits)
    ensures SpliceAll(content, Sort(edits, Descending)) == Substitution(content, edits, 0)
  {
    var d := Sort(edits, Descending);
    SplicingOrderIsRightToLeft(edits, |content|);
    forall e | e in d ensures 0 <= e.start {
      SortMembers(edits, Descending, e);
    }
    SpliceAllIsMerge(content, d, 0);
    MergeIsSubstitution(content, d, 0);
    SubstitutionsAgree(content, edits, 0);
  }

  // ---- Length ------------------------------------------------------------------------------------

  function Growth(edits: seq<OffsetEdit>): int {
    if edits == [] then
      0
    else
      |edits[0].newText| - (edits[0].end - edits[0].start) + Growth(edits[1..])
  }

  lemma {:induction false} InsertGrowth(e: OffsetEdit, s: seq<OffsetEdit>)
    ensures Growth(Insert(e, s, Descending)) == Growth([e]) + Growth(s)
  {
    assert [e][1..] == [];
    if s == [] || Descending(e, s[0]) {
      assert ([e] + s)[1..] == s;
    } else {
      InsertGrowth(e, s[1..]);
      assert ([s[0]] + Insert(e, s[1..], Descending))[1..] == Insert(e, s[1..], Descending);
    }
  }

  lemma {:induction false} SortGrowth(edits: seq<OffsetEdit>)
    ensures Growth(Sort(edits, Descending)) == Growth(edits)
  {
    if edits == [] {
    } else {
      SortGrowth(edits[1..]);
      InsertGrowth(edits[0], Sort(edits[1..], Descending));
      assert [edits[0]][1..] == [];
    }
  }

  lemma {:induction false} SpliceAllGrowth(text: string, edits: seq<OffsetEdit>)
    requires RightToLeft(edits, |text|)
    ensures |SpliceAll(text, edits)| == |text| + Growth(edits)
    decreases |edits|
  {
    if edits == [] {
    } else {
      assert RightToLeft(edits[1..], |Splice(text, edits[0])|);
      SpliceAllGrowth(Splice(text, edits[0]), edits[1..]);
    }
  }

  /** The result is as long as the original plus what each edit adds or takes away. */
  lemma SubstitutionLength(content: string, edits: seq<OffsetEdit>)
    requires WellFormed(edits, |content|, 0) && PairwiseCompatible(edits)
    ensures |Substitution(content, edits, 0)| == |content| + Growth(edits)
  {
    SpliceIsSubstitution(content, edits);
    SplicingOrderIsRightToLeft(edits, |content|);
    SpliceAllGrowth(content, Sort(edits, Descending));
    SortGrowth(edits);
  }

  // ---- The operation -----------------------------------------------------------------------------

  /** The first bad edit is reported, then any overlap, else all edits are done at once. */
  ghost function EditedText(content: string, edits: seq<TextEdit>): Result<string, EditError> {
    match Resolve(content, edits)
    case Err(e) => Err(e)
    case Ok(resolved) =>
      if PairwiseCompatible(resolved) then Ok(Substitution(content, resolved, 0)) else Err(OverlappingEdits)
  }

  /** What applying the edits promises, said on the lines and characters of the edits. */
  ghost predicate IsEdited(content: string, edits: seq<TextEdit>, r: Result<string, EditError>) {
    var lines := LineTable(content);
    if forall i | 0 <= i < |edits| :: Legal(lines, edits[i]) then
      exists resolved :: SaysTheSame(lines, edits, resolved) && IsDone(content, resolved, r)
    else
      r.Err? && FirstWrong(lines, edits, r.error)
  }

  ghost predicate IsDone(content: string, resolved: seq<OffsetEdit>, r: Result<string, EditError>) {
    if PairwiseCompatible(resolved) then r == Ok(Substitution(content, resolved, 0)) else r == Err(OverlappingEdits)
  }

  lemma EditedTextMeans(content: string, edits: seq<TextEdit>)
    ensures IsEdited(content, edits, EditedText(content, edits))
  {
    hide Resolve, LineTable, Legal, WrongEdit, PairwiseCompatible, Substitution;
    var lines := LineTable(content);
    LineTableIsTheTable(content, lines);
    ResolveMeans(content, lines, edits);
    match Resolve(content, edits) {
      case Ok(resolved) => assert IsDone(content, resolved, EditedText(content, edits));
      case Err(e) => WrongIsNotLegal(lines, edits[e.index], e);
    }
  }

  lemma WrongIsNotLegal(lines: seq<LineBounds>, edit: TextEdit, error: EditError)
    requires WrongEdit(lines, edit, error)
    ensures !Legal(lines, edit)
  {
  }

  /** One legal edit puts its text in the place of its range. */
  lemma OneEdit(content: string, edit: TextEdit)
    requires Legal(LineTable(content), edit)
    ensures var lines := LineTable(content);
            var start := lines[edit.start.line].start + edit.start.character;
            var end := lines[edit.end.line].start + edit.end.character;
            && start <= end <= |content|
            && EditedText(content, [edit]) == Ok(content[..start] + (edit.newText + content[end..]))
  {
    hide Resolve, LineTable, Sort, SpliceAll, Substitution, Legal, FirstWrong;
    var lines := LineTable(content);
    LineTableIsTheTable(content, lines);
    ResolveMeans(content, lines, [edit]);
    OneIsNotWrong(lines, edit);
    var resolved := Resolve(content, [edit]).value;
    ResolvedEditsAreWellFormed(content, lines, [edit], resolved);
    SpliceIsSubstitution(content, resolved);
    SpliceOne(content, resolved);
  }

  lemma OneIsNotWrong(lines: seq<LineBounds>, edit: TextEdit)
    requires Legal(lines, edit)
    ensures forall e :: !FirstWrong(lines, [edit], e)
  {
    forall e ensures !FirstWrong(lines, [edit], e) {
    }
  }

  lemma SpliceOne(content: string, resolved: seq<OffsetEdit>)
    requires |resolved| == 1
    ensures SpliceAll(content, Sort(resolved, Descending)) == Splice(content, resolved[0])
  {
    assert Sort(resolved, Descending) == resolved;
    assert resolved[1..] == [];
  }

  method ApplyTextEdits(content: string, textEdits: seq<TextEdit>) returns (r: Result<string, EditError>)
    ensures r == EditedText(content, textEdits) && IsEdited(content, textEdits, r)
  {
    hide ResolveFrom, LineTable, Sort, SpliceAll, Substitution, PairwiseCompatible, SaysTheSame, FirstWrong, IsEdited;
    EditedTextMeans(content, textEdits);
    var lines := GetLineBounds(content);
    ResolveMeans(content, lines, textEdits);
    var resolved := ResolveFrom(lines, textEdits, 0);
    if resolved.Err? {
      return Err(resolved.error);
    }
    var edits := resolved.value;
    ResolvedEditsAreWellFormed(content, lines, textEdits, edits);
    NeighbourCheckIsComplete(edits, |content|);
    var ascending := Sort(edits, Ascending);
    var index := 1;
    while index < |ascending|
      invariant 1 <= index
      invariant forall k | 1 <= k < index && k < |ascending| :: ascending[k].start >= ascending[k - 1].end
    {
      if ascending[index].start < ascending[index - 1].end {
        return Err(OverlappingEdits);
      }
      index := index + 1;
    }
    SpliceIsSubstitution(content, edits);
    return Ok(SpliceAll(content, Sort(edits, Descending)));
  }
}
