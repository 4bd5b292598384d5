/**
 Line tables of a text document and the translation of line/character positions to offsets
 (LSP 3.17, "Text Documents": lines end at "\n", "\r\n" or "\r").
 */
module LineTables {
  import opened Wrappers

  datatype LineBounds = LineBounds(start: nat, end: nat)

  datatype Position = Position(line: nat, character: nat)

  datatype PositionError = LineOutOfBounds | CharacterOutOfBounds

  predicate IsTerminator(c: char) {
    c == '\r' || c == '\n'
  }

  /** The offset just after the terminator at `at`: "\r\n" is one terminator of two characters. */
  function AfterTerminator(content: string, at: nat): (next: nat)
    requires at < |content|
    ensures at < next <= |content|
  {
    if content[at] == '\r' && at + 1 < |content| && content[at + 1] == '\n' then at + 2 else at + 1
  }

  predicate InsidePair(content: string, offset: nat) {
    0 < offset < |content| && content[offset - 1] == '\r' && content[offset] == '\n'
  }

  /** What it means to be the line table of a text, without saying how it is found. */
  ghost predicate IsLineTable(content: string, lines: seq<LineBounds>) {
    IsTableFrom(content, 0, lines)
  }

  ghost predicate IsTableFrom(content: string, start: nat, lines: seq<LineBounds>) {
    && lines != []
    && lines[0].start == start
    && lines[|lines| - 1].end == |content|
    && (forall i | 0 <= i < |lines| :: IsLine(content, lines[i]))
    && (forall i | 0 <= i < |lines| - 1 :: Follows(content, lines[i], lines[i + 1]))
  }

  ghost predicate IsLine(content: string, line: LineBounds) {
    && line.start <= line.end <= |content|
    && (forall k | line.start <= k < line.end :: !IsTerminator(content[k]))
  }

  ghost predicate Follows(content: string, line: LineBounds, next: LineBounds) {
    && line.end < |content|
    && IsTerminator(content[line.end])
    && next.start == AfterTerminator(content, line.end)
  }

  /** The table of the text from the line start `start`, when nothing ends the line before `index`. */
  function LinesFrom(content: string, start: nat, index: nat): (lines: seq<LineBounds>)
    requires start <= index <= |content|
    decreases |content| - index
  {
    if index == |content| then
      [LineBounds(start, index)]
    else if IsTerminator(content[index]) then
      var next := AfterTerminator(content, index);
      [LineBounds(start, index)] + LinesFrom(content, next, next)
    else
      LinesFrom(content, start, index + 1)
  }

  function LineTable(content: string): seq<LineBounds> {
    LinesFrom(content, 0, 0)
  }

  lemma {:induction false} LinesFromIsTable(content: string, start: nat, index: nat)
    requires start <= index <= |content|
    requires forall k | start <= k < index :: !IsTerminator(content[k])
    ensures IsTableFrom(content, start, LinesFrom(content, start, index))
    decreases |content| - index
  {
    if index == |content| {
    } else if IsTerminator(content[index]) {
      var next := AfterTerminator(content, index);
      var tail := LinesFrom(content, next, next);
      LinesFromIsTable(content, next, next);
      var lines := [LineBounds(start, index)] + tail;
      forall i | 0 <= i < |lines| ensures IsLine(content, lines[i]) {
        assert i > 0 ==> lines[i] == tail[i - 1];
      }
      forall i | 0 <= i < |lines| - 1 ensures Follows(content, lines[i], lines[i + 1]) {
        assert lines[i + 1] == tail[i];
        assert i > 0 ==> lines[i] == tail[i - 1];
      }
    } else {
      LinesFromIsTable(content, start, index + 1);
    }
  }

  /** `LineTable` is a line table, and there is no other one. */
  lemma LineTableIsTheTable(content: string, lines: seq<LineBounds>)
    ensures IsLineTable(content, lines) <==> lines == LineTable(content)
  {
    LinesFromIsTable(content, 0, 0);
    if IsLineTable(content, lines) {
      TablesAgree(content, lines, LineTable(content), 0);
      assert lines == LineTable(content);
    }
  }

  lemma {:induction false} TablesAgree(content: string, a: seq<LineBounds>, b: seq<LineBounds>, i: nat)
    requires IsLineTable(content, a) && IsLineTable(content, b)
    requires i < |a| && i < |b|
    requires forall k | 0 <= k < i :: a[k] == b[k]
    requires a[i].start == b[i].start
    ensures |a| == |b| && forall k | 0 <= k < |a| :: a[k] == b[k]
    decreases |a| - i
  {
    assert IsLine(content, a[i]) && IsLine(content, b[i]);
    assert i < |a| - 1 ==> Follows(content, a[i], a[i + 1]);
    assert i < |b| - 1 ==> Follows(content, b[i], b[i + 1]);
    assert a[i].end == b[i].end;
    if i == |a| - 1 {
    } else {
      TablesAgree(content, a, b, i + 1);
    }
  }

  method GetLineBounds(content: string) returns (lines: seq<LineBounds>)
    ensures lines == LineTable(content)
    ensures IsLineTable(content, lines)
  {
    lines := [];
    var start := 0;
    var index := 0;
    while index < |content|
      invariant start <= index <= |content|
      invariant lines + LinesFrom(content, start, index) == LineTable(content)
    {
      var character := content[index];
      if character == '\r' {
        lines := lines + [LineBounds(start, index)];
        if index + 1 < |content| && content[index + 1] == '\n' {
          index := index + 1;
        }
        start := index + 1;
      } else if character == '\n' {
        lines := lines + [LineBounds(start, index)];
        start := index + 1;
      }
      index := index + 1;
    }
    lines := lines + [LineBounds(start, |content|)];
    LineTableIsTheTable(content, lines);
  }

  function PositionOffset(lines: seq<LineBounds>, position: Position): Result<int, PositionError> {
    if position.line >= |lines| then
      Err(LineOutOfBounds)
    else
      var line := lines[position.line];
      if position.character > line.end - line.start then
        Err(CharacterOutOfBounds)
      else
        Ok(line.start + position.character)
  }

  predicate Before(p: Position, q: Position) {
    p.line < q.line || (p.line == q.line && p.character < q.character)
  }

  lemma {:induction false} LaterLinesStartLater(content: string, lines: seq<LineBounds>, i: nat, j: nat)
    requires IsLineTable(content, lines) && i < j < |lines|
    ensures lines[i].end < lines[j].start
    decreases j
  {
    assert Follows(content, lines[j - 1], lines[j]);
    if i == j - 1 {
    } else {
      LaterLinesStartLater(content, lines, i, j - 1);
      assert IsLine(content, lines[j - 1]);
    }
  }

  /** Legal positions and their offsets are in the same order; so no two positions share an offset. */
  lemma PositionOffsetKeepsOrder(content: string, p: Position, q: Position)
    requires PositionOffset(LineTable(content), p).Ok? && PositionOffset(LineTable(content), q).Ok?
    ensures var lines := LineTable(content);
            && (Before(p, q) <==> PositionOffset(lines, p).value < PositionOffset(lines, q).value)
            && (p == q <==> PositionOffset(lines, p).value == PositionOffset(lines, q).value)
  {
    var lines := LineTable(content);
    LineTableIsTheTable(content, lines);
    if p.line < q.line {
      LaterLinesStartLater(content, lines, p.line, q.line);
    } else if q.line < p.line {
      LaterLinesStartLater(content, lines, q.line, p.line);
    }
  }

  /** The offsets that positions reach are exactly 0..length without the ones between "\r" and "\n". */
  lemma ReachableOffsets(content: string, offset: int)
    ensures (exists p: Position :: PositionOffset(LineTable(content), p) == Ok(offset))
       <==> 0 <= offset <= |content| && !InsidePair(content, offset)
  {
    var lines := LineTable(content);
    LineTableIsTheTable(content, lines);
    if p: Position :| PositionOffset(lines, p) == Ok(offset) {
      OffsetIsNotInsidePair(content, lines, p.line, offset);
    }
    if 0 <= offset <= |content| && !InsidePair(content, offset) {
      var line := LineOfOffset(content, lines, offset, 0);
      assert PositionOffset(lines, Position(line, offset - lines[line].start)) == Ok(offset);
    }
  }

  lemma OffsetIsNotInsidePair(content: string, lines: seq<LineBounds>, i: nat, offset: nat)
    requires IsLineTable(content, lines) && i < |lines| && lines[i].start <= offset <= lines[i].end
    ensures offset <= |content| && !InsidePair(content, offset)
  {
    assert IsLine(content, lines[i]);
    if i > 0 && offset == lines[i].start {
      assert Follows(content, lines[i - 1], lines[i]);
    }
  }

  lemma {:induction false} LineOfOffset(content: string, lines: seq<LineBounds>, offset: nat, from: nat)
    returns (line: nat)
    requires IsLineTable(content, lines) && from < |lines|
    requires lines[from].start <= offset <= |content| && !InsidePair(content, offset)
    ensures line < |lines| && lines[line].start <= offset <= lines[line].end
    decreases |lines| - from
  {
    if offset <= lines[from].end {
      line := from;
    } else {
      assert IsLine(content, lines[from]);
      assert Follows(content, lines[from], lines[from + 1]);
      line := LineOfOffset(content, lines, offset, from + 1);
    }
  }
}
