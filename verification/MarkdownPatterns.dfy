/** What the regular expressions of the notes say about a line, as ways of writing the line in parts. */
module MarkdownPatterns {
  import opened Wrappers
  import opened TextLines
  import opened MarkdownSections

  function Repeat(c: char, n: nat): (r: string)
    ensures |r| == n
  {
    seq(n, i => c)
  }

  // ---- Fences ------------------------------------------------------------------------------------

  ghost predicate Fenced(line: string, indent: nat, mark: char, n: nat, after: string) {
    && indent <= 3 && (mark == '`' || mark == '~') && n >= 1
    && line == Repeat(' ', indent) + (Repeat(mark, n) + after)
  }

  lemma {:induction false} RunIsRepeat(s: string, c: char)
    ensures s == Repeat(c, LeadingRun(s, c)) + s[LeadingRun(s, c)..]
  {
    if s != "" && s[0] == c {
      RunIsRepeat(s[1..], c);
    }
  }

  lemma {:induction false} RunOfRepeat(c: char, n: nat, after: string)
    ensures LeadingRun(Repeat(c, n) + after, c) == n + LeadingRun(after, c)
  {
    var s := Repeat(c, n) + after;
    if n == 0 {
      assert s == after;
    } else {
      assert s[1..] == Repeat(c, n - 1) + after;
      RunOfRepeat(c, n - 1, after);
    }
  }

  /** The run that the program finds is one way to write the line in parts. */
  lemma RunIsFenced(line: string)
    requires RunOf(line).FenceRun?
    ensures var run := RunOf(line);
            run.length >= 1 && Fenced(line, LeadingRun(line, ' '), run.mark, run.length, run.after)
  {
    var indent := LeadingRun(line, ' ');
    RunIsRepeat(line, ' ');
    RunIsRepeat(line[indent..], line[indent]);
  }

  lemma NoRunOf(s: string, c: char)
    requires s != "" && s[0] != c
    ensures LeadingRun(s, c) == 0
  {
  }

  lemma RepeatParts(c: char, n: nat, after: string, k: nat)
    requires k <= |after|
    ensures (Repeat(c, n) + after)[n + k..] == after[k..]
    ensures n > 0 ==> (Repeat(c, n) + after)[0] == c
  {
  }

  /** And every other way has the same mark and leaves at least as much after it. */
  lemma FencedHasRun(line: string, indent: nat, mark: char, n: nat, after: string)
    requires Fenced(line, indent, mark, n, after)
    ensures var run, more := RunOf(line), LeadingRun(after, mark);
            run == FenceRun(mark, n + more, after[more..])
  {
    hide LeadingRun, Repeat, RunOf;
    var text, more := Repeat(mark, n) + after, LeadingRun(after, mark);
    RepeatParts(mark, n, after, more);
    NoRunOf(text, ' ');
    RunOfRepeat(' ', indent, text);
    RepeatParts(' ', indent, text, 0);
    assert text[0..] == text;
    RunOfRepeat(mark, n, after);
    RunOfText(line, text);
  }

  lemma RunOfText(line: string, text: string)
    requires LeadingRun(line, ' ') <= 3 && line[LeadingRun(line, ' ')..] == text
    requires text != "" && (text[0] == '`' || text[0] == '~')
    ensures var n := LeadingRun(text, text[0]); RunOf(line) == FenceRun(text[0], n, text[n..])
  {
    hide LeadingRun;
  }

  /** An opening fence: at most three spaces, at least three marks, and on backticks no further backtick. */
  lemma OpensFenceMeans(line: string)
    ensures OpensFence(line)
       <==> exists indent: nat, mark, n: nat, after ::
              Fenced(line, indent, mark, n, after) && n >= 3 && SingleLine(after) && (mark == '~' || '`' !in after)
  {
    hide RunOf, SingleLine, Fenced;
    if OpensFence(line) {
      RunIsFenced(line);
    }
    forall indent: nat, mark, n: nat, after |
      Fenced(line, indent, mark, n, after) && n >= 3 && SingleLine(after) && (mark == '~' || '`' !in after)
      ensures OpensFence(line)
    {
      FencedHasRun(line, indent, mark, n, after);
      EndOfLine(after, LeadingRun(after, mark));
    }
  }

  /** A closing fence: at most three spaces, at least as many of the marks that opened it, and blanks. */
  lemma ClosesFenceMeans(line: string, mark: char, length: nat)
    ensures ClosesFence(line, mark, length)
       <==> exists indent: nat, n: nat, after :: Fenced(line, indent, mark, n, after) && n >= length && Blank(after)
  {
    hide RunOf, Blank, Fenced;
    if ClosesFence(line, mark, length) {
      RunIsFenced(line);
    }
    forall indent: nat, n: nat, after | Fenced(line, indent, mark, n, after) && n >= length && Blank(after)
      ensures ClosesFence(line, mark, length)
    {
      FencedHasRun(line, indent, mark, n, after);
      EndOfLine(after, LeadingRun(after, mark));
    }
  }

  lemma {:induction false} FenceAfterLast(lines: seq<string>, fence: Fence)
    requires lines != []
    ensures FenceAfter(lines, fence) == NextFence(FenceAfter(lines[..|lines| - 1], fence), lines[|lines| - 1])
    decreases |lines|
  {
    hide NextFence;
    if |lines| > 1 {
      FenceAfterLast(lines[1..], NextFence(fence, lines[0]));
      assert lines[1..][..|lines| - 2] == lines[..|lines| - 1][1..];
    }
  }

  /** The line at `j` opens a fence outside of all others, and no line after it closes that fence. */
  ghost predicate OpenSince(lines: seq<string>, j: nat, mark: char, n: nat) {
    && j < |lines| && FenceAfter(lines[..j], Outside).Outside? && OpensFence(lines[j])
    && RunOf(lines[j]).mark == mark && RunOf(lines[j]).length == n
    && forall k | j < k < |lines| :: !ClosesFence(lines[k], mark, n)
  }

  lemma OpenSinceFront(lines: seq<string>, j: nat, mark: char, n: nat)
    requires lines != [] && j < |lines| - 1
    ensures OpenSince(lines, j, mark, n)
       <==> OpenSince(lines[..|lines| - 1], j, mark, n) && !ClosesFence(lines[|lines| - 1], mark, n)
  {
    hide OpensFence, ClosesFence, FenceAfter, RunOf;
    assert lines[..|lines| - 1][..j] == lines[..j];
  }

  lemma OpenSinceLast(lines: seq<string>, mark: char, n: nat)
    requires lines != []
    ensures OpenSince(lines, |lines| - 1, mark, n)
       <==> FenceAfter(lines[..|lines| - 1], Outside).Outside?
            && NextFence(Outside, lines[|lines| - 1]) == Inside(mark, n)
  {
    hide FenceAfter;
  }

  /** A text ends inside a fence exactly when some line has opened it and no line since has closed it. */
  lemma {:induction false} InsideMeans(lines: seq<string>, mark: char, n: nat)
    ensures FenceAfter(lines, Outside) == Inside(mark, n) <==> exists j: nat :: OpenSince(lines, j, mark, n)
    decreases |lines|
  {
    if lines == [] {
    } else {
      hide FenceAfter, OpenSince, OpensFence, ClosesFence, RunOf;
      var front, last := lines[..|lines| - 1], lines[|lines| - 1];
      FenceAfterLast(lines, Outside);
      OpenSinceLast(lines, mark, n);
      InsideMeans(front, mark, n);
      forall j: nat | j < |lines| - 1
        ensures OpenSince(lines, j, mark, n) <==> OpenSince(front, j, mark, n) && !ClosesFence(last, mark, n)
      {
        OpenSinceFront(lines, j, mark, n);
      }
      InRange(lines, mark, n);
      InRange(front, mark, n);
    }
  }

  lemma InRange(lines: seq<string>, mark: char, n: nat)
    ensures forall j: nat | OpenSince(lines, j, mark, n) :: j < |lines|
  {
  }

  // ---- List items --------------------------------------------------------------------------------

  lemma {:induction false} TrimStartOfBoth(s: string, r: string)
    requires Blank(s)
    ensures TrimStart(s + r) == TrimStart(r)
  {
    if s == "" {
      assert s + r == r;
    } else {
      assert IsSpace(s[0]);
      assert (s + r)[1..] == s[1..] + r;
      TrimStartOfBoth(s[1..], r);
    }
  }

  lemma {:induction false} LeadingBlanks(x: string)
    ensures Blank(x[..|x| - |TrimStart(x)|])
  {
    if x != "" && IsSpace(x[0]) {
      LeadingBlanks(x[1..]);
      var k := |x| - |TrimStart(x)|;
      assert x[..k] == [x[0]] + x[1..][..k - 1];
    }
  }

  ghost predicate Blanked(x: string, s: string, r: string) {
    x == s + r && s != "" && Blank(s)
  }

  /** What stands after a list marker: blanks, and one line of text. */
  lemma AfterBlanksMeans(x: string, t: string)
    ensures AfterBlanks(x) == Some(t) <==> exists s, r :: Blanked(x, s, r) && SingleLine(r) && t == Trim(r)
  {
    hide TrimStart, TrimEnd, SingleLine;
    if AfterBlanks(x) == Some(t) {
      AfterBlanksIsBlanked(x);
    }
    forall s, r | Blanked(x, s, r) && SingleLine(r) && t == Trim(r) ensures AfterBlanks(x) == Some(t) {
      TrimStartOfBoth(s, r);
      EndOfLine(r, |r| - |TrimStart(r)|);
    }
  }

  lemma {:induction false} TrimStartTwice(x: string)
    ensures TrimStart(TrimStart(x)) == TrimStart(x)
  {
    if x != "" && IsSpace(x[0]) {
      TrimStartTwice(x[1..]);
    }
  }

  lemma Halves(x: string, k: nat)
    requires k <= |x|
    ensures x == x[..k] + x[k..] && x[0..] == x
  {
  }

  lemma SomeBlanksGo(x: string)
    requires x != "" && IsSpace(x[0])
    ensures |TrimStart(x)| < |x|
  {
  }

  lemma TrimStartSplits(x: string)
    requires x != "" && IsSpace(x[0])
    ensures Blanked(x, x[..|x| - |TrimStart(x)|], TrimStart(x))
  {
    hide TrimStart, Blank, IsSpace;
    LeadingBlanks(x);
    SomeBlanksGo(x);
    Halves(x, |x| - |TrimStart(x)|);
  }

  lemma AfterBlanksIsBlanked(x: string)
    requires AfterBlanks(x).Some?
    ensures var k := |x| - |TrimStart(x)|; Blanked(x, x[..k], TrimStart(x)) && SingleLine(TrimStart(x))
    ensures Trim(TrimStart(x)) == TrimEnd(TrimStart(x))
  {
    hide TrimStart, TrimEnd, SingleLine, Blanked, IsSpace;
    TrimStartSplits(x);
    TrimStartTwice(x);
  }

  ghost predicate IsCheckbox(line: string, mark: char, rest: string) {
    line == "- [" + ([mark] + ("]" + rest)) && (mark == ' ' || mark == 'x' || mark == 'X')
  }

  /** A checkbox: its mark says whether it is checked, and what follows is nothing or blanks and one line of text. */
  lemma CheckboxMeans(line: string, item: Parsed)
    ensures Checkbox(line) == Some(item)
       <==> exists mark, rest :: IsCheckbox(line, mark, rest) && item.checked == Some(mark != ' ')
                                 && (if rest == "" then item.text == "" else AfterBlanks(rest) == Some(item.text))
  {
    hide AfterBlanks;
    if |line| >= 5 {
      assert line[..3] == "- [" && line[4] == ']' ==> line == "- [" + ([line[3]] + ("]" + line[5..]));
    }
    if Checkbox(line) == Some(item) {
      assert IsCheckbox(line, line[3], line[5..]);
    }
    forall mark, rest | IsCheckbox(line, mark, rest) && item.checked == Some(mark != ' ')
                        && (if rest == "" then item.text == "" else AfterBlanks(rest) == Some(item.text))
      ensures Checkbox(line) == Some(item)
    {
      assert line[..3] == "- [" && line[3] == mark && line[4] == ']' && line[5..] == rest;
    }
  }

  // ---- List items --------------------------------------------------------------------------------

  ghost predicate TextAfterBlanks(x: string, t: string) {
    exists s, r :: Blanked(x, s, r) && SingleLine(r) && t == Trim(r)
  }

  /** A checkbox line, with nothing or with blanks and one line of text after the box. */
  ghost predicate IsCheckboxLine(line: string) {
    exists mark, rest :: IsCheckbox(line, mark, rest) && (rest == "" || exists t :: TextAfterBlanks(rest, t))
  }

  /** Follow-ups are checkboxes with a text; items of the other headings are dashes with a text, but no checkboxes. */
  ghost predicate IsListItem(line: string, h: Heading, p: Parsed) {
    && p.text != ""
    && if h.FollowUps? then
         exists mark, rest ::
           IsCheckbox(line, mark, rest) && p.checked == Some(mark != ' ') && TextAfterBlanks(rest, p.text)
       else
         && p.checked == None && !IsCheckboxLine(line)
         && line != "" && line[0] == '-' && TextAfterBlanks(line[1..], p.text)
  }

  lemma CheckboxLineMeans(line: string)
    ensures Checkbox(line).Some? <==> IsCheckboxLine(line)
  {
    hide AfterBlanks, IsCheckbox, Checkbox;
    if Checkbox(line).Some? {
      CheckboxMeans(line, Checkbox(line).value);
      var mark, rest :| IsCheckbox(line, mark, rest)
        && var text := Checkbox(line).value.text;
           if rest == "" then text == "" else AfterBlanks(rest) == Some(text);
      AfterBlanksMeans(rest, Checkbox(line).value.text);
      assert rest != "" ==> TextAfterBlanks(rest, Checkbox(line).value.text);
    }
    if IsCheckboxLine(line) {
      var mark, rest :| IsCheckbox(line, mark, rest) && (rest == "" || exists t :: TextAfterBlanks(rest, t));
      var t: string := "";
      if rest != "" {
        t :| TextAfterBlanks(rest, t);
        AfterBlanksMeans(rest, t);
      }
      CheckboxMeans(line, Parsed(t, Some(mark != ' ')));
    }
  }

  lemma FollowUpMeans(line: string, p: Parsed)
    ensures ParseListItem(line, FollowUps) == Some(p) <==> IsListItem(line, FollowUps, p)
  {
    hide AfterBlanks, IsCheckbox, Checkbox, TextAfterBlanks;
    CheckboxMeans(line, p);
    forall rest ensures AfterBlanks(rest) == Some(p.text) <==> TextAfterBlanks(rest, p.text) {
      TextAfterBlanksMeans(rest, p.text);
    }
    NothingAfterNothing(p.text);
  }

  lemma TextAfterBlanksMeans(x: string, t: string)
    ensures AfterBlanks(x) == Some(t) <==> TextAfterBlanks(x, t)
  {
    hide AfterBlanks;
    AfterBlanksMeans(x, t);
  }

  lemma NothingAfterNothing(t: string)
    ensures !TextAfterBlanks("", t)
  {
  }

  /** What a list item of a heading is. */
  lemma ListItemMeans(line: string, h: Heading, p: Parsed)
    ensures ParseListItem(line, h) == Some(p) <==> IsListItem(line, h, p)
  {
    hide AfterBlanks, IsCheckboxLine, Checkbox, TextAfterBlanks;
    if h.FollowUps? {
      FollowUpMeans(line, p);
    } else {
      CheckboxLineMeans(line);
      if line != "" {
        TextAfterBlanksMeans(line[1..], p.text);
      }
    }
  }

  /** Blanks or tabs and then something else. */
  lemma {:induction false} IndentedMeans(s: string)
    ensures Indented(s)
       <==> exists k :: 0 < k < |s| && !IsSpace(s[k]) && forall i | 0 <= i < k :: s[i] == ' ' || s[i] == '\t'
  {
    IndentRunMeans(s);
    var n := IndentRun(s);
    forall k | 0 < k < |s| && !IsSpace(s[k]) && forall i | 0 <= i < k :: s[i] == ' ' || s[i] == '\t'
      ensures k == n
    {
    }
  }

  lemma {:induction false} IndentRunMeans(s: string)
    ensures var n := IndentRun(s);
            && (forall i | 0 <= i < n :: s[i] == ' ' || s[i] == '\t') && (n < |s| ==> s[n] != ' ' && s[n] != '\t')
  {
    if s == "" {
    } else if s[0] == ' ' || s[0] == '\t' {
      IndentRunMeans(s[1..]);
    }
  }
}
