/** Appending an item to a heading and extracting the items again gives the old items and the new one. */
module AppendThenExtract {
  import opened Wrappers
  import opened Sequences
  import opened TextLines
  import opened MarkdownSections
  import opened MarkdownAppend

  // ---- Fences around a place in the text ---------------------------------------------------------

  lemma AnnotateStep(l: string, y: seq<string>, fence: Fence)
    ensures Annotate([l] + y, fence) == [Line(l, fence.Outside? && !OpensFence(l))] + Annotate(y, NextFence(fence, l))
    ensures FenceAfter([l] + y, fence) == FenceAfter(y, NextFence(fence, l))
  {
    hide NextFence, OpensFence;
    assert ([l] + y)[1..] == y;
  }

  lemma AnnotateNothing(fence: Fence)
    ensures Annotate([], fence) == [] && FenceAfter([], fence) == fence
  {
  }

  lemma {:induction false} AnnotateBoth(x: seq<string>, y: seq<string>, fence: Fence)
    ensures Annotate(x + y, fence) == Annotate(x, fence) + Annotate(y, FenceAfter(x, fence))
    ensures FenceAfter(x + y, fence) == FenceAfter(y, FenceAfter(x, fence))
    decreases |x|
  {
    hide Annotate, FenceAfter, NextFence, OpensFence;
    if x == [] {
      AnnotateNothing(fence);
      assert x + y == y;
    } else {
      var first, next := [Line(x[0], fence.Outside? && !OpensFence(x[0]))], NextFence(fence, x[0]);
      assert x == [x[0]] + x[1..];
      assert x + y == [x[0]] + (x[1..] + y);
      AnnotateStep(x[0], x[1..], fence);
      AnnotateStep(x[0], x[1..] + y, fence);
      AnnotateBoth(x[1..], y, next);
      Regroup(first, Annotate(x[1..], next), Annotate(y, FenceAfter(x, fence)));
    }
  }

  lemma AnnotateOne(l: string, fence: Fence)
    ensures Annotate([l], fence) == [Line(l, fence.Outside? && !OpensFence(l))]
    ensures FenceAfter([l], fence) == NextFence(fence, l)
  {
    hide NextFence, OpensFence;
    assert [l][1..] == [];
  }

  /** Exactly the lines that stand outside every fence and open none are visible. */
  lemma VisibleMeans(lines: seq<string>, i: nat)
    requires i < |lines|
    ensures Annotate(lines, Outside)[i] ==
      Line(lines[i], FenceAfter(lines[..i], Outside).Outside? && !OpensFence(lines[i]))
  {
    hide OpensFence, NextFence, FenceAfter, Annotate;
    var x, l, y := lines[..i], lines[i], lines[i + 1..];
    assert lines == x + ([l] + y);
    AnnotateBoth(x, [l] + y, Outside);
    AnnotateStep(l, y, FenceAfter(x, Outside));
  }

  lemma VisibleIsOutside(lines: seq<string>, i: nat)
    requires i < |lines| && Annotate(lines, Outside)[i].visible
    ensures FenceAfter(lines[..i], Outside) == Outside && !OpensFence(lines[i])
  {
    hide OpensFence, FenceAfter, Annotate;
    VisibleMeans(lines, i);
  }

  lemma BlankKeepsFence(l: string, fence: Fence)
    requires Blank(l)
    ensures NextFence(fence, l) == fence
  {
    var indent := LeadingRun(l, ' ');
    if indent < |l| {
      assert IsSpace(l[indent]);
    }
  }

  lemma {:induction false} BlanksKeepFence(y: seq<string>, fence: Fence)
    requires forall i | 0 <= i < |y| :: Blank(y[i])
    ensures FenceAfter(y, fence) == fence
    decreases |y|
  {
    if y == [] {
    } else {
      hide NextFence, Blank;
      BlankKeepsFence(y[0], fence);
      BlanksKeepFence(y[1..], fence);
    }
  }

  lemma DashOpensNoFence(l: string)
    requires l != "" && l[0] == '-'
    ensures !OpensFence(l)
  {
    assert LeadingRun(l, ' ') == 0;
  }

  // ---- One section, on annotated lines -----------------------------------------------------------

  /** `items` with `own` put in at `n`. */
  function With(items: seq<Item>, n: nat, own: seq<Item>): seq<Item>
    requires n <= |items|
  {
    items[..n] + (own + items[n..])
  }

  ghost predicate OneSection(before: seq<Line>, header: Line, s: seq<Line>, after: seq<Line>, h: Heading) {
    NoHeader(before, h) && IsHeader(header, h) && NoEnd(s) && (after == [] || EndsSection(after[0]))
  }

  function Whole(before: seq<Line>, header: Line, s: seq<Line>, after: seq<Line>): seq<Line> {
    before + ([header] + (s + after))
  }

  lemma ItemsOfWhole(before: seq<Line>, header: Line, s: seq<Line>, after: seq<Line>, h: Heading)
    requires OneSection(before, header, s, after, h)
    ensures ItemsIn(Whole(before, header, s, after), h) == ItemsOf(s, h, |before| + 1)
  {
    hide ItemsOf, ItemsIn, Scan;
    ScanOfParts(before, header, s, after, h);
    ItemsInIsScan(Whole(before, header, s, after), h);
  }

  lemma OtherItemsOfWhole(
    before: seq<Line>, header: Line, s: seq<Line>, s': seq<Line>, after: seq<Line>, h: Heading, h': Heading)
    requires h != h' && OneSection(before, header, s, after, h) && NoEnd(s')
    ensures Unplaced(ItemsIn(Whole(before, header, s, after), h')) ==
      Unplaced(ItemsIn(Whole(before, header, s', after), h'))
  {
    hide ItemsOf, ItemsIn, Scan, Unplaced;
    OtherHeading(before, header, s, s', after, h, h');
    ItemsInIsScan(Whole(before, header, s, after), h');
    ItemsInIsScan(Whole(before, header, s', after), h');
  }

  /** A line with a dash that holds no item, or no line at all at the end of a section. */
  ghost predicate FreePlace(place: seq<Line>, q: seq<Line>, h: Heading) {
    || (|place| == 1 && Dash(place[0]) && ParseListItem(place[0].text, h).None?)
    || (place == [] && AllBlank(q))
  }

  lemma SplitItems(p: seq<Item>, own: seq<Item>, q: seq<Item>)
    ensures p + (own + q) == With(p + q, |p|, own)
  {
    assert (p + q)[..|p|] == p && (p + q)[|p|..] == q;
  }

  lemma NoOwnItem(l: Line, q: seq<Line>, h: Heading, at: nat)
    requires ParseListItem(l.text, h).None?
    ensures OwnItem(l, q, h, at) == []
  {
  }

  lemma ItemsWithoutOwn(p: seq<Line>, place: seq<Line>, q: seq<Line>, h: Heading, at: nat)
    requires FreePlace(place, q, h)
    ensures var rest := if place == [] then [] else ItemsOf(q, h, at + |p| + 1);
            ItemsOf(p + place + q, h, at) == ItemsOf(p, h, at) + rest
  {
    hide ItemsOf, OwnItem, Dash, Blank;
    if place == [] {
      assert p + place == p;
      ItemsBeforeBlanks(p, q, h, at);
    } else {
      assert place == [place[0]];
      ItemsAround(p, place[0], q, h, at);
      NoOwnItem(place[0], q, h, at + |p|);
    }
  }

  /** In one section, a line with an item at a free place adds its item there and leaves all the others as they were. */
  lemma SectionGains(p: seq<Line>, place: seq<Line>, l: Line, q: seq<Line>, h: Heading, at: nat)
    requires FreePlace(place, q, h) && Dash(l)
    ensures ItemsOf(p, h, at) <= ItemsOf(p + place + q, h, at)
    ensures ItemsOf(p + [l] + q, h, at)
         == With(ItemsOf(p + place + q, h, at), |ItemsOf(p, h, at)|, OwnItem(l, q, h, at + |p|))
  {
    hide ItemsOf, OwnItem, Dash, Blank, With, ParseListItem;
    var rest := if place == [] then [] else ItemsOf(q, h, at + |p| + 1);
    ItemsWithoutOwn(p, place, q, h, at);
    ItemsAround(p, l, q, h, at);
    if place == [] {
      BlanksHaveNoItems(q, h, at + |p| + 1);
    }
    SplitItems(ItemsOf(p, h, at), OwnItem(l, q, h, at + |p|), rest);
  }

  // ---- One line put into a text ------------------------------------------------------------------

  /** The text whose lines from `i` to `j` give way to one line. */
  function Replaced(lines: seq<string>, i: nat, j: nat, bullet: string): seq<string>
    requires i <= j <= |lines|
  {
    lines[..i] + ([bullet] + lines[j..])
  }

  /** A line that starts with a dash, outside fences, changes no other line. */
  lemma AnnotateReplaced(lines: seq<string>, i: nat, j: nat, bullet: string)
    requires i <= j <= |lines| && bullet != "" && bullet[0] == '-'
    requires FenceAfter(lines[..i], Outside) == Outside == FenceAfter(lines[..j], Outside)
    ensures var a := Annotate(lines, Outside);
            Annotate(Replaced(lines, i, j, bullet), Outside) == a[..i] + ([Line(bullet, true)] + a[j..])
  {
    hide Annotate, FenceAfter, OpensFence;
    DashOpensNoFence(bullet);
    assert lines == lines[..i] + lines[i..] && lines == lines[..j] + lines[j..];
    AnnotateBoth(lines[..i], lines[i..], Outside);
    AnnotateBoth(lines[..j], lines[j..], Outside);
    AnnotateBoth(lines[..i], [bullet] + lines[j..], Outside);
    AnnotateStep(bullet, lines[j..], Outside);
    assert Annotate(lines, Outside)[..i] == Annotate(lines[..i], Outside);
    assert Annotate(lines, Outside)[j..] == Annotate(lines[j..], Outside);
  }

  /** A section for the heading, and a free place in it. */
  ghost predicate PlaceFor(lines: seq<string>, h: Heading, b: Bounds, i: nat, j: nat) {
    var a := Annotate(lines, Outside);
    && SectionBounds(a, h) == Some(b)
    && b.start <= i <= j <= b.end
    && FenceAfter(lines[..i], Outside) == Outside == FenceAfter(lines[..j], Outside)
    && FreePlace(a[i..j], a[j..b.end], h)
  }

  lemma BoundsMakeSection(a: seq<Line>, h: Heading, b: Bounds)
    requires SectionBounds(a, h) == Some(b)
    ensures 0 < b.start <= b.end <= |a|
    ensures OneSection(a[..b.start - 1], a[b.start - 1], a[b.start..b.end], a[b.end..], h)
  {
    hide IsHeader, EndsSection;
  }

  lemma WholeText(a: seq<Line>, start: nat, end: nat, i: nat, j: nat)
    requires 0 < start <= i <= j <= end <= |a|
    ensures a == Whole(a[..start - 1], a[start - 1], a[start..end], a[end..])
    ensures a[start..end] == a[start..i] + a[i..j] + a[j..end]
  {
  }

  lemma WholeReplaced(a: seq<Line>, start: nat, end: nat, i: nat, j: nat, l: Line)
    requires 0 < start <= i <= j <= end <= |a|
    ensures a[..i] + ([l] + a[j..]) == Whole(a[..start - 1], a[start - 1], a[start..i] + [l] + a[j..end], a[end..])
  {
  }

  lemma NoEndsAround(s: seq<Line>, start: nat, i: nat, j: nat, end: nat, l: Line)
    requires start <= i <= j <= end <= |s| && NoEnd(s[start..end]) && !EndsSection(l)
    ensures NoEnd(s[start..i] + [l] + s[j..end])
  {
    hide EndsSection;
    forall k | 0 <= k < i - start ensures !EndsSection(s[start..i][k]) {
      assert s[start..i][k] == s[start..end][k];
    }
    forall k | 0 <= k < end - j ensures !EndsSection(s[j..end][k]) {
      assert s[j..end][k] == s[start..end][j - start + k];
    }
  }

  /** What a reader finds after a line has been put at a free place of the section of a heading. */
  lemma ReplacedItems(lines: seq<string>, h: Heading, b: Bounds, i: nat, j: nat, bullet: string)
    requires PlaceFor(lines, h, b, i, j) && bullet != "" && bullet[0] == '-'
    ensures var a, a' := Annotate(lines, Outside), Annotate(Replaced(lines, i, j, bullet), Outside);
            var ahead := ItemsOf(a[b.start..i], h, b.start);
            && ahead <= ItemsIn(a, h)
            && ItemsIn(a', h) == With(ItemsIn(a, h), |ahead|, OwnItem(Line(bullet, true), a[j..b.end], h, i))
            && forall h' | h' != h :: Unplaced(ItemsIn(a', h')) == Unplaced(ItemsIn(a, h'))
  {
    hide Annotate, FenceAfter, SectionBounds, FreePlace, OneSection, ItemsOf, ItemsIn, Whole, With, Unplaced, Dash;
    hide OwnItem, EndsSection;
    var a, l := Annotate(lines, Outside), Line(bullet, true);
    BoundsMakeSection(a, h, b);
    var header, p, place, q := a[b.start - 1], a[b.start..i], a[i..j], a[j..b.end];
    AnnotateReplaced(lines, i, j, bullet);
    WholeText(a, b.start, b.end, i, j);
    WholeReplaced(a, b.start, b.end, i, j, l);
    DashLine(bullet);
    assert NoEnd(a[b.start..b.end]) by {
      SectionHasNoEnd(a[..b.start - 1], header, a[b.start..b.end], a[b.end..], h);
    }
    NoEndsAround(a, b.start, i, j, b.end, l);
    ItemsOfWhole(a[..b.start - 1], header, a[b.start..b.end], a[b.end..], h);
    OtherSection(a[..b.start - 1], header, a[b.start..b.end], p + [l] + q, a[b.end..], h);
    ItemsOfWhole(a[..b.start - 1], header, p + [l] + q, a[b.end..], h);
    SectionGains(p, place, l, q, h, b.start);
    forall h' | h' != h
      ensures Unplaced(ItemsIn(Annotate(Replaced(lines, i, j, bullet), Outside), h')) == Unplaced(ItemsIn(a, h'))
    {
      OtherItemsOfWhole(a[..b.start - 1], header, a[b.start..b.end], p + [l] + q, a[b.end..], h, h');
    }
  }

  lemma SectionHasNoEnd(before: seq<Line>, header: Line, s: seq<Line>, after: seq<Line>, h: Heading)
    requires OneSection(before, header, s, after, h)
    ensures NoEnd(s)
  {
  }

  lemma OtherSection(before: seq<Line>, header: Line, s: seq<Line>, s': seq<Line>, after: seq<Line>, h: Heading)
    requires OneSection(before, header, s, after, h) && NoEnd(s')
    ensures OneSection(before, header, s', after, h)
  {
  }

  lemma DashLine(bullet: string)
    requires bullet != "" && bullet[0] == '-'
    ensures Dash(Line(bullet, true)) && !EndsSection(Line(bullet, true))
  {
    assert |bullet| >= 2 ==> bullet[..2][0] == '-';
  }

  // ---- The bullet --------------------------------------------------------------------------------

  /** Text that a reader takes for a checkbox once it stands after "- ". */
  predicate CheckboxText(t: string) {
    |t| >= 3 && t[0] == '[' && t[1] in " xX" && t[2] == ']' && (|t| == 3 || IsSpace(t[3]))
  }

  lemma {:induction false} TrimStartKeepsSingleLine(s: string)
    requires SingleLine(s)
    ensures SingleLine(TrimStart(s))
  {
  }

  lemma AfterOneBlank(t: string)
    requires Trimmed(t) && SingleLine(t)
    ensures AfterBlanks(" " + t) == Some(t)
  {
    assert (" " + t)[1..] == t;
    assert TrimStart(" " + t) == TrimStart(t) == t;
  }

  lemma CheckboxLine(line: string)
    ensures Checkbox(line).Some?
       <==> |line| >= 5 && line[0] == '-' && line[1] == ' ' && line[2] == '[' && line[3] in " xX" && line[4] == ']'
            && (|line| == 5 || AfterBlanks(line[5..]).Some?)
  {
    hide AfterBlanks;
    if |line| >= 3 {
      assert line[..3] == [line[0], line[1], line[2]];
    }
  }

  lemma AfterBlanksOfSingleLine(rest: string)
    requires SingleLine(rest)
    ensures AfterBlanks(rest).Some? <==> rest != "" && IsSpace(rest[0])
  {
    hide TrimStart, TrimEnd, SingleLine, IsSpace;
    TrimStartKeepsSingleLine(rest);
  }

  lemma NotesBullet(t: string)
    requires Trimmed(t) && SingleLine(t)
    ensures Checkbox("- " + t).Some? <==> CheckboxText(t)
    ensures AfterBlanks(("- " + t)[1..]) == Some(t)
  {
    hide SingleLine, AfterBlanks, Checkbox, IsSpace, Trimmed;
    var line := "- " + t;
    AfterOneBlank(t);
    assert line[1..] == " " + t;
    CheckboxLine(line);
    if |t| >= 3 {
      assert line[5..] == t[3..];
      EndOfLine(t, 3);
      AfterBlanksOfSingleLine(t[3..]);
    }
  }

  /** What a reader makes of the line that is appended: the item, unless its text is a checkbox of its own. */
  lemma BulletIsRead(h: Heading, t: string)
    requires Trimmed(t) && SingleLine(t)
    ensures ParseListItem(Marker(h) + t, h)
         == if h.FollowUps? then Some(Parsed(t, Some(false)))
            else if CheckboxText(t) then None
            else Some(Parsed(t, None))
  {
    hide AfterBlanks, CheckboxText;
    if h.FollowUps? {
      var line := "- [ ] " + t;
      AfterOneBlank(t);
      assert line[..3] == "- [" && line[5..] == " " + t;
    } else {
      NotesBullet(t);
    }
  }

  lemma BulletIsOneLine(h: Heading, t: string, newline: string)
    requires SingleLine(t)
    ensures BulletOf(h, t, newline) == Marker(h) + t
    ensures NoNewline(Marker(h) + t) && (t != "" ==> !EndsWith(Marker(h) + t, "\r"))
  {
    SplitNoNewline(t);
    LastCharacter(Marker(h) + t);
  }

  lemma PlaceholderHoldsNoItem(l: Line, h: Heading)
    requires l.visible && IsPlaceholder(l.text, h)
    ensures Dash(l) && ParseListItem(l.text, h).None?
  {
    var line := l.text;
    if h.FollowUps? {
      assert line[0] == line[..5][0] == '-' && line[..3] == line[..5][..3] == "- [";
      assert line[3] == line[..5][3] && line[4] == line[..5][4];
      TrimStartOfBlank(line[5..]);
    } else {
      TrimStartOfBlank(line[1..]);
      if |line| >= 3 {
        assert line[2] == line[1..][1] && line[..3][2] == line[2];
      }
    }
  }

  // ---- Where the bullet goes ---------------------------------------------------------------------

  ghost predicate NoOpenFence(lines: seq<string>) {
    FenceAfter(lines, Outside) == Outside
  }

  lemma PlaceholderIsPlace(lines: seq<string>, h: Heading, b: Bounds, i: nat)
    requires SectionBounds(Annotate(lines, Outside), h) == Some(b) && b.start <= i < b.end
    requires Annotate(lines, Outside)[i].visible && IsPlaceholder(lines[i], h)
    ensures PlaceFor(lines, h, b, i, i + 1)
  {
    hide Annotate, FenceAfter, SectionBounds, OpensFence, NextFence, IsPlaceholder, ParseListItem, Dash;
    AnnotateKeepsText(lines, Outside);
    VisibleIsOutside(lines, i);
    assert lines[..i + 1] == lines[..i] + [lines[i]];
    AnnotateBoth(lines[..i], [lines[i]], Outside);
    AnnotateOne(lines[i], Outside);
    NoOpening(lines[i]);
    PlaceholderHoldsNoItem(Annotate(lines, Outside)[i], h);
    OneLine(Annotate(lines, Outside), i);
  }

  lemma OneLine(a: seq<Line>, i: nat)
    requires i < |a|
    ensures a[i..i + 1] == [a[i]]
  {
  }

  lemma NoOpening(l: string)
    requires !OpensFence(l)
    ensures NextFence(Outside, l) == Outside
  {
  }

  lemma SectionEndIsVisible(a: seq<Line>, h: Heading, b: Bounds)
    requires SectionBounds(a, h) == Some(b)
    ensures b.start <= b.end <= |a| && (b.end < |a| ==> a[b.end].visible)
  {
    hide IsHeader;
  }

  lemma SectionEndIsOutside(lines: seq<string>, h: Heading, b: Bounds)
    requires SectionBounds(Annotate(lines, Outside), h) == Some(b) && NoOpenFence(lines)
    ensures b.start <= b.end <= |lines| && FenceAfter(lines[..b.end], Outside) == Outside
  {
    hide FenceAfter, Annotate, SectionBounds;
    SectionEndIsVisible(Annotate(lines, Outside), h, b);
    if b.end < |lines| {
      VisibleIsOutside(lines, b.end);
    } else {
      assert lines[..b.end] == lines;
    }
  }

  lemma BlanksBetweenKeepFence(lines: seq<string>, k: nat, end: nat)
    requires k <= end <= |lines| && forall i | k <= i < end :: Blank(lines[i])
    ensures FenceAfter(lines[..k], Outside) == FenceAfter(lines[..end], Outside)
  {
    hide Annotate, FenceAfter, Blank;
    assert lines[..end] == lines[..k] + lines[k..end];
    AnnotateBoth(lines[..k], lines[k..end], Outside);
    BlanksKeepFence(lines[k..end], FenceAfter(lines[..k], Outside));
  }

  lemma BlanksAreAnnotated(lines: seq<string>, k: nat, end: nat)
    requires k <= end <= |lines| && forall i | k <= i < end :: Blank(lines[i])
    ensures AllBlank(Annotate(lines, Outside)[k..end])
  {
    hide Annotate, Blank;
    AnnotateKeepsText(lines, Outside);
  }

  lemma InsertionIsPlace(lines: seq<string>, h: Heading, b: Bounds)
    requires SectionBounds(Annotate(lines, Outside), h) == Some(b) && NoOpenFence(lines)
    ensures b.start <= b.end <= |lines|
    ensures var k := InsertAt(lines, b.start, b.end); PlaceFor(lines, h, b, k, k)
  {
    hide Annotate, FenceAfter, SectionBounds, Blank, AllBlank, InsertAt, NoOpenFence;
    SectionEndIsOutside(lines, h, b);
    var k := InsertAt(lines, b.start, b.end);
    BlanksBetweenKeepFence(lines, k, b.end);
    BlanksAreAnnotated(lines, k, b.end);
    assert Annotate(lines, Outside)[k..k] == [];
  }

  /** The place where the appender puts the bullet: `lines[i..j]` gives way to it. */
  function PlaceIn(lines: seq<string>, h: Heading, b: Bounds): (r: (nat, nat))
    requires b.start <= b.end <= |lines|
    ensures b.start <= r.0 <= r.1 <= b.end
  {
    var i := FindPlaceholder(Annotate(lines, Outside), h, b.start, b.end);
    if i < b.end then (i, i + 1) else (InsertAt(lines, b.start, b.end), InsertAt(lines, b.start, b.end))
  }

  lemma UpdateReplaces(lines: seq<string>, i: nat, bullet: string)
    requires i < |lines|
    ensures lines[i := bullet] == Replaced(lines, i, i + 1, bullet)
  {
  }

  lemma InsertReplaces(lines: seq<string>, k: nat, bullet: string)
    requires k <= |lines|
    ensures lines[..k] + [bullet] + lines[k..] == Replaced(lines, k, k, bullet)
  {
  }

  lemma AppendIsReplaced(lines: seq<string>, h: Heading, b: Bounds, bullet: string)
    requires b.start <= b.end <= |lines|
    ensures var (i, j) := PlaceIn(lines, h, b); AppendToSection(lines, h, bullet, b) == Replaced(lines, i, j, bullet)
  {
    hide Annotate, IsPlaceholder, InsertAt, Replaced, FindPlaceholder;
    var i := FindPlaceholder(Annotate(lines, Outside), h, b.start, b.end);
    if i < b.end {
      UpdateReplaces(lines, i, bullet);
    } else {
      InsertReplaces(lines, InsertAt(lines, b.start, b.end), bullet);
    }
  }

  lemma PlaceholderText(lines: seq<string>, i: nat, h: Heading)
    requires i < |lines| && IsPlaceholder(Annotate(lines, Outside)[i].text, h)
    ensures IsPlaceholder(lines[i], h)
  {
    hide Annotate, IsPlaceholder;
    AnnotateKeepsText(lines, Outside);
  }

  lemma AppendUsesPlace(lines: seq<string>, h: Heading, b: Bounds)
    requires SectionBounds(Annotate(lines, Outside), h) == Some(b) && NoOpenFence(lines)
    ensures b.start <= b.end <= |lines|
    ensures var (i, j) := PlaceIn(lines, h, b); PlaceFor(lines, h, b, i, j)
  {
    hide Annotate, SectionBounds, PlaceFor, NoOpenFence, IsPlaceholder, InsertAt, FindPlaceholder;
    InsertionIsPlace(lines, h, b);
    var i := FindPlaceholder(Annotate(lines, Outside), h, b.start, b.end);
    if i < b.end {
      PlaceholderText(lines, i, h);
      PlaceholderIsPlace(lines, h, b, i);
    }
  }

  // ---- A note without the section ----------------------------------------------------------------

  lemma BlankLineIsNoHeading(l: Line, h: Heading)
    requires Blank(l.text)
    ensures !IsHeader(l, h) && !EndsSection(l)
  {
    if l.text != "" {
      assert IsSpace(l.text[0]);
      assert l.text[..1] == [l.text[0]];
    }
    if |l.text| >= 2 {
      assert l.text[..2][0] == l.text[0];
    }
    assert TrimEnd(l.text) == "";
  }

  lemma {:induction false} SectionBeforeBlank(a: seq<Line>, l: Line)
    requires Blank(l.text)
    ensures Section(a + [l]) == Section(a) || Section(a + [l]) == Section(a) + [l]
  {
    hide EndsSection, Blank;
    BlankLineIsNoHeading(l, Notes);
    if a == [] {
      assert a + [l] == [l] && [l][1..] == [];
    } else {
      assert (a + [l])[1..] == a[1..] + [l];
      SectionBeforeBlank(a[1..], l);
      assert [a[0]] + (Section(a[1..]) + [l]) == [a[0]] + Section(a[1..]) + [l];
    }
  }

  /** A blank line at the end of a text holds no item and ends no section. */
  lemma {:induction false} ScanBeforeBlank(a: seq<Line>, l: Line, h: Heading, at: nat)
    requires Blank(l.text)
    ensures Scan(a + [l], h, at) == Scan(a, h, at)
  {
    hide ItemsOf, Section, IsHeader, Blank;
    if a == [] {
      BlankLineIsNoHeading(l, h);
      assert a + [l] == [l] && [l][1..] == [];
    } else {
      assert (a + [l])[1..] == a[1..] + [l];
      if IsHeader(a[0], h) {
        SectionBeforeBlank(a[1..], l);
        ItemsBeforeBlanks(Section(a[1..]), [l], h, at + 1);
      } else {
        ScanBeforeBlank(a[1..], l, h, at + 1);
      }
    }
  }

  /** The end of a text is where a section may as well be ended by a heading. */
  lemma {:induction false} ScanBeforeHeading(a: seq<Line>, l: Line, h: Heading, at: nat)
    requires EndsSection(l) && !IsHeader(l, h)
    ensures Scan(a + [l], h, at) == Scan(a, h, at)
  {
    hide ItemsOf, Section, IsHeader, EndsSection;
    if a == [] {
      assert a + [l] == [l] && [l][1..] == [];
    } else {
      assert (a + [l])[1..] == a[1..] + [l];
      if IsHeader(a[0], h) {
        SectionStopsAt(a[1..], [l]);
      } else {
        ScanBeforeHeading(a[1..], l, h, at + 1);
      }
    }
  }

  lemma HeaderIsHeader(h: Heading)
    ensures IsHeader(Line(HeaderText(h), true), h)
  {
    var t := HeaderText(h);
    assert t[|t| - 1] == 's' || t[|t| - 1] == 'g';
  }

  lemma HeaderOpensNoFence(h: Heading)
    ensures !OpensFence(HeaderText(h))
  {
    assert HeaderText(h)[0] == '#';
    assert LeadingRun(HeaderText(h), ' ') == 0;
  }

  lemma HeaderIsClean(h: Heading)
    ensures NoNewline(HeaderText(h)) && !EndsWith(HeaderText(h), "\r")
  {
    LastCharacter(HeaderText(h));
    match h
    case FollowUps =>
    case Notes =>
    case Worklog =>
  }

  /** The lines before a new section. */
  function Base(content: string, newline: string): seq<string>
    requires newline != ""
  {
    if content == "" then []
    else if EndsWith(content, newline) then SplitOn(content, newline)
    else SplitOn(content, newline) + [""]
  }

  function NewLines(h: Heading, bullet: string): seq<string> {
    [HeaderText(h), "", bullet, ""]
  }

  lemma JoinNewLines(h: Heading, bullet: string, newline: string)
    ensures |NewLines(h, bullet)| == 4 && Join(NewLines(h, bullet), newline) == SectionText(h, bullet, newline)
  {
    var l := NewLines(h, bullet);
    hide Join, HeaderText;
    JoinStep(l, newline);
    JoinStep(l[1..], newline);
    JoinStep(l[2..], newline);
    assert l[1..][1..] == l[2..] && l[2..][1..] == [""];
    JoinLast(newline);
    assert "" + (newline + (bullet + (newline + ""))) == newline + (bullet + newline);
  }

  lemma JoinLast(sep: string)
    ensures Join([""], sep) == ""
  {
  }

  lemma JoinBlankLine(a: seq<string>, sep: string)
    requires a != []
    ensures Join(a + [""], sep) == Join(a, sep) + sep
  {
    hide Join;
    JoinBoth(a, [""], sep);
    JoinLast(sep);
    assert sep + "" == sep;
  }

  lemma EmptyBase(content: string, newline: string, rest: seq<string>)
    requires newline != "" && content == ""
    ensures Base(content, newline) + rest == rest
  {
  }

  lemma NewSectionIsJoined(content: string, h: Heading, bullet: string, newline: string)
    requires newline == "\n" || newline == "\r\n"
    ensures NewSection(content, h, bullet, newline) == Join(Base(content, newline) + NewLines(h, bullet), newline)
  {
    hide Join, EndsWith, SplitOn, NewLines, SectionText;
    JoinNewLines(h, bullet, newline);
    var rest, section := NewLines(h, bullet), SectionText(h, bullet, newline);
    if content == "" {
      EmptyBase(content, newline, rest);
      assert content + ("" + section) == section;
    } else {
      var lines := SplitOn(content, newline);
      JoinOfSplit(content, newline);
      JoinBoth(Base(content, newline), rest, newline);
      if !EndsWith(content, newline) {
        JoinBlankLine(lines, newline);
        Regroup(newline, newline, section);
        Regroup(content, newline, newline + section);
      }
    }
  }

  lemma NewLinesAnnotated(h: Heading, bullet: string)
    requires bullet != "" && bullet[0] == '-'
    ensures Annotate(NewLines(h, bullet), Outside)
         == [Line(HeaderText(h), true)] + ([Line("", true), Line(bullet, true), Line("", true)] + [])
  {
    hide Annotate, OpensFence, HeaderText;
    HeaderOpensNoFence(h);
    DashOpensNoFence(bullet);
    BlankKeepsFence("", Outside);
    NoBlankOpening();
    NoOpening(HeaderText(h));
    NoOpening(bullet);
    AnnotateStep(HeaderText(h), ["", bullet, ""], Outside);
    AnnotateStep("", [bullet, ""], Outside);
    AnnotateStep(bullet, [""], Outside);
    AnnotateOne("", Outside);
    assert NewLines(h, bullet) == [HeaderText(h)] + ["", bullet, ""];
    assert ["", bullet, ""] == [""] + [bullet, ""] && [bullet, ""] == [bullet] + [""];
  }

  lemma NoBlankOpening()
    ensures !OpensFence("")
  {
  }

  lemma NoItemsWithoutSection(a: seq<Line>, h: Heading)
    requires SectionBounds(a, h).None?
    ensures NoHeader(a, h) && ItemsIn(a, h) == []
  {
    hide IsHeader;
  }

  /** The items of the section that is added to a note. */
  lemma NewSectionItems(base: seq<Line>, header: Line, blank: Line, l: Line, h: Heading)
    requires NoHeader(base, h) && IsHeader(header, h) && Blank(blank.text) && Dash(l) && !EndsSection(l)
    ensures ItemsIn(base + ([header] + ([blank, l, blank] + [])), h) == OwnItem(l, [blank], h, |base| + 2)
    ensures forall h' | h' != h ::
      Unplaced(ItemsIn(base + ([header] + ([blank, l, blank] + [])), h')) == Unplaced(ItemsIn(base, h'))
  {
    hide ItemsIn, ItemsOf, OwnItem, IsHeader, EndsSection, Dash, Blank, Unplaced, Scan;
    BlankLineIsNoHeading(blank, h);
    var s := [blank, l, blank];
    assert s == [blank] + [l] + [blank];
    HeadersEndSections(header, h);
    ItemsOfWhole(base, header, s, [], h);
    ItemsAround([blank], l, [blank], h, |base| + 1);
    BlanksHaveNoItems([blank], h, |base| + 1);
    BlanksHaveNoItems([blank], h, |base| + 3);
    forall h' | h' != h ensures Unplaced(ItemsIn(base + ([header] + (s + [])), h')) == Unplaced(ItemsIn(base, h')) {
      OtherItemsOfWhole(base, header, s, [], [], h, h');
      HeadersDiffer(header, h, h');
      ScanBeforeHeading(base, header, h', 0);
      assert base + ([header] + ([] + [])) == base + [header];
      ItemsInIsScan(base + [header], h');
      ItemsInIsScan(base, h');
    }
  }

  /** The lines before the new section, as a reader sees them: those of the note, or one blank line more or less. */
  lemma BaseAnnotated(content: string, newline: string)
    requires newline != "" && NoOpenFence(SplitOn(content, newline))
    ensures NoOpenFence(Base(content, newline))
    ensures var a, base := Annotate(SplitOn(content, newline), Outside), Annotate(Base(content, newline), Outside);
            base == a || base + [Line("", true)] == a || base == a + [Line("", true)]
  {
    hide Annotate, FenceAfter, EndsWith;
    AnnotateOne("", Outside);
    BlankKeepsFence("", Outside);
    NoBlankOpening();
    AnnotateNothing(Outside);
    AnnotateBoth(SplitOn(content, newline), [""], Outside);
    if content == "" {
      assert SplitOn(content, newline) == [""];
      assert [] + [Line("", true)] == [Line("", true)];
    }
  }

  lemma SameItemsAtBlankEnd(a: seq<Line>, base: seq<Line>, h: Heading)
    requires base == a || base + [Line("", true)] == a || base == a + [Line("", true)]
    ensures ItemsIn(base, h) == ItemsIn(a, h)
    ensures NoHeader(a, h) ==> NoHeader(base, h)
  {
    hide ItemsIn, Scan, IsHeader;
    BlankLineIsNoHeading(Line("", true), h);
    ScanBeforeBlank(a, Line("", true), h, 0);
    ScanBeforeBlank(base, Line("", true), h, 0);
    ItemsInIsScan(a, h);
    ItemsInIsScan(base, h);
    if NoHeader(a, h) {
      forall i | 0 <= i < |base| ensures !IsHeader(base[i], h) {
        assert i < |a| ==> base[i] == a[i];
      }
    }
  }

  // ---- The note as a whole -----------------------------------------------------------------------

  /** The mark of an item that has just been added. */
  function FreshMark(h: Heading): Option<bool> {
    if h.FollowUps? then Some(false) else None
  }

  /** The line of the section that is an item without text, which a new item takes over, or the end of the section. */
  function Placeholder(a: seq<Line>, h: Heading, b: Bounds): (i: nat)
    requires b.start <= b.end <= |a|
    ensures b.start <= i <= b.end
  {
    FindPlaceholder(a, h, b.start, b.end)
  }

  predicate NoPlaceholder(a: seq<Line>, h: Heading) {
    match SectionBounds(a, h)
    case None => true
    case Some(b) => Placeholder(a, h, b) == b.end
  }

  /** The items that a new one comes after: those before the item without text, or all. */
  function ItemsAhead(a: seq<Line>, h: Heading): seq<Item> {
    match SectionBounds(a, h)
    case None => []
    case Some(b) => ItemsOf(a[b.start..Placeholder(a, h, b)], h, b.start)
  }

  /** The details that a new item finds: those under the item without text. */
  function DetailsTaken(a: seq<Line>, h: Heading): seq<string> {
    match SectionBounds(a, h)
    case None => []
    case Some(b) => var i := Placeholder(a, h, b); if i < b.end then NestedDetails(a[i + 1..b.end]) else []
  }

  /**
   The old items in order, and exactly one new item after those ahead of it, with the details that were there. Without
   an item to take over it is the last, and has no details.
   */
  ghost predicate Gained(before: seq<Line>, after: seq<Line>, t: string, h: Heading) {
    var items, more, ahead := ItemsIn(before, h), ItemsIn(after, h), ItemsAhead(before, h);
    && ahead <= items && |more| == |items| + 1
    && more == With(items, |ahead|, [more[|ahead|]])
    && var own := more[|ahead|];
       && own.text == t && own.checked == FreshMark(h) && own.details == DetailsTaken(before, h)
       && (NoPlaceholder(before, h) ==> ahead == items && own.details == [])
  }

  /** What becomes of the items of a note when `t` is appended to the section of a heading. */
  ghost predicate Appended(before: seq<Line>, after: seq<Line>, h: Heading, t: string) {
    && (if h.FollowUps? || !CheckboxText(t) then
          Gained(before, after, t, h)
        else
          ItemsIn(after, h) == ItemsIn(before, h))
    && forall h' | h' != h :: Unplaced(ItemsIn(after, h')) == Unplaced(ItemsIn(before, h'))
  }

  lemma OwnItemOfBullet(h: Heading, t: string, rest: seq<Line>, at: nat)
    requires Trimmed(t) && SingleLine(t)
    ensures OwnItem(Line(Marker(h) + t, true), rest, h, at)
         == if h.FollowUps? || !CheckboxText(t) then [Item(t, NestedDetails(rest), FreshMark(h), at + 1)] else []
  {
    hide ParseListItem, CheckboxText, NestedDetails;
    BulletIsRead(h, t);
  }

  lemma NothingToTakeOver(a: seq<Line>, h: Heading)
    requires NoPlaceholder(a, h)
    ensures ItemsAhead(a, h) == ItemsIn(a, h) && DetailsTaken(a, h) == []
  {
    hide ItemsOf, FindPlaceholder, SectionBounds;
  }

  lemma GainsOwnItem(before: seq<Line>, after: seq<Line>, h: Heading, t: string, rest: seq<Line>, at: nat)
    requires Trimmed(t) && SingleLine(t) && ItemsAhead(before, h) <= ItemsIn(before, h)
    requires ItemsIn(after, h)
          == With(ItemsIn(before, h), |ItemsAhead(before, h)|, OwnItem(Line(Marker(h) + t, true), rest, h, at))
    requires NestedDetails(rest) == DetailsTaken(before, h)
    requires forall h' | h' != h :: Unplaced(ItemsIn(after, h')) == Unplaced(ItemsIn(before, h'))
    ensures Appended(before, after, h, t)
  {
    hide ItemsIn, ItemsAhead, DetailsTaken, OwnItem, CheckboxText, NestedDetails, Unplaced, Trimmed, SingleLine;
    hide NoPlaceholder;
    OwnItemOfBullet(h, t, rest, at);
    if NoPlaceholder(before, h) {
      NothingToTakeOver(before, h);
    }
    var items, n := ItemsIn(before, h), |ItemsAhead(before, h)|;
    if h.FollowUps? || !CheckboxText(t) {
      assert ItemsIn(after, h)[n] == Item(t, NestedDetails(rest), FreshMark(h), at + 1);
    } else {
      assert items[..n] + ([] + items[n..]) == items;
    }
  }

  lemma MarkerIsDash(h: Heading, t: string)
    ensures Marker(h) + t != "" && (Marker(h) + t)[0] == '-'
  {
  }

  lemma ReplacedIsClean(lines: seq<string>, i: nat, j: nat, bullet: string, newline: string)
    requires i <= j <= |lines| && Clean(lines, newline)
    requires NoNewline(bullet) && !EndsWith(bullet, "\r")
    ensures Clean(Replaced(lines, i, j, bullet), newline)
  {
    hide NoNewline, EndsWith;
  }

  lemma NewTextIsClean(base: seq<string>, h: Heading, bullet: string, newline: string)
    requires base == [] || Clean(base, newline)
    requires NoNewline(bullet) && !EndsWith(bullet, "\r")
    ensures Clean(base + NewLines(h, bullet), newline)
  {
    hide HeaderText;
    HeaderIsClean(h);
    hide NoNewline;
    assert NoNewline("") by {
      NoNewlineInNothing();
    }
  }

  lemma NoNewlineInNothing()
    ensures NoNewline("")
  {
  }

  /** The bullet put at its place in a section that is there already. */
  lemma AppendsToSection(content: string, h: Heading, t: string, newline: string, b: Bounds)
    requires newline == "\n" || newline == "\r\n"
    requires Clean(SplitOn(content, newline), newline) && NoOpenFence(SplitOn(content, newline))
    requires Trimmed(t) && SingleLine(t)
    requires SectionBounds(Annotate(SplitOn(content, newline), Outside), h) == Some(b)
    ensures b.start <= b.end <= |SplitOn(content, newline)|
    ensures var lines := SplitOn(content, newline);
            var lines' := SplitLines(Join(AppendToSection(lines, h, Marker(h) + t, b), newline));
            Appended(Annotate(lines, Outside), Annotate(lines', Outside), h, t)
  {
    hide *;
    var lines, bullet := SplitOn(content, newline), Marker(h) + t;
    AppendUsesPlace(lines, h, b);
    var (i, j) := PlaceIn(lines, h, b);
    AppendIsReplaced(lines, h, b, bullet);
    MarkerIsDash(h, t);
    BulletIsOneLine(h, t, newline);
    TrimmedIsNotEmpty(t);
    ReplacedIsClean(lines, i, j, bullet, newline);
    SplitOfJoin(Replaced(lines, i, j, bullet), newline);
    ReplacedItems(lines, h, b, i, j, bullet);
    PlaceIsAhead(lines, h, b);
    var a, a' := Annotate(lines, Outside), Annotate(Replaced(lines, i, j, bullet), Outside);
    GainsOwnItem(a, a', h, t, a[j..b.end], i);
  }

  /** The place of the bullet is where the item without text is, or after every item of the section. */
  lemma PlaceIsAhead(lines: seq<string>, h: Heading, b: Bounds)
    requires SectionBounds(Annotate(lines, Outside), h) == Some(b) && b.start <= b.end <= |lines|
    requires var (i, j) := PlaceIn(lines, h, b); PlaceFor(lines, h, b, i, j)
    ensures var (i, j) := PlaceIn(lines, h, b);
            var a := Annotate(lines, Outside);
            ItemsOf(a[b.start..i], h, b.start) == ItemsAhead(a, h) && NestedDetails(a[j..b.end]) == DetailsTaken(a, h)
  {
    hide Annotate, SectionBounds, AllBlank, ItemsOf, FindPlaceholder, InsertAt, Dash, ParseListItem, FenceAfter;
    hide NestedDetails;
    var (i, j) := PlaceIn(lines, h, b);
    var a := Annotate(lines, Outside);
    if NoPlaceholder(a, h) {
      assert a[i..j] == [];
      assert a[b.start..b.end] == a[b.start..i] + a[j..b.end];
      ItemsBeforeBlanks(a[b.start..i], a[j..b.end], h, b.start);
      BlanksHaveNoItems(a[j..b.end], h, b.start);
    }
  }

  lemma TrimmedIsNotEmpty(t: string)
    requires Trimmed(t)
    ensures t != ""
  {
  }

  lemma BaseIsClean(content: string, newline: string)
    requires newline != "" && Clean(SplitOn(content, newline), newline)
    ensures Base(content, newline) == [] || Clean(Base(content, newline), newline)
  {
    hide NoNewline, SplitOn;
    NoNewlineInNothing();
    LastCharacter("");
  }

  lemma AnnotatedNewSection(base: seq<string>, h: Heading, bullet: string)
    requires NoOpenFence(base) && bullet != "" && bullet[0] == '-'
    ensures Annotate(base + NewLines(h, bullet), Outside)
         == Annotate(base, Outside)
            + ([Line(HeaderText(h), true)] + ([Line("", true), Line(bullet, true), Line("", true)] + []))
  {
    hide Annotate, NewLines, FenceAfter, HeaderText;
    AnnotateBoth(base, NewLines(h, bullet), Outside);
    NewLinesAnnotated(h, bullet);
  }

  /** A new section at the end of a note that has none for the heading. */
  lemma AppendsNewSection(content: string, h: Heading, t: string, newline: string)
    requires newline == "\n" || newline == "\r\n"
    requires Clean(SplitOn(content, newline), newline) && NoOpenFence(SplitOn(content, newline))
    requires Trimmed(t) && SingleLine(t)
    requires SectionBounds(Annotate(SplitOn(content, newline), Outside), h).None?
    ensures var lines' := SplitLines(NewSection(content, h, Marker(h) + t, newline));
            Appended(Annotate(SplitOn(content, newline), Outside), Annotate(lines', Outside), h, t)
  {
    hide *;
    var bullet, base := Marker(h) + t, Base(content, newline);
    var a, aBase := Annotate(SplitOn(content, newline), Outside), Annotate(base, Outside);
    var blank, l := Line("", true), Line(bullet, true);
    TrimmedIsNotEmpty(t);
    MarkerIsDash(h, t);
    BulletIsOneLine(h, t, newline);
    BaseIsClean(content, newline);
    NewTextIsClean(base, h, bullet, newline);
    NewSectionIsJoined(content, h, bullet, newline);
    SplitOfJoin(base + NewLines(h, bullet), newline);
    BaseAnnotated(content, newline);
    AnnotatedNewSection(base, h, bullet);
    NoItemsWithoutSection(a, h);
    SameItemsAtBlankEnd(a, aBase, h);
    HeaderIsHeader(h);
    DashLine(bullet);
    NothingIsBlank();
    NewSectionItems(aBase, Line(HeaderText(h), true), blank, l, h);
    forall h' | h' != h ensures ItemsIn(aBase, h') == ItemsIn(a, h') {
      SameItemsAtBlankEnd(a, aBase, h');
    }
    WithNothing(OwnItem(l, [blank], h, |aBase| + 2));
    NothingAhead(a, h);
    OneBlankLine(blank);
    BlanksHaveNoItems([blank], h, 0);
    GainsOwnItem(a, Annotate(base + NewLines(h, bullet), Outside), h, t, [blank], |aBase| + 2);
  }

  lemma NothingAhead(a: seq<Line>, h: Heading)
    requires SectionBounds(a, h).None?
    ensures ItemsAhead(a, h) == [] && DetailsTaken(a, h) == []
  {
    hide SectionBounds;
  }

  lemma OneBlankLine(blank: Line)
    requires Blank(blank.text)
    ensures AllBlank([blank])
  {
  }

  lemma NothingIsBlank()
    ensures Blank("")
  {
  }

  lemma WithNothing(own: seq<Item>)
    ensures With([], 0, own) == own
  {
    assert [][..0] + (own + [][0..]) == own;
  }

  /**
   Appending one line of text to a heading of a note of one newline style and without an open fence, and reading the
   note again, gives the old items of the heading in order, with their details, and exactly one new item, unless a
   reader takes the text itself for a checkbox, in which case it gives the old items alone. The new item takes the
   place and the details of the first item without text, and is the last and has no details if there is none. The
   items of the other headings stay the same up to where they stand.
   */
  lemma AppendThenExtract(content: string, h: Heading, text: string)
    requires OneNewlineStyle(content) && NoOpenFence(SplitLines(content))
    requires Trim(text) != "" && SingleLine(Trim(text))
    ensures var r := Append(content, h, text);
            && r.Ok?
            && (if h.FollowUps? || !CheckboxText(Trim(text)) then
                  Gained(Read(content), Read(r.value), Trim(text), h)
                else
                  Items(r.value, h) == Items(content, h))
            && forall h' | h' != h :: Unplaced(Items(r.value, h')) == Unplaced(Items(content, h'))
  {
    hide OneNewlineStyle, SplitLines, SplitOn, NewlineOf, Annotate, SectionBounds, ItemsIn, Trim, TrimStart, TrimEnd;
    hide SingleLine;
    hide AppendToSection, NewSection, Clean, NoOpenFence, Join, BulletOf, Marker, CheckboxText, Gained, Unplaced;
    hide Trimmed, NoPlaceholder;
    var newline, t := NewlineOf(content), Trim(text);
    NewlineIsOneOfTwo(content);
    SplitsAgree(content);
    TrimIsTrimmed(text);
    BulletIsOneLine(h, t, newline);
    match SectionBounds(Annotate(SplitOn(content, newline), Outside), h)
    case None => AppendsNewSection(content, h, t, newline);
    case Some(b) => AppendsToSection(content, h, t, newline, b);
  }

  lemma NewlineIsOneOfTwo(content: string)
    ensures NewlineOf(content) == "\n" || NewlineOf(content) == "\r\n"
  {
  }

  lemma ATextLikeACheckbox(text: string)
    requires text == "[x] done"
    ensures Trimmed(text) && SingleLine(text) && CheckboxText(text)
  {
  }

  /** A note item that starts like a checkbox is written to the note, and no reader finds it there. */
  lemma CheckboxTextIsLost(content: string, h: Heading)
    requires OneNewlineStyle(content) && NoOpenFence(SplitLines(content)) && !h.FollowUps?
    ensures var r := Append(content, h, "[x] done"); r.Ok? && Items(r.value, h) == Items(content, h)
  {
    var text := "[x] done";
    hide *;
    ATextLikeACheckbox(text);
    TrimIsTrimmed(text);
    TrimmedIsNotEmpty(text);
    AppendThenExtract(content, h, text);
  }
}
