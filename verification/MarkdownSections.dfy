/**
 Sections of a Markdown note: which lines stand outside fenced code (CommonMark, section 4.5), where the
 section of a heading lies, which list items it holds, and how an item is appended to it.
 */
module MarkdownSections {
  import opened Wrappers
  import opened Sequences
  import opened TextLines

  // ---- Fences ------------------------------------------------------------------------------------

  datatype Fence = Outside | Inside(mark: char, length: nat)

  function LeadingRun(s: string, c: char): (n: nat)
    ensures n <= |s| && (forall i | 0 <= i < n :: s[i] == c) && (n < |s| ==> s[n] != c)
  {
    if s != "" && s[0] == c then 1 + LeadingRun(s[1..], c) else 0
  }

  /** A run of backticks or tildes after at most three spaces, and what follows it. */
  datatype FenceRun = NoRun | FenceRun(mark: char, length: nat, after: string)

  function RunOf(line: string): FenceRun {
    var indent := LeadingRun(line, ' ');
    var text := line[indent..];
    if indent > 3 || text == "" || (text[0] != '`' && text[0] != '~') then
      NoRun
    else
      var length := LeadingRun(text, text[0]);
      FenceRun(text[0], length, text[length..])
  }

  predicate OpensFence(line: string) {
    match RunOf(line)
    case NoRun => false
    case FenceRun(mark, length, after) => length >= 3 && SingleLine(after) && (mark == '~' || '`' !in after)
  }

  predicate ClosesFence(line: string, mark: char, length: nat) {
    match RunOf(line)
    case NoRun => false
    case FenceRun(m, n, after) => Blank(after) && m == mark && n >= length
  }

  /** The fence after the line. */
  function NextFence(fence: Fence, line: string): Fence {
    match fence
    case Inside(mark, length) => if ClosesFence(line, mark, length) then Outside else fence
    case Outside => if OpensFence(line) then Inside(RunOf(line).mark, RunOf(line).length) else Outside
  }

  function FenceAfter(lines: seq<string>, fence: Fence): Fence
    decreases |lines|
  {
    if lines == [] then fence else FenceAfter(lines[1..], NextFence(fence, lines[0]))
  }

  datatype Line = Line(text: string, visible: bool)

  function Annotate(lines: seq<string>, fence: Fence): (r: seq<Line>)
    ensures |r| == |lines|
    decreases |lines|
  {
    if lines == [] then
      []
    else
      [Line(lines[0], fence.Outside? && !OpensFence(lines[0]))] + Annotate(lines[1..], NextFence(fence, lines[0]))
  }

  lemma {:induction false} AnnotateKeepsText(lines: seq<string>, fence: Fence)
    ensures forall i | 0 <= i < |lines| :: Annotate(lines, fence)[i].text == lines[i]
    decreases |lines|
  {
    if lines == [] {
    } else {
      AnnotateKeepsText(lines[1..], NextFence(fence, lines[0]));
    }
  }

  method VisibleMarkdownLines(lines: seq<string>) returns (visible: seq<bool>)
    ensures |visible| == |lines|
    ensures forall i | 0 <= i < |lines| :: visible[i] == Annotate(lines, Outside)[i].visible
  {
    visible := [];
    var fence := Outside;
    for k := 0 to |lines|
      invariant |visible| == k
      invariant forall i | 0 <= i < k :: visible[i] == Annotate(lines, Outside)[i].visible
      invariant Annotate(lines, Outside)[k..] == Annotate(lines[k..], fence)
    {
      var line := lines[k];
      assert lines[k..][1..] == lines[k + 1..];
      assert Annotate(lines, Outside)[k] == Annotate(lines[k..], fence)[0];
      assert Annotate(lines, Outside)[k + 1..] == Annotate(lines[k..], fence)[1..];
      if fence.Inside? {
        visible := visible + [false];
        if ClosesFence(line, fence.mark, fence.length) {
          fence := Outside;
        }
        continue;
      }
      var opensFence := OpensFence(line);
      visible := visible + [!opensFence];
      if opensFence {
        fence := Inside(RunOf(line).mark, RunOf(line).length);
      }
    }
  }

  // ---- Sections ----------------------------------------------------------------------------------

  datatype Heading = FollowUps | Notes | Worklog

  function HeaderText(h: Heading): string {
    match h
    case FollowUps => "## Follow-ups"
    case Notes => "## Notes"
    case Worklog => "## Worklog"
  }

  predicate IsHeader(l: Line, h: Heading) {
    l.visible && TrimEnd(l.text) == HeaderText(h)
  }

  /** A visible heading of level two ends the section before it. */
  predicate EndsSection(l: Line) {
    l.visible && |l.text| >= 2 && l.text[..2] == "##" && (|l.text| == 2 || IsSpace(l.text[2]))
  }

  datatype Bounds = Bounds(start: nat, end: nat)

  function FindHeader(a: seq<Line>, h: Heading, from: nat): (i: nat)
    requires from <= |a|
    ensures from <= i <= |a| && (i < |a| ==> IsHeader(a[i], h))
    ensures forall k | from <= k < i :: !IsHeader(a[k], h)
    decreases |a| - from
  {
    if from == |a| || IsHeader(a[from], h) then from else FindHeader(a, h, from + 1)
  }

  function FindSectionEnd(a: seq<Line>, from: nat): (i: nat)
    requires from <= |a|
    ensures from <= i <= |a| && (i < |a| ==> EndsSection(a[i]))
    ensures forall k | from <= k < i :: !EndsSection(a[k])
    decreases |a| - from
  {
    if from == |a| || EndsSection(a[from]) then from else FindSectionEnd(a, from + 1)
  }

  /** The lines between the first header of the heading and the next heading of level two, or the end. */
  ghost predicate AreBounds(a: seq<Line>, h: Heading, b: Bounds) {
    && 0 < b.start <= b.end <= |a| && IsHeader(a[b.start - 1], h)
    && (forall k | 0 <= k < b.start - 1 :: !IsHeader(a[k], h))
    && (forall k | b.start <= k < b.end :: !EndsSection(a[k]))
    && (b.end < |a| ==> EndsSection(a[b.end]))
  }

  function SectionBounds(a: seq<Line>, h: Heading): (r: Option<Bounds>)
    ensures r.Some? ==> r.value.start <= r.value.end <= |a|
  {
    var header := FindHeader(a, h, 0);
    if header == |a| then None else Some(Bounds(header + 1, FindSectionEnd(a, header + 1)))
  }

  lemma SectionBoundsMean(a: seq<Line>, h: Heading)
    ensures match SectionBounds(a, h)
            case Some(b) => AreBounds(a, h, b)
            case None => forall k | 0 <= k < |a| :: !IsHeader(a[k], h)
  {
    hide IsHeader, EndsSection;
  }

  // ---- Items -------------------------------------------------------------------------------------

  datatype Parsed = Parsed(text: string, checked: Option<bool>)

  datatype Item = Item(text: string, details: seq<string>, checked: Option<bool>, position: nat)

  /** `\s+(.*)$` on what follows a list marker: the trimmed text of the group. */
  function AfterBlanks(rest: string): Option<string> {
    if rest == "" || !IsSpace(rest[0]) || !SingleLine(TrimStart(rest)) then None else Some(TrimEnd(TrimStart(rest)))
  }

  /** A checkbox line: its mark and its text, if there is one. */
  function Checkbox(line: string): Option<Parsed> {
    if |line| < 5 || line[..3] != "- [" || line[4] != ']' || line[3] !in " xX" then
      None
    else if |line| == 5 then
      Some(Parsed("", Some(line[3] != ' ')))
    else
      match AfterBlanks(line[5..])
      case None => None
      case Some(text) => Some(Parsed(text, Some(line[3] != ' ')))
  }

  function ParseListItem(line: string, h: Heading): Option<Parsed> {
    if h.FollowUps? then
      match Checkbox(line)
      case Some(item) => if item.text != "" then Some(item) else None
      case None => None
    else if Checkbox(line).Some? || line == "" || line[0] != '-' then
      None
    else
      match AfterBlanks(line[1..])
      case Some(text) => if text != "" then Some(Parsed(text, None)) else None
      case None => None
  }

  /** `^-\s` */
  predicate DashSpace(line: string) {
    |line| >= 2 && line[0] == '-' && IsSpace(line[1])
  }

  function IndentRun(line: string): (n: nat)
    ensures n <= |line|
  {
    if line != "" && (line[0] == ' ' || line[0] == '\t') then 1 + IndentRun(line[1..]) else 0
  }

  /** `^[ \t]+\S` */
  predicate Indented(line: string) {
    var n := IndentRun(line);
    0 < n < |line| && !IsSpace(line[n])
  }

  function NestedDetails(a: seq<Line>): seq<string> {
    if a == [] then
      []
    else
      var l := a[0];
      if l.visible && DashSpace(l.text) then []
      else if !l.visible then NestedDetails(a[1..])
      else if Indented(l.text) then [Trim(l.text)] + NestedDetails(a[1..])
      else if !Blank(l.text) then []
      else NestedDetails(a[1..])
  }

  // ---- What the details of an item are -----------------------------------------------------------

  /** The list names the places of all marks, in order. */
  ghost predicate Lists(at: seq<nat>, marks: seq<bool>) {
    && (forall i, j | 0 <= i < j < |at| :: at[i] < at[j])
    && (forall i | 0 <= i < |at| :: at[i] < |marks| && marks[at[i]])
    && (forall k | 0 <= k < |marks| && marks[k] :: k in at)
  }

  function Later(at: seq<nat>): seq<nat> {
    seq(|at|, i requires 0 <= i < |at| => at[i] + 1)
  }

  lemma ListsUnmarked(at: seq<nat>, marks: seq<bool>)
    requires marks != [] && !marks[0] && Lists(at, marks[1..])
    ensures Lists(Later(at), marks)
  {
    forall k | 0 <= k < |marks| && marks[k] ensures k in Later(at) {
      assert marks[1..][k - 1];
      var i :| 0 <= i < |at| && at[i] == k - 1;
      assert Later(at)[i] == k;
    }
  }

  lemma ListsFirst(at: seq<nat>, marks: seq<bool>)
    requires marks != [] && marks[0] && Lists(at, marks[0 := false])
    ensures Lists([0] + at, marks)
  {
    var more := [0] + at;
    forall i | 0 <= i < |at| ensures 0 < at[i] < |marks| && marks[at[i]] {
      assert marks[0 := false][at[i]];
    }
    forall k | 0 <= k < |marks| && marks[k] ensures k in more {
      if k == 0 {
        assert more[0] == 0;
      } else {
        assert marks[0 := false][k];
      }
    }
  }

  lemma ListsMarked(at: seq<nat>, marks: seq<bool>)
    requires marks != [] && marks[0] && Lists(at, marks[1..])
    ensures Lists([0] + Later(at), marks)
  {
    hide Lists;
    assert marks[0 := false][1..] == marks[1..];
    ListsUnmarked(at, marks[0 := false]);
    ListsFirst(Later(at), marks);
  }

  /** A visible line that is another item, or neither indented nor blank, ends the details. */
  predicate EndsDetails(l: Line) {
    l.visible && (DashSpace(l.text) || (!Indented(l.text) && !Blank(l.text)))
  }

  predicate IsDetail(l: Line) {
    l.visible && Indented(l.text)
  }

  function DetailMarks(a: seq<Line>): seq<bool> {
    seq(|a|, k requires 0 <= k < |a| => IsDetail(a[k]))
  }

  ghost predicate TrimmedTexts(a: seq<Line>, at: seq<nat>, details: seq<string>) {
    |details| == |at| && forall i | 0 <= i < |at| :: at[i] < |a| && details[i] == Trim(a[at[i]].text)
  }

  ghost predicate DetailsEnd(a: seq<Line>, n: nat) {
    n <= |a| && (forall k | 0 <= k < n :: !EndsDetails(a[k])) && (n < |a| ==> EndsDetails(a[n]))
  }

  /** The details are, in order, the trimmed texts of all visible indented lines before the `n`th, which ends them. */
  ghost predicate DetailsAt(a: seq<Line>, n: nat, at: seq<nat>, details: seq<string>) {
    n <= |a| && DetailsEnd(a, n) && Lists(at, DetailMarks(a[..n])) && TrimmedTexts(a, at, details)
  }

  ghost predicate AreDetails(a: seq<Line>, details: seq<string>) {
    exists n: nat, at :: DetailsAt(a, n, at, details)
  }

  lemma DashIsNotIndented(text: string)
    requires DashSpace(text)
    ensures !Indented(text)
  {
  }

  lemma DetailsEndStep(a: seq<Line>, n: nat)
    requires a != [] && !EndsDetails(a[0]) && DetailsEnd(a[1..], n)
    ensures DetailsEnd(a, n + 1)
    ensures n + 1 <= |a| == |a[1..]| + 1 && |DetailMarks(a[..n + 1])| == n + 1
    ensures DetailMarks(a[..n + 1])[1..] == DetailMarks(a[1..][..n])
    ensures DetailMarks(a[..n + 1])[0] == IsDetail(a[0])
  {
    hide EndsDetails, IsDetail;
    forall k | 0 <= k < n + 1 ensures !EndsDetails(a[k]) {
      assert k > 0 ==> a[k] == a[1..][k - 1];
    }
    assert n < |a[1..]| ==> a[n + 1] == a[1..][n];
    assert a[..n + 1][1..] == a[1..][..n];
  }

  lemma TrimmedTextsStep(a: seq<Line>, at: seq<nat>, details: seq<string>)
    requires a != [] && TrimmedTexts(a[1..], at, details)
    ensures TrimmedTexts(a, Later(at), details)
    ensures TrimmedTexts(a, [0] + Later(at), [Trim(a[0].text)] + details)
  {
    hide Trim;
    var more, all := [0] + Later(at), [Trim(a[0].text)] + details;
    forall i | 0 <= i < |more| ensures more[i] < |a| && all[i] == Trim(a[more[i]].text) {
      if i > 0 {
        assert more[i] == at[i - 1] + 1 && all[i] == details[i - 1] && a[more[i]] == a[1..][at[i - 1]];
      }
    }
    forall i | 0 <= i < |at| ensures Later(at)[i] < |a| && details[i] == Trim(a[Later(at)[i]].text) {
      assert a[Later(at)[i]] == a[1..][at[i]];
    }
  }

  lemma NestedDetailsStep(a: seq<Line>)
    requires a != []
    ensures NestedDetails(a) ==
      if EndsDetails(a[0]) then []
      else if IsDetail(a[0]) then [Trim(a[0].text)] + NestedDetails(a[1..])
      else NestedDetails(a[1..])
  {
    hide Trim, Indented, DashSpace;
    if DashSpace(a[0].text) {
      DashIsNotIndented(a[0].text);
    }
  }

  /** What collecting the details of an item means. */
  lemma {:induction false} NestedDetailsMeans(a: seq<Line>)
    ensures AreDetails(a, NestedDetails(a))
  {
    hide NestedDetails, DetailsEnd, Lists, TrimmedTexts, DetailMarks, EndsDetails, IsDetail;
    if a == [] {
      NoDetails(a);
      assert DetailsAt(a, 0, [], NestedDetails(a));
    } else {
      NestedDetailsStep(a);
      if EndsDetails(a[0]) {
        NoDetails(a);
        assert DetailsAt(a, 0, [], NestedDetails(a));
      } else {
        NestedDetailsMeans(a[1..]);
        var n: nat, at :| DetailsAt(a[1..], n, at, NestedDetails(a[1..]));
        DetailsEndStep(a, n);
        TrimmedTextsStep(a, at, NestedDetails(a[1..]));
        if IsDetail(a[0]) {
          ListsMarked(at, DetailMarks(a[..n + 1]));
          assert DetailsAt(a, n + 1, [0] + Later(at), NestedDetails(a));
        } else {
          ListsUnmarked(at, DetailMarks(a[..n + 1]));
          assert DetailsAt(a, n + 1, Later(at), NestedDetails(a));
        }
      }
    }
  }

  lemma NoDetails(a: seq<Line>)
    requires a == [] || EndsDetails(a[0])
    ensures NestedDetails(a) == [] && DetailsEnd(a, 0) && Lists([], DetailMarks(a[..0])) && TrimmedTexts(a, [], [])
  {
    if a != [] {
      NestedDetailsStep(a);
    }
  }

  /** The item of the line `l` at `index`, when the lines `rest` of its section follow. */
  function OwnItem(l: Line, rest: seq<Line>, h: Heading, index: nat): seq<Item> {
    if !l.visible then
      []
    else
      match ParseListItem(l.text, h)
      case None => []
      case Some(p) => [Item(p.text, NestedDetails(rest), p.checked, index + 1)]
  }

  function ItemsOf(section: seq<Line>, h: Heading, first: nat): seq<Item> {
    if section == [] then
      []
    else
      OwnItem(section[0], section[1..], h, first) + ItemsOf(section[1..], h, first + 1)
  }

  function ItemsIn(a: seq<Line>, h: Heading): seq<Item> {
    match SectionBounds(a, h)
    case None => []
    case Some(b) => ItemsOf(a[b.start..b.end], h, b.start)
  }

  /** The items that a reader of the note gets for a heading. */
  function Items(content: string, h: Heading): seq<Item> {
    ItemsIn(Annotate(SplitLines(content), Outside), h)
  }

  /** The lines of a note as a reader sees them. */
  function Read(content: string): seq<Line> {
    Annotate(SplitLines(content), Outside)
  }

  // ---- What the items of a heading are -----------------------------------------------------------

  predicate IsItemLine(l: Line, h: Heading) {
    l.visible && ParseListItem(l.text, h).Some?
  }

  function ItemMarks(section: seq<Line>, h: Heading): seq<bool> {
    seq(|section|, k requires 0 <= k < |section| => IsItemLine(section[k], h))
  }

  /** The item has the text and the mark of the `k`th line of the section, and the details under that line. */
  ghost predicate IsItemOf(section: seq<Line>, h: Heading, first: nat, k: nat, item: Item) {
    && k < |section| && ParseListItem(section[k].text, h) == Some(Parsed(item.text, item.checked))
    && item.position == first + k + 1 && AreDetails(section[k + 1..], item.details)
  }

  ghost predicate ItemsOfLines(section: seq<Line>, h: Heading, first: nat, at: seq<nat>, items: seq<Item>) {
    |items| == |at| && forall i | 0 <= i < |at| :: IsItemOf(section, h, first, at[i], items[i])
  }

  /** The items are, in order, those of all visible item lines between the bounds of the section, if there is one. */
  ghost predicate ReadOff(a: seq<Line>, h: Heading, items: seq<Item>) {
    if forall k | 0 <= k < |a| :: !IsHeader(a[k], h) then
      items == []
    else
      exists b, at :: AreBounds(a, h, b) && ItemsBetweenAre(a, h, b, at, items)
  }

  ghost predicate ItemsBetweenAre(a: seq<Line>, h: Heading, b: Bounds, at: seq<nat>, items: seq<Item>)
    requires b.start <= b.end <= |a|
  {
    var section := a[b.start..b.end];
    Lists(at, ItemMarks(section, h)) && ItemsOfLines(section, h, b.start, at, items)
  }

  lemma IsItemOfLater(section: seq<Line>, h: Heading, first: nat, k: nat, item: Item)
    requires section != [] && IsItemOf(section[1..], h, first + 1, k, item)
    ensures IsItemOf(section, h, first, k + 1, item)
  {
    hide AreDetails, ParseListItem;
    assert section[1..][k] == section[k + 1] && section[1..][k + 1..] == section[k + 2..];
  }

  lemma ItemsOfLinesLater(section: seq<Line>, h: Heading, first: nat, at: seq<nat>, items: seq<Item>)
    requires section != [] && ItemsOfLines(section[1..], h, first + 1, at, items)
    ensures ItemsOfLines(section, h, first, Later(at), items)
  {
    hide IsItemOf;
    forall i | 0 <= i < |at| ensures IsItemOf(section, h, first, Later(at)[i], items[i]) {
      IsItemOfLater(section, h, first, at[i], items[i]);
    }
  }

  lemma ItemsOfLinesOneMore(section: seq<Line>, h: Heading, first: nat, at: seq<nat>, items: seq<Item>, own: Item)
    requires ItemsOfLines(section, h, first, at, items) && IsItemOf(section, h, first, 0, own)
    ensures ItemsOfLines(section, h, first, [0] + at, [own] + items)
  {
    hide IsItemOf;
    var more, all := [0] + at, [own] + items;
    forall i | 0 <= i < |more| ensures IsItemOf(section, h, first, more[i], all[i]) {
      assert i > 0 ==> more[i] == at[i - 1] && all[i] == items[i - 1];
    }
  }

  lemma OwnItemMeans(section: seq<Line>, h: Heading, first: nat)
    requires section != []
    ensures var own := OwnItem(section[0], section[1..], h, first);
            if IsItemLine(section[0], h) then |own| == 1 && IsItemOf(section, h, first, 0, own[0]) else own == []
    ensures |ItemMarks(section, h)| == |section| && ItemMarks(section, h)[0] == IsItemLine(section[0], h)
    ensures ItemMarks(section, h)[1..] == ItemMarks(section[1..], h)
  {
    hide AreDetails, ParseListItem;
    NestedDetailsMeans(section[1..]);
  }

  /** What the items of a section are. */
  lemma {:induction false} ItemsOfMeans(section: seq<Line>, h: Heading, first: nat) returns (at: seq<nat>)
    ensures Lists(at, ItemMarks(section, h)) && ItemsOfLines(section, h, first, at, ItemsOf(section, h, first))
    decreases |section|
  {
    if section == [] {
      at := [];
    } else {
      hide Lists, ItemMarks, ItemsOfLines, IsItemOf, OwnItem, IsItemLine;
      OwnItemMeans(section, h, first);
      at := ItemsOfMeans(section[1..], h, first + 1);
      var own, items := OwnItem(section[0], section[1..], h, first), ItemsOf(section[1..], h, first + 1);
      ItemsOfLinesLater(section, h, first, at, items);
      if IsItemLine(section[0], h) {
        ListsMarked(at, ItemMarks(section, h));
        ItemsOfLinesOneMore(section, h, first, Later(at), items, own[0]);
        assert own == [own[0]];
        at := [0] + Later(at);
      } else {
        ListsUnmarked(at, ItemMarks(section, h));
        assert own + items == items;
        at := Later(at);
      }
    }
  }

  lemma ItemsInMeans(a: seq<Line>, h: Heading)
    ensures ReadOff(a, h, ItemsIn(a, h))
  {
    hide IsHeader, EndsSection, ItemsOf, Lists, ItemMarks, ItemsOfLines;
    SectionBoundsMean(a, h);
    match SectionBounds(a, h)
    case None =>
    case Some(b) =>
      assert IsHeader(a[b.start - 1], h);
      var at := ItemsOfMeans(a[b.start..b.end], h, b.start);
      assert ItemsBetweenAre(a, h, b, at, ItemsIn(a, h));
  }

  method CollectNestedDetails(lines: seq<string>, visible: seq<bool>, start: nat, end: nat, ghost a: seq<Line>)
    returns (details: seq<string>)
    requires |visible| == |lines| == |a| && start <= end <= |lines|
    requires forall i | 0 <= i < |lines| :: a[i] == Line(lines[i], visible[i])
    ensures details == NestedDetails(a[start..end]) && AreDetails(a[start..end], details)
  {
    hide Trim, Indented, DashSpace, AreDetails;
    NestedDetailsMeans(a[start..end]);
    details := [];
    var index := start;
    while index < end
      invariant start <= index <= end
      invariant NestedDetails(a[start..end]) == details + NestedDetails(a[index..end])
    {
      var line := lines[index];
      assert a[index..end][0] == a[index] && a[index..end][1..] == a[index + 1..end];
      if visible[index] && DashSpace(line) {
        break;
      }
      TrimOfBlank(line);
      if visible[index] {
        if Indented(line) {
          assert details + ([Trim(line)] + NestedDetails(a[index + 1..end])) ==
            (details + [Trim(line)]) + NestedDetails(a[index + 1..end]);
          details := details + [Trim(line)];
        } else if Trim(line) != "" {
          break;
        }
      }
      index := index + 1;
    }
  }

  function ItemsBetween(a: seq<Line>, h: Heading, index: nat, end: nat): seq<Item>
    requires index <= end <= |a|
  {
    ItemsOf(a[index..end], h, index)
  }

  lemma ItemsStep(a: seq<Line>, h: Heading, index: nat, end: nat)
    requires index < end <= |a|
    ensures ItemsBetween(a, h, index, end)
         == OwnItem(a[index], a[index + 1..end], h, index) + ItemsBetween(a, h, index + 1, end)
  {
    assert a[index..end][0] == a[index] && a[index..end][1..] == a[index + 1..end];
  }

  /** The item of one line, if it has one. */
  method ItemAt(lines: seq<string>, visible: seq<bool>, h: Heading, index: nat, end: nat, ghost a: seq<Line>)
    returns (own: seq<Item>)
    requires |visible| == |lines| == |a| && index < end <= |lines|
    requires forall i | 0 <= i < |lines| :: a[i] == Line(lines[i], visible[i])
    ensures own == OwnItem(a[index], a[index + 1..end], h, index)
  {
    if !visible[index] {
      return [];
    }
    var parsed := ParseListItem(lines[index], h);
    if parsed.None? {
      return [];
    }
    var details := CollectNestedDetails(lines, visible, index + 1, end, a);
    return [Item(parsed.value.text, details, parsed.value.checked, index + 1)];
  }

  lemma ItemsAreRead(content: string, h: Heading)
    ensures ReadOff(Read(content), h, Items(content, h))
  {
    ItemsInMeans(Read(content), h);
  }

  lemma ItemsAreBetween(content: string, h: Heading)
    ensures var a := Annotate(SplitLines(content), Outside);
            match SectionBounds(a, h)
            case None => Items(content, h) == []
            case Some(b) =>
              Items(content, h) == ItemsBetween(a, h, b.start, b.end) && ItemsBetween(a, h, b.end, b.end) == []
  {
  }

  method ExtractListItems(content: string, h: Heading) returns (items: seq<Item>)
    ensures items == Items(content, h) && ReadOff(Read(content), h, items)
  {
    hide ItemsBetween, SplitLines, Annotate, SectionBounds, OwnItem, Items, ReadOff;
    ItemsAreRead(content, h);
    var lines := SplitLines(content);
    ghost var a := Annotate(lines, Outside);
    AnnotateKeepsText(lines, Outside);
    ItemsAreBetween(content, h);
    var bounds := SectionBounds(Annotate(lines, Outside), h);
    if bounds.None? {
      return [];
    }
    var visible := VisibleMarkdownLines(lines);
    var start, end := bounds.value.start, bounds.value.end;
    items := [];
    for index := start to end
      invariant Items(content, h) == items + ItemsBetween(a, h, index, end)
    {
      var own := ItemAt(lines, visible, h, index, end, a);
      ItemsStep(a, h, index, end);
      Regroup(items, own, ItemsBetween(a, h, index + 1, end));
      items := items + own;
    }
  }

  // ---- Appending ---------------------------------------------------------------------------------

  function Marker(h: Heading): string {
    if h.FollowUps? then "- [ ] " else "- "
  }

  /** An item line without text, which the next item may take over. */
  predicate IsPlaceholder(line: string, h: Heading) {
    if h.FollowUps? then
      |line| >= 5 && line[..5] == "- [ ]" && Blank(line[5..])
    else
      line != "" && line[0] == '-' && Blank(line[1..])
  }

  function FindPlaceholder(a: seq<Line>, h: Heading, from: nat, end: nat): (i: nat)
    requires from <= end <= |a|
    ensures from <= i <= end && (i < end ==> a[i].visible && IsPlaceholder(a[i].text, h))
    ensures forall k | from <= k < i :: !(a[k].visible && IsPlaceholder(a[k].text, h))
    decreases end - from
  {
    if from == end || (a[from].visible && IsPlaceholder(a[from].text, h)) then
      from
    else
      FindPlaceholder(a, h, from + 1, end)
  }

  /** The end of a section without its trailing blank lines. */
  function InsertAt(lines: seq<string>, start: nat, end: nat): (k: nat)
    requires start <= end <= |lines|
    ensures start <= k <= end && forall i | k <= i < end :: Blank(lines[i])
    ensures k > start ==> !Blank(lines[k - 1])
    decreases end
  {
    if end > start && Blank(lines[end - 1]) then InsertAt(lines, start, end - 1) else end
  }

  lemma FindPlaceholderStep(a: seq<Line>, h: Heading, from: nat, end: nat)
    requires from <= end <= |a|
    ensures from == end || (a[from].visible && IsPlaceholder(a[from].text, h)) ==>
      FindPlaceholder(a, h, from, end) == from
    ensures from < end && !(a[from].visible && IsPlaceholder(a[from].text, h)) ==>
      FindPlaceholder(a, h, from, end) == FindPlaceholder(a, h, from + 1, end)
  {
  }

  lemma InsertAtStep(lines: seq<string>, start: nat, end: nat)
    requires start <= end <= |lines|
    ensures InsertAt(lines, start, end) ==
      if end > start && Trim(lines[end - 1]) == "" then InsertAt(lines, start, end - 1) else end
  {
    if end > start {
      TrimOfBlank(lines[end - 1]);
    }
  }

  function BulletOf(h: Heading, text: string, newline: string): string {
    Marker(h) + Join(SplitLinesNonempty(text), newline + "  ")
  }

  function SplitLinesNonempty(text: string): (r: seq<string>)
    ensures r == SplitLines(text) && r != []
  {
    SplitLines(text)
  }

  /** The new lines of a note whose lines `lines` have a section for the heading. */
  function AppendToSection(lines: seq<string>, h: Heading, bullet: string, b: Bounds): (r: seq<string>)
    requires b.start <= b.end <= |lines|
    ensures r != []
  {
    var i := FindPlaceholder(Annotate(lines, Outside), h, b.start, b.end);
    if i < b.end then
      lines[i := bullet]
    else
      var k := InsertAt(lines, b.start, b.end);
      lines[..k] + [bullet] + lines[k..]
  }

  function SectionText(h: Heading, bullet: string, newline: string): string {
    HeaderText(h) + (newline + (newline + (bullet + newline)))
  }

  function NewSection(content: string, h: Heading, bullet: string, newline: string): string {
    var prefix := if content == "" then "" else if EndsWith(content, newline) then newline else newline + newline;
    content + (prefix + SectionText(h, bullet, newline))
  }

  datatype AppendError = EmptyText

  function Append(content: string, h: Heading, text: string): Result<string, AppendError> {
    if Trim(text) == "" then
      Err(EmptyText)
    else
      var newline := NewlineOf(content);
      var bullet := BulletOf(h, Trim(text), newline);
      var lines := SplitOn(content, newline);
      match SectionBounds(Annotate(lines, Outside), h)
      case None => Ok(NewSection(content, h, bullet, newline))
      case Some(b) =>
        Ok(Join(AppendToSection(lines, h, bullet, b), newline))
  }

  /** The place of the bullet: the first placeholder of the section, or after its last line that is not blank. */
  ghost predicate IsPlace(a: seq<Line>, h: Heading, b: Bounds, i: nat, j: nat) {
    && b.start <= i <= j <= b.end <= |a|
    && (forall k | b.start <= k < i :: !(a[k].visible && IsPlaceholder(a[k].text, h)))
    && if j == i then
         && (forall k | i <= k < b.end :: Blank(a[k].text) && !(a[k].visible && IsPlaceholder(a[k].text, h)))
         && (i > b.start ==> !Blank(a[i - 1].text))
       else
         j == i + 1 && a[i].visible && IsPlaceholder(a[i].text, h)
  }

  /** The note's lines are kept but for the bullet at its place. */
  ghost predicate WritesAt(
    lines: seq<string>, h: Heading, bullet: string, newline: string, r: string, b: Bounds, i: nat, j: nat)
    requires newline != ""
  {
    var a := Annotate(lines, Outside);
    AreBounds(a, h, b) && IsPlace(a, h, b, i, j) && r == Join(lines[..i] + [bullet] + lines[j..], newline)
  }

  /** What appending a bullet to a section writes; a section that is missing comes at the end, after a blank line. */
  ghost predicate Writes(content: string, h: Heading, bullet: string, newline: string, r: string)
    requires newline != ""
  {
    var lines := SplitOn(content, newline);
    var a := Annotate(lines, Outside);
    && content == Join(lines, newline)
    && if forall k | 0 <= k < |a| :: !IsHeader(a[k], h) then
         && content <= r && EndsWith(r, HeaderText(h) + newline + newline + bullet + newline)
         && var between := |r| - |content| - |HeaderText(h) + newline + newline + bullet + newline|;
            && between >= 0
            && r[|content|..|content| + between] ==
               if content == "" then "" else if EndsWith(content, newline) then newline else newline + newline
       else
         exists b, i, j :: WritesAt(lines, h, bullet, newline, r, b, i, j)
  }

  lemma NewSectionMeans(content: string, h: Heading, bullet: string, newline: string)
    ensures var r := NewSection(content, h, bullet, newline);
            var section := HeaderText(h) + newline + newline + bullet + newline;
            var prefix :=
              if content == "" then "" else if EndsWith(content, newline) then newline else newline + newline;
            r == content + prefix + section
  {
    hide HeaderText, EndsWith;
    var section := HeaderText(h) + newline + newline + bullet + newline;
    assert SectionText(h, bullet, newline) == section;
    var prefix := if content == "" then "" else if EndsWith(content, newline) then newline else newline + newline;
    Regroup(content, prefix, section);
  }

  lemma PartsOf(content: string, prefix: string, section: string)
    ensures var r := content + prefix + section;
            && content <= r && EndsWith(r, section) && |r| - |content| - |section| == |prefix|
            && r[|content|..|content| + |prefix|] == prefix
  {
  }

  lemma AppendToSectionMeans(lines: seq<string>, h: Heading, bullet: string, newline: string, b: Bounds)
    requires newline != "" && SectionBounds(Annotate(lines, Outside), h) == Some(b)
    ensures exists i, j ::
      WritesAt(lines, h, bullet, newline, Join(AppendToSection(lines, h, bullet, b), newline), b, i, j)
  {
    hide IsPlaceholder, Blank, Join, AreBounds, SectionBounds, Annotate;
    var a := Annotate(lines, Outside);
    AnnotateKeepsText(lines, Outside);
    SectionBoundsMean(a, h);
    var i := FindPlaceholder(a, h, b.start, b.end);
    if i < b.end {
      assert lines[i := bullet] == lines[..i] + [bullet] + lines[i + 1..];
      assert WritesAt(lines, h, bullet, newline, Join(AppendToSection(lines, h, bullet, b), newline), b, i, i + 1);
    } else {
      var k := InsertAt(lines, b.start, b.end);
      assert WritesAt(lines, h, bullet, newline, Join(AppendToSection(lines, h, bullet, b), newline), b, k, k);
    }
  }

  /** What appending writes, whatever the note: nothing of it is lost but a placeholder. */
  lemma AppendWrites(content: string, h: Heading, text: string)
    ensures match Append(content, h, text)
            case Err(_) => Trim(text) == ""
            case Ok(r) =>
              var newline := NewlineOf(content);
              Trim(text) != "" && Writes(content, h, BulletOf(h, Trim(text), newline), newline, r)
  {
    hide BulletOf, NewSection, Annotate, Trim, SplitOn, Join, AppendToSection, HeaderText, EndsWith, SectionBounds,
         Contains;
    hide WritesAt, IsHeader;
    var newline := NewlineOf(content);
    var bullet, lines := BulletOf(h, Trim(text), newline), SplitOn(content, newline);
    JoinOfSplit(content, newline);
    SectionBoundsMean(Annotate(lines, Outside), h);
    match SectionBounds(Annotate(lines, Outside), h)
    case None =>
      NewSectionMeans(content, h, bullet, newline);
      var prefix := if content == "" then "" else if EndsWith(content, newline) then newline else newline + newline;
      PartsOf(content, prefix, HeaderText(h) + newline + newline + bullet + newline);
    case Some(b) =>
      AppendToSectionMeans(lines, h, bullet, newline, b);
      HeaderInBounds(Annotate(lines, Outside), h, b);
  }

  lemma HeaderInBounds(a: seq<Line>, h: Heading, b: Bounds)
    requires AreBounds(a, h, b)
    ensures exists k | 0 <= k < |a| :: IsHeader(a[k], h)
  {
    assert IsHeader(a[b.start - 1], h);
  }

  method AppendSectionItem(content: string, h: Heading, text: string) returns (r: Result<string, AppendError>)
    ensures r == Append(content, h, text)
    ensures if Trim(text) == "" then r == Err(EmptyText)
            else r.Ok? && Writes(content, h, BulletOf(h, Trim(text), NewlineOf(content)), NewlineOf(content), r.value)
  {
    hide Writes;
    AppendWrites(content, h, text);
    hide BulletOf, NewSection, Annotate, Trim, TrimStart, TrimEnd, IsPlaceholder, SectionBounds, Join, SplitOn;
    hide Contains;
    hide FindPlaceholder, InsertAt, Blank;
    var newline := NewlineOf(content);
    var normalizedText := Trim(text);
    if normalizedText == "" {
      return Err(EmptyText);
    }
    var bullet := BulletOf(h, normalizedText, newline);
    var lines := SplitOn(content, newline);
    var a := Annotate(lines, Outside);
    AnnotateKeepsText(lines, Outside);
    var bounds := SectionBounds(a, h);
    if bounds.None? {
      return Ok(NewSection(content, h, bullet, newline));
    }
    var visible := VisibleMarkdownLines(lines);
    var start, end := bounds.value.start, bounds.value.end;
    var index := start;
    while index < end
      invariant start <= index <= end
      invariant FindPlaceholder(a, h, start, end) == FindPlaceholder(a, h, index, end)
    {
      FindPlaceholderStep(a, h, index, end);
      if visible[index] && IsPlaceholder(lines[index], h) {
        lines := lines[index := bullet];
        return Ok(Join(lines, newline));
      }
      index := index + 1;
    }
    FindPlaceholderStep(a, h, end, end);
    var insertAt := end;
    while insertAt > start && Trim(lines[insertAt - 1]) == ""
      invariant start <= insertAt <= end
      invariant InsertAt(lines, start, end) == InsertAt(lines, start, insertAt)
    {
      InsertAtStep(lines, start, insertAt);
      insertAt := insertAt - 1;
    }
    InsertAtStep(lines, start, insertAt);
    lines := lines[..insertAt] + [bullet] + lines[insertAt..];
    return Ok(Join(lines, newline));
  }
}
