/** Appending an item to a section and reading the sections back: what the reader gets afterwards. */
module MarkdownAppend {
  import opened Sequences
  import opened TextLines
  import opened MarkdownSections

  // ---- The section of a heading, found by walking through the lines ------------------------------

  function Section(a: seq<Line>): (s: seq<Line>)
    ensures |s| <= |a| && s == a[..|s|]
  {
    if a == [] || EndsSection(a[0]) then [] else [a[0]] + Section(a[1..])
  }

  /** The items of a heading as a reader finds them when walking through the lines. */
  function Scan(a: seq<Line>, h: Heading, at: nat): seq<Item> {
    if a == [] then
      []
    else if IsHeader(a[0], h) then
      ItemsOf(Section(a[1..]), h, at + 1)
    else
      Scan(a[1..], h, at + 1)
  }

  lemma {:induction false} SectionIsUpToEnd(a: seq<Line>, from: nat)
    requires from <= |a|
    ensures Section(a[from..]) == a[from..FindSectionEnd(a, from)]
    decreases |a| - from
  {
    if from < |a| && !EndsSection(a[from]) {
      SectionIsUpToEnd(a, from + 1);
      assert a[from..][1..] == a[from + 1..];
    }
  }

  /** The items of the section after the header at `i`, if there is one. */
  function ItemsAfter(a: seq<Line>, h: Heading, i: nat): seq<Item>
    requires i <= |a|
  {
    if i == |a| then [] else ItemsOf(a[i + 1..FindSectionEnd(a, i + 1)], h, i + 1)
  }

  lemma ScanStep(a: seq<Line>, h: Heading, from: nat)
    requires from < |a|
    ensures Scan(a[from..], h, from)
         == if IsHeader(a[from], h) then ItemsAfter(a, h, from) else Scan(a[from + 1..], h, from + 1)
  {
    hide IsHeader, ItemsOf, Section, FindSectionEnd;
    assert a[from..][1..] == a[from + 1..];
    SectionIsUpToEnd(a, from + 1);
  }

  lemma {:induction false} ScanFrom(a: seq<Line>, h: Heading, from: nat)
    requires from <= |a|
    ensures Scan(a[from..], h, from) == ItemsAfter(a, h, FindHeader(a, h, from))
    decreases |a| - from
  {
    hide ItemsAfter, IsHeader, Scan;
    if from == |a| {
      NothingToScan(a, h);
    } else {
      ScanStep(a, h, from);
      if !IsHeader(a[from], h) {
        ScanFrom(a, h, from + 1);
      }
    }
  }

  lemma NothingToScan(a: seq<Line>, h: Heading)
    ensures Scan(a[|a|..], h, |a|) == ItemsAfter(a, h, |a|)
  {
  }

  lemma ItemsInIsScan(a: seq<Line>, h: Heading)
    ensures ItemsIn(a, h) == Scan(a, h, 0)
  {
    hide ItemsOf, Scan, FindHeader, FindSectionEnd;
    ScanFrom(a, h, 0);
    assert a[0..] == a;
  }

  // ---- Headings ----------------------------------------------------------------------------------

  lemma HeadersEndSections(l: Line, h: Heading)
    requires IsHeader(l, h)
    ensures EndsSection(l)
  {
    var t := TrimEnd(l.text);
    assert t[..2] == "##" && IsSpace(t[2]);
    assert l.text[..2] == t[..2] && l.text[2] == t[2];
  }

  lemma HeadersDiffer(l: Line, h: Heading, h': Heading)
    requires h != h' && IsHeader(l, h)
    ensures !IsHeader(l, h')
  {
    assert HeaderText(h) != HeaderText(h') by {
      assert HeaderText(h)[3] != HeaderText(h')[3];
    }
  }

  ghost predicate NoEnd(s: seq<Line>) {
    forall i | 0 <= i < |s| :: !EndsSection(s[i])
  }

  ghost predicate NoHeader(s: seq<Line>, h: Heading) {
    forall i | 0 <= i < |s| :: !IsHeader(s[i], h)
  }

  lemma {:induction false} SectionBefore(s: seq<Line>, after: seq<Line>)
    requires NoEnd(s) && (after == [] || EndsSection(after[0]))
    ensures Section(s + after) == s
  {
    if s == [] {
      assert s + after == after;
    } else {
      assert (s + after)[1..] == s[1..] + after;
      SectionBefore(s[1..], after);
    }
  }

  lemma {:induction false} SectionStopsAt(x: seq<Line>, y: seq<Line>)
    requires y != [] && EndsSection(y[0])
    ensures Section(x + y) == Section(x)
  {
    hide EndsSection;
    if x == [] {
      assert x + y == y;
    } else {
      assert (x + y)[1..] == x[1..] + y;
      SectionStopsAt(x[1..], y);
    }
  }

  lemma ScanAtHeader(header: Line, s: seq<Line>, after: seq<Line>, h: Heading, at: nat)
    requires IsHeader(header, h) && NoEnd(s) && (after == [] || EndsSection(after[0]))
    ensures Scan([header] + (s + after), h, at) == ItemsOf(s, h, at + 1)
  {
    hide ItemsOf, IsHeader, EndsSection;
    assert ([header] + (s + after))[1..] == s + after;
    SectionBefore(s, after);
  }

  lemma {:induction false} ScanSkips(s: seq<Line>, after: seq<Line>, h: Heading, at: nat)
    requires NoHeader(s, h)
    ensures Scan(s + after, h, at) == Scan(after, h, at + |s|)
  {
    hide IsHeader, ItemsOf, Section;
    if s == [] {
      assert s + after == after;
    } else {
      assert (s + after)[1..] == s[1..] + after;
      ScanSkips(s[1..], after, h, at + 1);
    }
  }

  /** The section of the heading in a text made of its parts. */
  lemma ScanOfParts(before: seq<Line>, header: Line, s: seq<Line>, after: seq<Line>, h: Heading)
    requires NoHeader(before, h) && IsHeader(header, h)
    requires NoEnd(s) && (after == [] || EndsSection(after[0]))
    ensures Scan(before + ([header] + (s + after)), h, 0) == ItemsOf(s, h, |before| + 1)
  {
    hide *;
    ScanSkips(before, [header] + (s + after), h, 0);
    ScanAtHeader(header, s, after, h, |before|);
  }

  function Unplaced(items: seq<Item>): seq<Item> {
    seq(|items|, i requires 0 <= i < |items| => items[i].(position := 0))
  }

  lemma UnplacedBoth(a: seq<Item>, b: seq<Item>)
    ensures Unplaced(a + b) == Unplaced(a) + Unplaced(b)
  {
  }

  lemma {:induction false} ItemsMove(s: seq<Line>, h: Heading, at: nat, at': nat)
    ensures Unplaced(ItemsOf(s, h, at)) == Unplaced(ItemsOf(s, h, at'))
  {
    if s == [] {
    } else {
      hide NestedDetails, ParseListItem;
      ItemsMove(s[1..], h, at + 1, at' + 1);
      UnplacedBoth(OwnItem(s[0], s[1..], h, at), ItemsOf(s[1..], h, at + 1));
      UnplacedBoth(OwnItem(s[0], s[1..], h, at'), ItemsOf(s[1..], h, at' + 1));
    }
  }

  lemma {:induction false} ScanMoves(a: seq<Line>, h: Heading, at: nat, at': nat)
    ensures Unplaced(Scan(a, h, at)) == Unplaced(Scan(a, h, at'))
  {
    if a == [] {
    } else {
      if IsHeader(a[0], h) {
        ItemsMove(Section(a[1..]), h, at + 1, at' + 1);
      } else {
        ScanMoves(a[1..], h, at + 1, at' + 1);
      }
    }
  }

  /** Two texts that part ways at a section end that is no header of `h` give the same items if what follows does. */
  lemma {:induction false} ScanBefore(before: seq<Line>, y: seq<Line>, y': seq<Line>, h: Heading, at: nat)
    requires y != [] && EndsSection(y[0]) && y' != [] && EndsSection(y'[0])
    requires forall k: nat :: Unplaced(Scan(y, h, k)) == Unplaced(Scan(y', h, k))
    ensures Unplaced(Scan(before + y, h, at)) == Unplaced(Scan(before + y', h, at))
    decreases |before|
  {
    hide ItemsOf, Section, IsHeader, EndsSection, Unplaced;
    if before == [] {
      assert before + y == y && before + y' == y';
    } else {
      assert (before + y)[1..] == before[1..] + y && (before + y')[1..] == before[1..] + y';
      if IsHeader(before[0], h) {
        SectionStopsAt(before[1..], y);
        SectionStopsAt(before[1..], y');
      } else {
        ScanBefore(before[1..], y, y', h, at + 1);
      }
    }
  }

  lemma SkipsSection(header: Line, s: seq<Line>, after: seq<Line>, h: Heading, h': Heading, at: nat)
    requires h != h' && IsHeader(header, h) && NoEnd(s)
    ensures Scan([header] + (s + after), h', at) == Scan(after, h', at + 1 + |s|)
  {
    hide ItemsOf, Section, IsHeader, EndsSection;
    HeadersDiffer(header, h, h');
    NoHeaderInside(s, h');
    assert ([header] + (s + after))[1..] == s + after;
    ScanSkips(s, after, h', at + 1);
  }

  /** What stands in the section of one heading does not matter to another heading. */
  lemma OtherHeading(
    before: seq<Line>, header: Line, s: seq<Line>, s': seq<Line>, after: seq<Line>, h: Heading, h': Heading)
    requires h != h' && IsHeader(header, h) && NoEnd(s) && NoEnd(s')
    ensures Unplaced(Scan(before + ([header] + (s + after)), h', 0)) ==
      Unplaced(Scan(before + ([header] + (s' + after)), h', 0))
  {
    hide Scan, Unplaced, IsHeader, EndsSection;
    HeadersEndSections(header, h);
    forall k: nat
      ensures Unplaced(Scan([header] + (s + after), h', k)) == Unplaced(Scan([header] + (s' + after), h', k))
    {
      SkipsSection(header, s, after, h, h', k);
      SkipsSection(header, s', after, h, h', k);
      ScanMoves(after, h', k + 1 + |s|, k + 1 + |s'|);
    }
    ScanBefore(before, [header] + (s + after), [header] + (s' + after), h', 0);
  }

  lemma NoHeaderInside(s: seq<Line>, h: Heading)
    requires NoEnd(s)
    ensures NoHeader(s, h)
  {
    forall i | 0 <= i < |s| ensures !IsHeader(s[i], h) {
      if IsHeader(s[i], h) {
        HeadersEndSections(s[i], h);
      }
    }
  }

  // ---- Items around one line ---------------------------------------------------------------------

  /** A visible line that starts with a dash: it ends the details of the item before it. */
  predicate Dash(l: Line) {
    l.visible && l.text != "" && l.text[0] == '-'
  }

  lemma {:induction false} DetailsStopAt(x: seq<Line>, l: Line, q: seq<Line>)
    requires Dash(l)
    ensures NestedDetails(x + [l] + q) == NestedDetails(x)
  {
    if x == [] {
      assert IndentRun(l.text) == 0;
      assert !IsSpace(l.text[0]);
      assert (x + [l] + q)[0] == l;
    } else {
      assert (x + [l] + q)[1..] == x[1..] + [l] + q;
      hide Indented, DashSpace, Trim;
      DetailsStopAt(x[1..], l, q);
    }
  }

  lemma ItemsOfStep(s: seq<Line>, h: Heading, at: nat)
    requires s != []
    ensures ItemsOf(s, h, at) == OwnItem(s[0], s[1..], h, at) + ItemsOf(s[1..], h, at + 1)
  {
  }

  lemma OwnItemReadsDetails(l: Line, rest: seq<Line>, rest': seq<Line>, h: Heading, at: nat)
    requires NestedDetails(rest) == NestedDetails(rest')
    ensures OwnItem(l, rest, h, at) == OwnItem(l, rest', h, at)
  {
  }

  lemma NoItems(h: Heading, at: nat)
    ensures ItemsOf([], h, at) == []
  {
  }

  /** The items around a line that starts with a dash: those before it, its own, those after it. */
  lemma {:induction false} ItemsAround(p: seq<Line>, l: Line, q: seq<Line>, h: Heading, at: nat)
    requires Dash(l)
    ensures ItemsOf(p + [l] + q, h, at)
         == ItemsOf(p, h, at) + (OwnItem(l, q, h, at + |p|) + ItemsOf(q, h, at + |p| + 1))
    decreases |p|
  {
    hide ItemsOf, OwnItem, NestedDetails, Dash;
    var all := p + [l] + q;
    ItemsOfStep(all, h, at);
    if p == [] {
      NoItems(h, at);
      assert all[1..] == q;
    } else {
      var own := OwnItem(p[0], p[1..], h, at);
      assert all[1..] == p[1..] + [l] + q;
      ItemsAround(p[1..], l, q, h, at + 1);
      DetailsStopAt(p[1..], l, q);
      ItemsOfStep(p, h, at);
      OwnItemReadsDetails(p[0], p[1..], all[1..], h, at);
      Regroup(own, ItemsOf(p[1..], h, at + 1), OwnItem(l, q, h, at + |p|) + ItemsOf(q, h, at + |p| + 1));
    }
  }

  ghost predicate AllBlank(q: seq<Line>) {
    forall i | 0 <= i < |q| :: Blank(q[i].text)
  }

  lemma BlankLineHasNoItem(l: Line, h: Heading)
    requires Blank(l.text)
    ensures ParseListItem(l.text, h).None?
  {
    assert l.text != "" ==> IsSpace(l.text[0]);
    assert |l.text| >= 3 ==> l.text[..3][0] == l.text[0];
  }

  lemma {:induction false} BlanksHaveNoItems(q: seq<Line>, h: Heading, at: nat)
    requires AllBlank(q)
    ensures ItemsOf(q, h, at) == [] && NestedDetails(q) == []
  {
    if q == [] {
    } else {
      BlankLineHasNoItem(q[0], h);
      BlankIsNotIndented(q[0].text);
      assert Blank(q[0].text);
      BlanksHaveNoItems(q[1..], h, at + 1);
    }
  }

  lemma BlankIsNotIndented(s: string)
    requires Blank(s)
    ensures !Indented(s) && !DashSpace(s)
  {
    assert s != "" ==> IsSpace(s[0]);
  }

  lemma {:induction false} DetailsBeforeBlanks(x: seq<Line>, q: seq<Line>)
    requires AllBlank(q)
    ensures NestedDetails(x + q) == NestedDetails(x)
  {
    if x == [] {
      assert x + q == q;
      BlanksHaveNoItems(q, Notes, 0);
    } else {
      assert (x + q)[1..] == x[1..] + q;
      hide Indented, DashSpace, Trim;
      DetailsBeforeBlanks(x[1..], q);
    }
  }

  lemma {:induction false} ItemsBeforeBlanks(p: seq<Line>, q: seq<Line>, h: Heading, at: nat)
    requires AllBlank(q)
    ensures ItemsOf(p + q, h, at) == ItemsOf(p, h, at)
    decreases |p|
  {
    if p == [] {
      assert p + q == q;
      BlanksHaveNoItems(q, h, at);
    } else {
      assert (p + q)[1..] == p[1..] + q;
      DetailsBeforeBlanks(p[1..], q);
      ItemsBeforeBlanks(p[1..], q, h, at + 1);
    }
  }
}
