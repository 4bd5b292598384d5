/** Strings as the host language's string methods and regular expressions see them: blanks, splitting, joining. */
module TextLines {
  import opened Sequences

  /** The characters of `\s`, which are also the ones that trimming removes. */
  predicate IsSpace(c: char) {
    var u := c as int;
    || 9 <= u <= 13 || u == 0x20 || u == 0xA0 || u == 0x1680 || 0x2000 <= u <= 0x200A
    || u == 0x2028 || u == 0x2029 || u == 0x202F || u == 0x205F || u == 0x3000 || u == 0xFEFF
  }

  /** The characters that `.` does not match. */
  predicate IsLineEnd(c: char) {
    c == '\n' || c == '\r' || c as int == 0x2028 || c as int == 0x2029
  }

  predicate SingleLine(s: string) {
    forall i | 0 <= i < |s| :: !IsLineEnd(s[i])
  }

  predicate Blank(s: string) {
    forall i | 0 <= i < |s| :: IsSpace(s[i])
  }

  lemma EndOfLine(s: string, k: nat)
    requires k <= |s|
    ensures SingleLine(s) ==> SingleLine(s[k..])
    ensures Blank(s) ==> Blank(s[k..])
    ensures forall c | c !in s :: c !in s[k..]
  {
  }

  function TrimStart(s: string): (r: string)
    ensures r == "" || !IsSpace(r[0])
    ensures |r| <= |s| && r == s[|s| - |r|..]
  {
    if s != "" && IsSpace(s[0]) then TrimStart(s[1..]) else s
  }

  function TrimEnd(s: string): (r: string)
    ensures r == "" || !IsSpace(r[|r| - 1])
    ensures |r| <= |s| && r == s[..|r|]
  {
    if s != "" && IsSpace(s[|s| - 1]) then TrimEnd(s[..|s| - 1]) else s
  }

  function Trim(s: string): string {
    TrimEnd(TrimStart(s))
  }

  predicate Trimmed(s: string) {
    s != "" && !IsSpace(s[0]) && !IsSpace(s[|s| - 1])
  }

  lemma TrimIsTrimmed(s: string)
    ensures Trim(s) != "" ==> Trimmed(Trim(s))
    ensures Trimmed(s) ==> Trim(s) == s
  {
  }

  lemma {:induction false} TrimStartMeans(before: string, s: string)
    requires Blank(before) && (s == "" || !IsSpace(s[0]))
    ensures TrimStart(before + s) == s
  {
    if before == "" {
      assert before + s == s;
    } else {
      assert (before + s)[1..] == before[1..] + s;
      EndOfLine(before, 1);
      TrimStartMeans(before[1..], s);
    }
  }

  lemma {:induction false} TrimEndMeans(s: string, after: string)
    requires Blank(after) && (s == "" || !IsSpace(s[|s| - 1]))
    ensures TrimEnd(s + after) == s
  {
    if after == "" {
      assert s + after == s;
    } else {
      assert (s + after)[..|s + after| - 1] == s + after[..|after| - 1];
      TrimEndMeans(s, after[..|after| - 1]);
    }
  }

  /** Trimming takes off the blanks around a text and nothing else. */
  lemma TrimMeans(before: string, s: string, after: string)
    requires Blank(before) && Blank(after) && Trimmed(s)
    ensures Trim(before + (s + after)) == s
  {
    TrimStartMeans(before, s + after);
    TrimEndMeans(s, after);
  }

  lemma {:induction false} TrimStartOfBlank(s: string)
    ensures TrimStart(s) == "" <==> Blank(s)
  {
    if s == "" {
    } else {
      TrimStartOfBlank(s[1..]);
      if Blank(s[1..]) && IsSpace(s[0]) {
        forall i | 0 <= i < |s| ensures IsSpace(s[i]) {
          assert i > 0 ==> s[i] == s[1..][i - 1];
        }
      }
      if Blank(s) {
        assert IsSpace(s[0]);
        forall i | 0 <= i < |s| - 1 ensures IsSpace(s[1..][i]) {
        }
      }
    }
  }

  /** Trimming leaves nothing exactly when there are only blanks. */
  lemma TrimOfBlank(s: string)
    ensures Trim(s) == "" <==> Blank(s)
  {
    TrimStartOfBlank(s);
    var t := TrimStart(s);
    if t != "" {
      TrimEndKeepsFirst(t);
    }
  }

  lemma {:induction false} TrimEndKeepsFirst(s: string)
    requires s != "" && !IsSpace(s[0])
    ensures TrimEnd(s) != ""
  {
    if IsSpace(s[|s| - 1]) {
      TrimEndKeepsFirst(s[..|s| - 1]);
    }
  }

  // ---- Splitting and joining ---------------------------------------------------------------------

  predicate HasAt(s: string, sep: string, i: nat) {
    i + |sep| <= |s| && s[i..i + |sep|] == sep
  }

  /** The first place at or after `from` where `sep` occurs, or the length of `s`. */
  function Find(s: string, sep: string, from: nat): (i: nat)
    requires from <= |s|
    ensures from <= i <= |s| && (i < |s| ==> HasAt(s, sep, i))
    ensures forall k | from <= k < i :: !HasAt(s, sep, k)
    decreases |s| - from
  {
    if from == |s| || HasAt(s, sep, from) then from else Find(s, sep, from + 1)
  }

  predicate Contains(s: string, sep: string) {
    Find(s, sep, 0) < |s|
  }

  function SplitOn(s: string, sep: string): seq<string>
    requires sep != ""
    decreases |s|
  {
    var i := Find(s, sep, 0);
    if i == |s| then [s] else [s[..i]] + SplitOn(s[i + |sep|..], sep)
  }

  /** Splitting at "\n" or "\r\n". */
  function SplitLines(s: string): seq<string>
    decreases |s|
  {
    var i := Find(s, "\n", 0);
    if i == |s| then
      [s]
    else
      [if i > 0 && s[i - 1] == '\r' then s[..i - 1] else s[..i]] + SplitLines(s[i + 1..])
  }

  function Join(lines: seq<string>, sep: string): string
    requires lines != []
  {
    if |lines| == 1 then lines[0] else lines[0] + (sep + Join(lines[1..], sep))
  }

  lemma {:induction false} JoinBoth(a: seq<string>, b: seq<string>, sep: string)
    requires a != [] && b != []
    ensures Join(a + b, sep) == Join(a, sep) + (sep + Join(b, sep))
  {
    if |a| == 1 {
      assert (a + b)[1..] == b;
    } else {
      assert (a + b)[1..] == a[1..] + b;
      JoinBoth(a[1..], b, sep);
      hide Join;
      var tail := sep + Join(b, sep);
      Regroup(sep, Join(a[1..], sep), tail);
      Regroup(a[0], sep + Join(a[1..], sep), tail);
      JoinStep(a, sep);
      JoinStep(a + b, sep);
    }
  }

  lemma JoinStep(a: seq<string>, sep: string)
    requires |a| > 1
    ensures Join(a, sep) == a[0] + (sep + Join(a[1..], sep))
  {
  }

  lemma EndsWithin(s: string, sep: string, i: nat)
    requires HasAt(s, sep, i)
    ensures i + |sep| <= |s|
  {
  }

  lemma SplitAt(s: string, sep: string, i: nat)
    requires HasAt(s, sep, i)
    ensures i + |sep| <= |s| && s == s[..i] + (sep + s[i + |sep|..])
  {
  }

  lemma {:induction false} JoinOfSplit(s: string, sep: string)
    requires sep != ""
    ensures SplitOn(s, sep) != [] && Join(SplitOn(s, sep), sep) == s
    decreases |s|
  {
    hide Find, HasAt;
    var i := Find(s, sep, 0);
    if i < |s| {
      EndsWithin(s, sep, i);
      var rest := SplitOn(s[i + |sep|..], sep);
      JoinOfSplit(s[i + |sep|..], sep);
      assert ([s[..i]] + rest)[1..] == rest;
      SplitAt(s, sep, i);
    }
  }

  predicate NoNewline(s: string) {
    forall i | 0 <= i < |s| :: s[i] != '\n'
  }

  predicate EndsWith(s: string, end: string) {
    |s| >= |end| && s[|s| - |end|..] == end
  }

  /** The newline that a document uses for itself. */
  function NewlineOf(content: string): string {
    if Contains(content, "\r\n") then "\r\n" else "\n"
  }

  predicate DosNewlinesOnly(s: string) {
    forall i | 0 <= i < |s| && s[i] == '\n' :: i > 0 && s[i - 1] == '\r'
  }

  /** One newline style: every newline is like the first one, and no lone "\r" ends a document of "\n" lines. */
  predicate OneNewlineStyle(content: string) {
    if Contains(content, "\r\n") then DosNewlinesOnly(content) else !EndsWith(content, "\r")
  }

  /** Lines that come back unchanged when they are joined with `newline` and split again. */
  ghost predicate Clean(lines: seq<string>, newline: string) {
    && lines != []
    && (forall i | 0 <= i < |lines| :: NoNewline(lines[i]) && (newline == "\n" ==> !EndsWith(lines[i], "\r")))
  }

  lemma NewlineAt(s: string, k: nat)
    ensures HasAt(s, "\n", k) <==> k < |s| && s[k] == '\n'
  {
    if k < |s| {
      assert s[k..k + 1] == [s[k]];
    }
  }

  lemma FindNewline(line: string, rest: string)
    requires NoNewline(line)
    ensures Find(line + ("\n" + rest), "\n", 0) == |line|
  {
    hide Find, HasAt;
    var s := line + ("\n" + rest);
    forall k | 0 <= k < |line| ensures !HasAt(s, "\n", k) {
      NewlineAt(s, k);
    }
    NewlineAt(s, |line|);
  }

  lemma LastCharacter(s: string)
    ensures EndsWith(s, "\r") <==> s != "" && s[|s| - 1] == '\r'
  {
    if s != "" {
      assert s[|s| - 1..] == [s[|s| - 1]];
    }
  }

  lemma SplitFirstLine(line: string, newline: string, rest: string)
    requires newline == "\n" || newline == "\r\n"
    requires NoNewline(line) && (newline == "\n" ==> !EndsWith(line, "\r"))
    ensures SplitLines(line + (newline + rest)) == [line] + SplitLines(rest)
  {
    hide Find, HasAt, EndsWith;
    var s := line + (newline + rest);
    if newline == "\n" {
      FindNewline(line, rest);
      LastCharacter(line);
      assert s[..|line|] == line && s[|line| + 1..] == rest;
    } else {
      assert s == (line + "\r") + ("\n" + rest);
      FindNewline(line + "\r", rest);
      assert s[|line|] == '\r' && s[..|line|] == line && s[|line| + 2..] == rest;
    }
  }

  lemma SplitNoNewline(line: string)
    requires NoNewline(line)
    ensures SplitLines(line) == [line]
  {
    hide Find, HasAt;
    forall k | 0 <= k < |line| ensures !HasAt(line, "\n", k) {
      NewlineAt(line, k);
    }
  }

  /** Splitting undoes joining. */
  lemma {:induction false} SplitOfJoin(lines: seq<string>, newline: string)
    requires newline == "\n" || newline == "\r\n"
    requires Clean(lines, newline)
    ensures SplitLines(Join(lines, newline)) == lines
  {
    hide SplitLines, EndsWith, NoNewline;
    if |lines| == 1 {
      SplitNoNewline(lines[0]);
    } else {
      SplitFirstLine(lines[0], newline, Join(lines[1..], newline));
      forall i | 0 <= i < |lines| - 1
        ensures NoNewline(lines[1..][i]) && (newline == "\n" ==> !EndsWith(lines[1..][i], "\r"))
      {
        assert lines[1..][i] == lines[i + 1];
      }
      SplitOfJoin(lines[1..], newline);
    }
  }

  lemma DosNewlineAt(s: string, i: nat)
    requires 0 < i < |s| && s[i - 1] == '\r' && s[i] == '\n'
    ensures HasAt(s, "\r\n", i - 1)
  {
    assert s[i - 1..i + 1] == "\r\n";
  }

  lemma DosNewlineFound(s: string, i: nat)
    requires 0 < i < |s| && s[i - 1] == '\r' && s[i] == '\n'
    ensures Contains(s, "\r\n")
  {
    hide Find, HasAt;
    DosNewlineAt(s, i);
  }

  lemma NoDosNewlineInRest(s: string, from: nat)
    requires !Contains(s, "\r\n") && from <= |s|
    ensures !Contains(s[from..], "\r\n")
  {
    var rest := s[from..];
    forall k | 0 <= k < |rest| ensures !HasAt(rest, "\r\n", k) {
      assert !HasAt(s, "\r\n", from + k);
      assert k + 2 <= |rest| ==> rest[k..k + 2] == s[from + k..from + k + 2];
    }
  }

  lemma FirstNewline(s: string)
    ensures var i := Find(s, "\n", 0);
            NoNewline(s[..i]) && (i < |s| ==> s[i] == '\n')
  {
    hide Find, HasAt;
    var i := Find(s, "\n", 0);
    forall k | 0 <= k < i ensures s[..i][k] != '\n' {
      NewlineAt(s, k);
    }
    NewlineAt(s, i);
  }

  lemma UnixFirstLine(s: string)
    requires !Contains(s, "\r\n") && !EndsWith(s, "\r")
    ensures var i := Find(s, "\n", 0);
            && NoNewline(s[..i]) && !EndsWith(s[..i], "\r")
            && (i < |s| ==> !Contains(s[i + 1..], "\r\n") && !EndsWith(s[i + 1..], "\r"))
  {
    hide Find, Contains, EndsWith, NoNewline;
    var i := Find(s, "\n", 0);
    FirstNewline(s);
    LastCharacter(s);
    LastCharacter(s[..i]);
    if i < |s| {
      LastCharacter(s[i + 1..]);
      NoDosNewlineInRest(s, i + 1);
      if i > 0 && s[i - 1] == '\r' {
        DosNewlineFound(s, i);
      }
    } else {
      assert s[..i] == s;
    }
  }

  lemma CleanBoth(line: string, rest: seq<string>, newline: string)
    requires NoNewline(line) && (newline == "\n" ==> !EndsWith(line, "\r"))
    requires rest != [] ==> Clean(rest, newline)
    ensures Clean([line] + rest, newline)
  {
  }

  /** The lines of a document of "\n" lines. */
  lemma {:induction false} UnixLinesAreClean(s: string)
    requires !Contains(s, "\r\n") && !EndsWith(s, "\r")
    ensures Clean(SplitOn(s, "\n"), "\n")
    decreases |s|
  {
    hide Find, HasAt, Contains, EndsWith, NoNewline, Clean;
    var i := Find(s, "\n", 0);
    UnixFirstLine(s);
    if i < |s| {
      UnixLinesAreClean(s[i + 1..]);
      CleanBoth(s[..i], SplitOn(s[i + 1..], "\n"), "\n");
    } else {
      assert s[..i] == s && [s] + [] == [s];
      CleanBoth(s, [], "\n");
    }
  }

  lemma DosNewlines(s: string)
    requires DosNewlinesOnly(s)
    ensures forall k | 0 <= k < |s| && s[k] == '\n' :: HasAt(s, "\r\n", k - 1)
    ensures NoNewline(s[..Find(s, "\r\n", 0)])
  {
    hide Find, HasAt;
    forall k | 0 <= k < |s| && s[k] == '\n' ensures HasAt(s, "\r\n", k - 1) {
      DosNewlineAt(s, k);
    }
  }

  lemma DosNewlinesInRest(s: string, i: nat)
    requires HasAt(s, "\r\n", i)
    requires DosNewlinesOnly(s)
    ensures DosNewlinesOnly(s[i + 2..])
  {
    assert s[i..i + 2][1] == '\n';
    var rest := s[i + 2..];
    forall k | 0 <= k < |rest| && rest[k] == '\n' ensures k > 0 && rest[k - 1] == '\r' {
      assert s[i + 2 + k] == '\n';
    }
  }

  /** The lines of a document of "\r\n" lines. */
  lemma {:induction false} DosLinesAreClean(s: string)
    requires DosNewlinesOnly(s)
    ensures Clean(SplitOn(s, "\r\n"), "\r\n")
    decreases |s|
  {
    hide Find, HasAt, NoNewline;
    var i := Find(s, "\r\n", 0);
    DosNewlines(s);
    if i < |s| {
      DosNewlinesInRest(s, i);
      EndsWithin(s, "\r\n", i);
      DosLinesAreClean(s[i + 2..]);
    } else {
      assert s[..i] == s;
    }
  }

  /** Both ways of splitting agree on a document of one newline style. */
  lemma SplitsAgree(content: string)
    requires OneNewlineStyle(content)
    ensures var newline := NewlineOf(content);
            && Clean(SplitOn(content, newline), newline)
            && SplitLines(content) == SplitOn(content, newline)
            && Join(SplitOn(content, newline), newline) == content
  {
    var newline := NewlineOf(content);
    if Contains(content, "\r\n") {
      DosLinesAreClean(content);
    } else {
      UnixLinesAreClean(content);
    }
    JoinOfSplit(content, newline);
    SplitOfJoin(SplitOn(content, newline), newline);
  }
}
