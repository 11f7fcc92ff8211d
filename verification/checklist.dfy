/**
  Progress through the list of task items in a markdown text (`src/checklist.rs`): a
  one-pass scan that tracks code fences, and what its two numbers mean.
*/
module Checklists {
  import opened Common
  import opened PathText
  import opened Utf8Text

  // ---- Lines ----

  function StripReturn(line: string): string {
    if line != "" && line[|line| - 1] == '\r' then line[..|line| - 1] else line
  }

  function Stripped(parts: seq<string>): seq<string> {
    seq(|parts|, i requires 0 <= i < |parts| => StripReturn(parts[i]))
  }

  /** Terminated lines without their terminators, and an unterminated rest. */
  function LinesOf(parts: seq<string>): seq<string>
    requires parts != []
  {
    Stripped(parts[..|parts| - 1]) + if parts[|parts| - 1] == "" then [] else [parts[|parts| - 1]]
  }

  /** `str::lines` */
  function Lines(text: string): seq<string> { LinesOf(Split(text, '\n')) }

  // ---- One line ----

  /** The Unicode property White_Space. */
  predicate White(c: char) {
    var n := c as int;
    || 0x9 <= n <= 0xD || n == 0x20 || n == 0x85 || n == 0xA0 || n == 0x1680 || 0x2000 <= n <= 0x200A
    || n == 0x2028 || n == 0x2029 || n == 0x202F || n == 0x205F || n == 0x3000
  }

  /** How many characters at the start satisfy `p`. */
  function Leading(s: string, p: char -> bool): (n: nat)
    ensures n <= |s| && (forall i :: 0 <= i < n ==> p(s[i])) && (n < |s| ==> !p(s[n]))
  {
    if s == [] || !p(s[0]) then 0 else 1 + Leading(s[1..], p)
  }

  function Trimmed(line: string): string { line[Leading(line, White)..] }

  datatype Fence = Fence(marker: char, length: nat)

  /** `fence_marker`: a run of three or more backticks or tildes. */
  function FenceMarker(line: string): Option<Fence> {
    if line == "" || line[0] !in {'`', '~'} then None
    else
      var length := Leading(line, c => c == line[0]);
      if length >= 3 then Some(Fence(line[0], length)) else None
  }

  /** The fence a line opens or closes; four bytes of indentation make it plain text. */
  function Marker(line: string): Option<Fence> {
    var indent := line[..Leading(line, White)];
    if Size(indent) < 4 then FenceMarker(Trimmed(line)) else None
  }

  /** The line repeats the opening character at least as often and carries nothing else. */
  predicate Closes(line: string, open: Fence) {
    var m := Marker(line);
    m.Some? && m.value.marker == open.marker && m.value.length >= open.length &&
    var t := Trimmed(line);
    m.value.length <= |t| && Leading(t[m.value.length..], White) == |t| - m.value.length
  }

  function Digit(c: char): bool { '0' <= c <= '9' }

  function SpaceOrTab(c: char): bool { c == ' ' || c == '\t' }

  /** The length of a list marker at the start: a bullet, or a number and its punctuation. */
  function ListMarker(t: string): Option<nat> {
    if t == "" then None
    else if t[0] in {'-', '*', '+'} then Some(1)
    else
      var digits := Leading(t, Digit);
      if 0 < digits < |t| && t[digits] in {'.', ')'} then Some(digits + 1) else None
  }

  /** Where the box of a list item would be: after the marker and at least one blank. */
  function BoxAt(t: string): Option<nat> {
    match ListMarker(t)
    case None => None
    case Some(m) =>
      if m > |t| then None
      else
        var blanks := Leading(t[m..], SpaceOrTab);
        if blanks == 0 then None else Some(m + blanks)
  }

  function BoxState(box: string): Option<bool> {
    if box == "[ ]" then Some(false) else if box == "[x]" || box == "[X]" then Some(true) else None
  }

  /** `task_state`: whether a left-trimmed line is a task item, and checked. */
  function TaskState(t: string): Option<bool> {
    match BoxAt(t)
    case None => None
    case Some(at) =>
      if at + 3 > |t| then None
      else if at + 3 == |t| || White(t[at + 3]) then BoxState(t[at..at + 3])
      else None
  }

  function Task(line: string): Option<bool> { TaskState(Trimmed(line)) }

  // ---- The shape of such lines ----

  predicate Blank(s: string) { forall i :: 0 <= i < |s| ==> White(s[i]) }

  /** The code points with the property White_Space, one by one. */
  lemma WhiteSpaces(c: char)
    ensures White(c) <==> c as int in {
              0x9, 0xA, 0xB, 0xC, 0xD, 0x20, 0x85, 0xA0, 0x1680, 0x2000, 0x2001, 0x2002, 0x2003, 0x2004, 0x2005, 0x2006,
              0x2007, 0x2008, 0x2009, 0x200A, 0x2028, 0x2029, 0x202F, 0x205F, 0x3000}
  {
  }

  /** The run that satisfies `p` ends where a character does not. */
  lemma {:induction false} LeadingRun(run: string, rest: string, p: char -> bool)
    requires forall i :: 0 <= i < |run| ==> p(run[i])
    requires rest == "" || !p(rest[0])
    ensures Leading(run + rest, p) == |run|
  {
    if run == "" {
      assert run + rest == rest;
    } else {
      LeadingRun(run[1..], rest, p);
      assert (run + rest)[1..] == run[1..] + rest;
    }
  }

  lemma TrimmedRest(indent: string, rest: string)
    requires Blank(indent) && (rest == "" || !White(rest[0]))
    ensures Trimmed(indent + rest) == rest && (indent + rest)[..Leading(indent + rest, White)] == indent
  {
    LeadingRun(indent, rest, White);
  }

  /** A bullet, or a number and a period or parenthesis. */
  predicate IsListMarker(m: string) {
    || m == "-" || m == "*" || m == "+"
    || (|m| > 1 && (forall i :: 0 <= i < |m| - 1 ==> '0' <= m[i] <= '9') && (m[|m| - 1] == '.' || m[|m| - 1] == ')'))
  }

  predicate IsBox(box: string, checked: bool) { if checked then box == "[x]" || box == "[X]" else box == "[ ]" }

  predicate SpacesOrTabs(s: string) { forall i :: 0 <= i < |s| ==> s[i] == ' ' || s[i] == '\t' }

  /** The parts of a task item. */
  ghost predicate IsTask(line: string, indent: string, marker: string, blanks: string, box: string, rest: string, checked: bool) {
    && line == indent + (marker + (blanks + (box + rest)))
    && Blank(indent) && IsListMarker(marker) && blanks != "" && SpacesOrTabs(blanks)
    && IsBox(box, checked) && (rest == "" || White(rest[0]))
  }

  lemma ListMarkerOf(marker: string, rest: string)
    requires IsListMarker(marker) && rest != "" && (rest[0] == ' ' || rest[0] == '\t')
    ensures ListMarker(marker + rest) == Some(|marker|) && !White(marker[0])
  {
    if |marker| > 1 {
      var digits, end := marker[..|marker| - 1], marker[|marker| - 1..];
      assert marker + rest == digits + (end + rest);
      LeadingRun(digits, end + rest, Digit);
    }
  }

  lemma BoxComesAfter(marker: string, blanks: string, content: string)
    requires IsListMarker(marker) && blanks != "" && SpacesOrTabs(blanks)
    requires content != "" && content[0] == '['
    ensures BoxAt(marker + (blanks + content)) == Some(|marker| + |blanks|)
  {
    hide IsListMarker, ListMarker;
    ListMarkerOf(marker, blanks + content);
    LeadingRun(blanks, content, SpaceOrTab);
    assert (marker + (blanks + content))[|marker|..] == blanks + content;
  }

  lemma StateAt(before: string, box: string, rest: string, checked: bool)
    requires IsBox(box, checked) && (rest == "" || White(rest[0]))
    requires BoxAt(before + (box + rest)) == Some(|before|)
    ensures TaskState(before + (box + rest)) == Some(checked)
  {
    hide BoxAt, White;
    var t := before + (box + rest);
    var at := |before|;
    assert t[at..at + 3] == box;
    if rest != "" { assert t[at + 3] == rest[0]; }
  }

  lemma TaskOfShape(line: string, indent: string, marker: string, blanks: string, box: string, rest: string, checked: bool)
    requires IsTask(line, indent, marker, blanks, box, rest, checked)
    ensures Task(line) == Some(checked)
  {
    hide White, TaskState, BoxAt, Blank;
    var t := marker + (blanks + (box + rest));
    BoxComesAfter(marker, blanks, box + rest);
    assert t == (marker + blanks) + (box + rest);
    StateAt(marker + blanks, box, rest, checked);
    MarkersAreNotWhite(marker);
    hide IsListMarker, SpacesOrTabs;
    TrimmedRest(indent, t);
  }

  lemma MarkersAreNotWhite(marker: string)
    requires IsListMarker(marker)
    ensures !White(marker[0])
  {
  }

  lemma ListMarkerShape(t: string)
    requires ListMarker(t).Some? && ListMarker(t).value <= |t|
    ensures IsListMarker(t[..ListMarker(t).value])
  {
    var m := t[..ListMarker(t).value];
    if t[0] in {'-', '*', '+'} {
      assert m == [t[0]];
    } else {
      assert Leading(t, Digit) == |m| - 1;
    }
  }

  lemma ShapeOfTask(line: string) returns (indent: string, marker: string, blanks: string, box: string, rest: string)
    requires Task(line).Some?
    ensures IsTask(line, indent, marker, blanks, box, rest, Task(line).value)
  {
    var t := Trimmed(line);
    indent := line[..Leading(line, White)];
    assert line == indent + t && Blank(indent);
    hide White, Trimmed, Leading, Blank;
    marker, blanks, box, rest := ShapeOfItem(t);
  }

  lemma ShapeOfItem(t: string) returns (marker: string, blanks: string, box: string, rest: string)
    requires TaskState(t).Some?
    ensures IsListMarker(marker) && blanks != "" && SpacesOrTabs(blanks)
    ensures IsBox(box, TaskState(t).value) && (rest == "" || White(rest[0]))
    ensures t == marker + (blanks + (box + rest))
  {
    var at := BoxAt(t).value;
    box, rest := t[at..at + 3], t[at + 3..];
    marker, blanks := ShapeBeforeBox(t);
    hide White, BoxAt, IsListMarker, SpacesOrTabs, BoxState;
    CutTwice(t, at);
    Associative(marker, blanks, box + rest);
  }

  lemma CutTwice(t: string, at: nat)
    requires at + 3 <= |t|
    ensures t == t[..at] + (t[at..at + 3] + t[at + 3..])
  {
  }

  lemma ShapeBeforeBox(t: string) returns (marker: string, blanks: string)
    requires BoxAt(t).Some?
    ensures IsListMarker(marker) && blanks != "" && SpacesOrTabs(blanks)
    ensures BoxAt(t).value <= |t| && t[..BoxAt(t).value] == marker + blanks
  {
    ListMarkerShape(t);
    var m := ListMarker(t).value;
    hide ListMarker, IsListMarker;
    var blank := Leading(t[m..], SpaceOrTab);
    marker, blanks := t[..m], t[m..][..blank];
    assert blanks == t[m..m + blank];
  }

  /**
    A line is a task item exactly when it has this shape: indentation, a bullet or
    number, spaces or tabs, `[ ]`, `[x]` or `[X]`, and then white space or nothing.
  */
  lemma TasksAreThese(line: string, checked: bool)
    ensures Task(line) == Some(checked) <==>
            exists indent, marker, blanks, box, rest :: IsTask(line, indent, marker, blanks, box, rest, checked)
  {
    hide Task, IsTask;
    if Task(line) == Some(checked) {
      var indent, marker, blanks, box, rest := ShapeOfTask(line);
    }
    forall indent, marker, blanks, box, rest | IsTask(line, indent, marker, blanks, box, rest, checked)
      ensures Task(line) == Some(checked)
    {
      TaskOfShape(line, indent, marker, blanks, box, rest, checked);
    }
  }

  /** The parts of a fence: indentation of less than four bytes, a run of one character, and the rest. */
  ghost predicate IsFence(line: string, indent: string, run: string, rest: string) {
    && line == indent + (run + rest) && Blank(indent) && Size(indent) < 4
    && |run| >= 3 && (run[0] == '`' || run[0] == '~') && (forall i :: 0 <= i < |run| ==> run[i] == run[0])
    && (rest == "" || rest[0] != run[0])
  }

  lemma MarkerOfShape(line: string, indent: string, run: string, rest: string)
    requires IsFence(line, indent, run, rest)
    ensures Marker(line) == Some(Fence(run[0], |run|)) && Trimmed(line) == run + rest
  {
    TrimmedRest(indent, run + rest);
    LeadingRun(run, rest, c => c == (run + rest)[0]);
  }

  lemma ShapeOfMarker(line: string) returns (indent: string, run: string, rest: string)
    requires Marker(line).Some?
    ensures IsFence(line, indent, run, rest) && Marker(line).value == Fence(run[0], |run|)
  {
    var t, n := Trimmed(line), Marker(line).value.length;
    indent, run, rest := line[..Leading(line, White)], t[..n], t[n..];
    assert line == indent + t && t == run + rest;
  }

  /**
    A line is a fence exactly when it has that shape: three or more backticks or
    tildes, at most three bytes in. It closes an open one exactly when its run is
    of the same character, at least as long, and followed by white space only.
  */
  lemma FencesAreThese(line: string, open: Fence)
    ensures Marker(line).Some? <==> exists indent, run, rest :: IsFence(line, indent, run, rest)
    ensures forall indent, run, rest :: IsFence(line, indent, run, rest) ==> Marker(line) == Some(Fence(run[0], |run|))
    ensures Closes(line, open) <==>
            exists indent, run, rest ::
              IsFence(line, indent, run, rest) && run[0] == open.marker && |run| >= open.length && Blank(rest)
  {
    hide Marker;
    forall indent, run, rest | IsFence(line, indent, run, rest)
      ensures Marker(line) == Some(Fence(run[0], |run|)) && Trimmed(line) == run + rest
    {
      MarkerOfShape(line, indent, run, rest);
    }
    if Marker(line).Some? {
      var indent, run, rest := ShapeOfMarker(line);
      assert Trimmed(line)[|run|..] == rest;
      if Blank(rest) { LeadingRun(rest, "", White); assert rest + "" == rest; }
    }
  }

  // ---- The meaning ----

  /** Line `i` stands inside a fence: one that opened earlier and that no line since has closed. */
  ghost predicate Covered(lines: seq<string>, i: nat)
    requires i <= |lines|
    decreases i, 1
  {
    exists j :: 0 <= j < i && Covers(lines, j, i)
  }

  /** Line `j` opened a fence, itself outside any, and none of the lines between closes it. */
  ghost predicate Covers(lines: seq<string>, j: nat, i: nat)
    requires j < i <= |lines|
    decreases i, 0
  {
    && Marker(lines[j]).Some? && !Covered(lines, j)
    && forall k :: j < k < i ==> !Closes(lines[k], Marker(lines[j]).value)
  }

  /** A task item outside every fence. */
  ghost predicate Counts(lines: seq<string>, i: nat)
    requires i < |lines|
  {
    Task(lines[i]).Some? && !Covered(lines, i)
  }

  datatype Tally = Tally(done: nat, total: nat)

  /** Over the first `n` lines, how many count and how many of those are checked. */
  ghost function TallyTo(lines: seq<string>, n: nat): (t: Tally)
    requires n <= |lines|
    ensures t.done <= t.total <= n
  {
    if n == 0 then Tally(0, 0)
    else
      var before := TallyTo(lines, n - 1);
      if !Counts(lines, n - 1) then before
      else Tally(before.done + (if Task(lines[n - 1]).value then 1 else 0), before.total + 1)
  }

  ghost function TallyOf(lines: seq<string>): Tally { TallyTo(lines, |lines|) }

  ghost function Below(n: nat, p: nat -> bool): set<nat> { set i: nat | i < n && p(i) }

  lemma OneMoreBelow(n: nat, p: nat -> bool)
    ensures |Below(n + 1, p)| == |Below(n, p)| + if p(n) then 1 else 0
  {
    assert Below(n + 1, p) == Below(n, p) + if p(n) then {n} else {};
  }

  ghost function CountsAt(lines: seq<string>): nat -> bool { (i: nat) => i < |lines| && Counts(lines, i) }

  ghost function CheckedAt(lines: seq<string>): nat -> bool {
    (i: nat) => i < |lines| && Counts(lines, i) && Task(lines[i]).value
  }

  lemma TallyStep(lines: seq<string>, n: nat)
    requires n < |lines|
    ensures TallyTo(lines, n + 1) ==
            Tally(TallyTo(lines, n).done + (if CheckedAt(lines)(n) then 1 else 0),
                  TallyTo(lines, n).total + (if CountsAt(lines)(n) then 1 else 0))
  {
  }

  /** The two numbers are the sizes of two sets of lines. */
  lemma {:induction false} TallyCountsLines(lines: seq<string>, n: nat)
    requires n <= |lines|
    ensures TallyTo(lines, n) == Tally(|Below(n, CheckedAt(lines))|, |Below(n, CountsAt(lines))|)
  {
    hide Below, TallyTo, CountsAt, CheckedAt;
    if n == 0 {
      NoneBelow(CountsAt(lines));
      NoneBelow(CheckedAt(lines));
      NoTally(lines);
    } else {
      TallyCountsLines(lines, n - 1);
      TallyStep(lines, n - 1);
      OneMoreBelow(n - 1, CountsAt(lines));
      OneMoreBelow(n - 1, CheckedAt(lines));
    }
  }

  lemma NoneBelow(p: nat -> bool)
    ensures |Below(0, p)| == 0
  {
    assert Below(0, p) == {};
  }

  lemma NoTally(lines: seq<string>)
    ensures TallyTo(lines, 0) == Tally(0, 0)
  {
  }

  // ---- The scan ----

  /** A task item never looks like a fence. */
  lemma TaskIsNoMarker(line: string)
    ensures Task(line).Some? ==> Marker(line) == None
  {
  }

  /** The fence the scan carries is the one that covers the next line. */
  ghost predicate Carries(lines: seq<string>, i: nat, fence: Option<Fence>)
    requires i <= |lines|
  {
    match fence
    case None => !Covered(lines, i)
    case Some(f) => exists j :: 0 <= j < i && Covers(lines, j, i) && Marker(lines[j]) == Some(f)
  }

  /** A fence covers the next line exactly when it covers this one and this one does not close it. */
  lemma CoversNext(lines: seq<string>, j: nat, i: nat)
    requires j < i < |lines|
    ensures Covers(lines, j, i + 1) <==> Covers(lines, j, i) && !Closes(lines[i], Marker(lines[j]).value)
  {
  }

  lemma CoversItself(lines: seq<string>, i: nat)
    requires i < |lines|
    ensures Covers(lines, i, i + 1) <==> Marker(lines[i]).Some? && !Covered(lines, i)
  {
  }

  /** At most one open fence covers a line. */
  lemma OneOpenFence(lines: seq<string>, i: nat, j: nat, k: nat)
    requires j < i <= |lines| && k < i && Covers(lines, j, i) && Covers(lines, k, i)
    ensures j == k
  {
    hide Marker, Closes, Covered;
    if j < k { CoversEarlier(lines, j, i, k); }
    if k < j { CoversEarlier(lines, k, i, j); }
  }

  lemma CoversEarlier(lines: seq<string>, j: nat, i: nat, k: nat)
    requires j < k < i <= |lines| && Covers(lines, j, i)
    ensures Covered(lines, k)
  {
    hide Marker, Closes;
    assert Covers(lines, j, k);
  }

  lemma CoveredByNone(lines: seq<string>, i: nat)
    requires i <= |lines| && forall j: nat :: j < i ==> !Covers(lines, j, i)
    ensures !Covered(lines, i)
  {
  }

  lemma CarriesOn(lines: seq<string>, i: nat, fence: Option<Fence>)
    requires i < |lines| && Carries(lines, i, fence)
    ensures fence == None ==> Carries(lines, i + 1, Marker(lines[i]))
    ensures fence.Some? && !Closes(lines[i], fence.value) ==> Carries(lines, i + 1, fence)
    ensures fence.Some? && Closes(lines[i], fence.value) ==> Carries(lines, i + 1, None)
    ensures fence.Some? <==> Covered(lines, i)
  {
    hide Marker, Closes, Covers;
    var next: nat := i + 1;
    CoversItself(lines, i);
    match fence
    case None =>
      if Marker(lines[i]) == None {
        forall j: nat | j < next ensures !Covers(lines, j, next) {
          if j < i { CoversNext(lines, j, i); }
        }
        CoveredByNone(lines, next);
      }
    case Some(f) =>
      var j :| 0 <= j < i && Covers(lines, j, i) && Marker(lines[j]) == Some(f);
      CoversNext(lines, j, i);
      if Closes(lines[i], f) {
        forall k: nat | k < next ensures !Covers(lines, k, next) {
          if k < i {
            CoversNext(lines, k, i);
            if Covers(lines, k, i) { OneOpenFence(lines, i, j, k); }
          }
        }
        CoveredByNone(lines, next);
      }
  }

  /** `checklist`: counts exactly those task items that no fence covers, or says there are none. */
  method Checklist(text: string) returns (r: Option<Tally>)
    ensures var t := TallyOf(Lines(text)); r == if t.total > 0 then Some(t) else None
  {
    hide Covered, Task, Marker, Closes, Carries;
    var lines := Lines(text);
    var fence: Option<Fence> := None;
    var done, total := 0, 0;
    CarriesAtFirst(lines);
    for i := 0 to |lines|
      invariant Tally(done, total) == TallyTo(lines, i)
      invariant Carries(lines, i, fence)
    {
      CarriesOn(lines, i, fence);
      TaskIsNoMarker(lines[i]);
      var m := Marker(lines[i]);
      if m.Some? {
        if fence == None {
          fence := m;
        } else if Closes(lines[i], fence.value) {
          fence := None;
        }
        continue;
      }
      if fence.Some? {
        ClosersAreMarkers(lines[i], fence.value);
        continue;
      }
      var state := Task(lines[i]);
      if state.Some? {
        total := total + 1;
        done := done + if state.value then 1 else 0;
      }
    }
    r := if total > 0 then Some(Tally(done, total)) else None;
  }

  lemma CarriesAtFirst(lines: seq<string>)
    ensures Carries(lines, 0, None)
  {
  }

  lemma ClosersAreMarkers(line: string, open: Fence)
    ensures Closes(line, open) ==> Marker(line).Some?
  {
  }

  // ---- Two texts, one after the other ----

  /** What covers a line depends on the lines before it alone. */
  lemma {:induction false} CoveredByPrefix(lines: seq<string>, more: seq<string>, i: nat)
    requires i <= |lines|
    ensures Covered(lines + more, i) <==> Covered(lines, i)
    decreases i
  {
    hide Marker, Closes;
    forall j: nat | j < i ensures Covers(lines + more, j, i) <==> Covers(lines, j, i) {
      CoveredByPrefix(lines, more, j);
      assert forall k :: 0 <= k < i ==> (lines + more)[k] == lines[k];
    }
  }

  /** After lines that end outside a fence, what covers a line depends on the lines since. */
  lemma {:induction false} CoveredBySuffix(lines: seq<string>, more: seq<string>, i: nat)
    requires i <= |more| && !Covered(lines, |lines|)
    ensures Covered(lines + more, |lines| + i) <==> Covered(more, i)
    decreases i
  {
    hide Marker, Closes;
    var n, all := |lines|, lines + more;
    var at: nat := n + i;
    forall j: nat | j < i ensures Covers(all, n + j, n + i) <==> Covers(more, j, i) {
      CoveredBySuffix(lines, more, j);
      CoversShifted(lines, more, j, i);
    }
    forall j: nat | j < n ensures !Covers(all, j, at) {
      CoveredByPrefix(lines, more, n);
      if Covers(all, j, at) { CoversThrough(all, j, at, n); }
    }
    if Covered(all, at) {
      var j := Opener(all, at);
      assert j == n + (j - n) && Covers(more, j - n, i);
    }
    if Covered(more, i) {
      var j := Opener(more, i);
      assert Covers(all, n + j, at);
    }
  }

  lemma Opener(lines: seq<string>, i: nat) returns (j: nat)
    requires i <= |lines| && Covered(lines, i)
    ensures j < i && Covers(lines, j, i)
  {
    j :| j < i && Covers(lines, j, i);
  }

  lemma CoversThrough(lines: seq<string>, j: nat, i: nat, k: nat)
    requires j < k <= i <= |lines| && Covers(lines, j, i)
    ensures Covered(lines, k)
  {
    hide Marker, Closes;
    assert Covers(lines, j, k);
  }

  lemma CoversShifted(lines: seq<string>, more: seq<string>, j: nat, i: nat)
    requires j < i <= |more| && (Covered(lines + more, |lines| + j) <==> Covered(more, j))
    ensures Covers(lines + more, |lines| + j, |lines| + i) <==> Covers(more, j, i)
  {
    hide Marker, Closes;
    var n, all := |lines|, lines + more;
    assert forall k :: 0 <= k < |more| ==> all[n + k] == more[k];
    if Covers(all, n + j, n + i) {
      forall k | j < k < i ensures !Closes(more[k], Marker(more[j]).value) { assert all[n + k] == more[k]; }
    }
    if Covers(more, j, i) {
      forall k | n + j < k < n + i ensures !Closes(all[k], Marker(all[n + j]).value) { assert all[k] == more[k - n]; }
    }
  }

  function Sum(a: Tally, b: Tally): Tally { Tally(a.done + b.done, a.total + b.total) }

  lemma {:induction false} TallyOfPrefix(lines: seq<string>, more: seq<string>, n: nat)
    requires n <= |lines|
    ensures TallyTo(lines + more, n) == TallyTo(lines, n)
  {
    hide Covered, Task;
    if n > 0 {
      TallyOfPrefix(lines, more, n - 1);
      CoveredByPrefix(lines, more, n - 1);
    }
  }

  lemma {:induction false} TallyOfConcat(lines: seq<string>, more: seq<string>, n: nat)
    requires n <= |more| && !Covered(lines, |lines|)
    ensures TallyTo(lines + more, |lines| + n) == Sum(TallyOf(lines), TallyTo(more, n))
  {
    hide Covered, Task;
    if n == 0 {
      TallyOfPrefix(lines, more, |lines|);
    } else {
      TallyOfConcat(lines, more, n - 1);
      CoveredBySuffix(lines, more, n - 1);
      assert (lines + more)[|lines| + n - 1] == more[n - 1];
    }
  }

  lemma LinesOfConcat(a: string, b: string)
    requires a == "" || a[|a| - 1] == '\n'
    ensures Lines(a + b) == Lines(a) + Lines(b)
  {
    hide Split, StripReturn;
    SplitOfEmpty('\n');
    if a == "" {
      assert a + b == b && Lines("") == [];
    } else {
      var front := a[..|a| - 1];
      assert a == front + ['\n'] && a + b == front + ['\n'] + b;
      SplitAround(front, b, '\n');
      SplitSnoc(front, '\n', '\n');
    }
  }

  /** A text that ends a line outside every fence, followed by another: the counts add up. */
  lemma ChecklistOfConcat(a: string, b: string)
    requires a == "" || a[|a| - 1] == '\n'
    requires !Covered(Lines(a), |Lines(a)|)
    ensures TallyOf(Lines(a + b)) == Sum(TallyOf(Lines(a)), TallyOf(Lines(b)))
  {
    hide Lines, Covered;
    LinesOfConcat(a, b);
    TallyOfConcat(Lines(a), Lines(b), |Lines(b)|);
  }

  // ---- Checking a box ----

  /** Lines that look the same as fences have the same coverage. */
  lemma {:induction false} CoverageFollowsFences(x: seq<string>, y: seq<string>, i: nat)
    requires |x| == |y| && i <= |x|
    requires forall k :: 0 <= k < |x| ==> Marker(x[k]) == Marker(y[k])
    requires forall k, f :: 0 <= k < |x| ==> (Closes(x[k], f) <==> Closes(y[k], f))
    ensures Covered(x, i) <==> Covered(y, i)
    decreases i
  {
    hide Marker, Closes;
    forall j: nat | j < i ensures Covers(x, j, i) <==> Covers(y, j, i) { CoverageFollowsFences(x, y, j); }
  }

  /** The box of a task item in a whole line. */
  predicate HasBoxAt(line: string, at: nat) {
    var b := BoxAt(Trimmed(line));
    b.Some? && Leading(line, White) + b.value == at
  }

  lemma SameLeading(s: string, t: string, p: char -> bool, n: nat)
    requires n <= |s| && n <= |t| && s[..n] == t[..n] && Leading(s, p) < n
    ensures Leading(t, p) == Leading(s, p)
  {
    assert forall i :: 0 <= i < n ==> s[i] == s[..n][i] == t[i];
  }

  lemma SameListMarker(s: string, t: string, n: nat)
    requires n <= |s| && n <= |t| && s[..n] == t[..n] && ListMarker(s).Some? && ListMarker(s).value < n
    ensures ListMarker(t) == ListMarker(s)
  {
  }

  /** The place of the box depends on what comes before it, and on no blank taking its place. */
  lemma SameBox(s: string, t: string, at: nat)
    requires BoxAt(s) == Some(at) && at < |s| && at < |t| && s[..at + 1] == t[..at + 1]
    ensures BoxAt(t) == Some(at)
  {
    hide ListMarker;
    var n := at + 1;
    var m := ListMarker(s).value;
    SameListMarker(s, t, n);
    assert s[m..][..n - m] == s[..n][m..] == t[..n][m..] == t[m..][..n - m];
    SameLeading(s[m..], t[m..], SpaceOrTab, n - m);
  }

  lemma SameBoxInLine(x: string, y: string, at: nat)
    requires HasBoxAt(x, at) && at < |x| && at < |y| && x[..at + 1] == y[..at + 1]
    ensures HasBoxAt(y, at)
  {
    hide BoxAt;
    var n := at + 1;
    var white := Leading(x, White);
    SameLeading(x, y, White, n);
    var s, t := Trimmed(x), Trimmed(y);
    var k := at - white;
    assert s[..k + 1] == x[..n][white..] == y[..n][white..] == t[..k + 1];
    SameBox(s, t, k);
  }

  /** What a box says of its line. */
  lemma BoxTellsTask(line: string, at: nat)
    requires HasBoxAt(line, at)
    ensures Task(line) ==
            if at + 3 > |line| then None
            else if at + 3 == |line| || White(line[at + 3]) then BoxState(line[at..at + 3])
            else None
  {
    hide BoxAt, BoxState;
    var white := Leading(line, White);
    var t := Trimmed(line);
    var k := at - white;
    assert |t| == |line| - white;
    if at + 3 <= |line| { assert t[k..k + 3] == line[at..at + 3]; }
  }

  /** Checking the box of an open item makes it a checked one; neither line looks like a fence. */
  lemma CheckedLine(p: string, q: string)
    requires var line := p + "[ ]" + q; Task(line).Some? && HasBoxAt(line, |p|)
    ensures Task(p + "[x]" + q) == Some(true) && Task(p + "[ ]" + q) == Some(false)
    ensures Marker(p + "[ ]" + q) == None && Marker(p + "[x]" + q) == None
  {
    hide Task, HasBoxAt, Marker, White;
    var x, y := p + "[ ]" + q, p + "[x]" + q;
    var at := |p|;
    assert x[..at + 1] == p + "[" == y[..at + 1];
    SameBoxInLine(x, y, at);
    BoxTellsTask(x, at);
    BoxTellsTask(y, at);
    assert x[at..at + 3] == "[ ]" && y[at..at + 3] == "[x]";
    if q != "" { assert x[at + 3] == q[0] == y[at + 3]; }
    TaskIsNoMarker(x);
    TaskIsNoMarker(y);
  }

  /** Replacing a line that is no fence by another that is none leaves every line as covered as it was. */
  lemma SameCoverage(x: seq<string>, line: string, i: nat, k: nat)
    requires i < |x| && k <= |x| && Marker(x[i]) == None && Marker(line) == None
    ensures Covered(x[i := line], k) <==> Covered(x, k)
  {
    hide Marker;
    var y := x[i := line];
    forall j, f | 0 <= j < |x| ensures Closes(x[j], f) <==> Closes(y[j], f) {
      if j == i {
        ClosersAreMarkers(x[i], f);
        ClosersAreMarkers(line, f);
      }
    }
    CoverageFollowsFences(x, y, k);
  }

  lemma SameCounts(x: seq<string>, line: string, i: nat, k: nat)
    requires i < |x| && k < |x| && Marker(x[i]) == None && Marker(line) == None && Task(x[i]).Some? && Task(line).Some?
    ensures Counts(x[i := line], k) <==> Counts(x, k)
  {
    hide Marker, Task, Covered;
    SameCoverage(x, line, i, k);
  }

  /** Replacing an open item by a checked one adds one to what is done. */
  lemma {:induction false} TallyOfChecked(x: seq<string>, line: string, i: nat, n: nat)
    requires i < |x| && n <= |x| && Counts(x, i) && Task(x[i]) == Some(false) && Task(line) == Some(true)
    requires Marker(x[i]) == None && Marker(line) == None
    ensures TallyTo(x[i := line], n) == Tally(TallyTo(x, n).done + (if i < n then 1 else 0), TallyTo(x, n).total)
  {
    hide Task, Marker, Counts;
    if n > 0 {
      TallyOfChecked(x, line, i, n - 1);
      SameCounts(x, line, i, n - 1);
      if Counts(x, n - 1) { CountsAreTasks(x, n - 1); }
    }
  }

  lemma StripInside(a: string, b: string)
    requires a != "" && a[|a| - 1] != '\r'
    ensures StripReturn(a + b) == a + StripReturn(b)
  {
  }

  /** What follows the box in its own line, and the lines after it. */
  function Rest(after: string): string {
    var y := Split(after, '\n');
    if |y| == 1 then y[0] else StripReturn(y[0])
  }

  function LinesAfter(after: string): seq<string> {
    var y := Split(after, '\n');
    if |y| == 1 then [] else LinesOf(y[1..])
  }

  function LinesBefore(before: string): seq<string> {
    var x := Split(before, '\n');
    Stripped(x[..|x| - 1])
  }

  function LastPiece(before: string): string { Split(before, '\n')[|Split(before, '\n')| - 1] }

  lemma LinesAround(front: seq<string>, mid: string, rest: seq<string>)
    requires mid != ""
    ensures LinesOf(front + [mid] + rest) ==
            Stripped(front) + (if rest == [] then [mid] else [StripReturn(mid)] + LinesOf(rest))
  {
  }

  lemma LinesAroundBox(before: string, box: string, after: string)
    requires box != "" && '\n' !in box && box[|box| - 1] != '\r'
    ensures Lines(before + box + after) ==
            LinesBefore(before) + [LastPiece(before) + box + Rest(after)] + LinesAfter(after)
  {
    hide Split, StripReturn, LinesOf, Stripped;
    var x, y := Split(before, '\n'), Split(after, '\n');
    var mid := x[|x| - 1] + box;
    SplitPiece(before, box, '\n');
    SplitAppend(before + box, after, '\n');
    LinesAround(x[..|x| - 1], mid + y[0], y[1..]);
    StripInside(mid, y[0]);
  }

  /**
    Checking one counted box of a text, wherever it stands: that line becomes a
    checked item, every other line stays as it is and counts as before, and one
    more item is done.
  */
  lemma CheckingABox(before: string, after: string)
    requires var i := |LinesBefore(before)|;
             var lines := Lines(before + "[ ]" + after);
             i < |lines| && Counts(lines, i) && HasBoxAt(lines[i], |LastPiece(before)|)
    ensures var i := |LinesBefore(before)|;
            var x, y := Lines(before + "[ ]" + after), Lines(before + "[x]" + after);
            && i < |x| == |y| && Task(x[i]) == Some(false) && Task(y[i]) == Some(true)
            && (forall k :: 0 <= k < |x| && k != i ==> y[k] == x[k])
            && (forall k :: 0 <= k < |x| ==> (Counts(y, k) <==> Counts(x, k)))
            && TallyOf(y) == Tally(TallyOf(x).done + 1, TallyOf(x).total)
  {
    hide Lines, LinesBefore, LinesAfter, LastPiece, Rest, Task, Marker, Counts, HasBoxAt;
    var i := |LinesBefore(before)|;
    var x, y := Lines(before + "[ ]" + after), Lines(before + "[x]" + after);
    var p, q := LastPiece(before), Rest(after);
    LinesAroundBox(before, "[ ]", after);
    LinesAroundBox(before, "[x]", after);
    assert x[i] == p + "[ ]" + q && y == x[i := p + "[x]" + q];
    assert Task(x[i]).Some? by { CountsAreTasks(x, i); }
    CheckedLine(p, q);
    TallyOfChecked(x, p + "[x]" + q, i, |x|);
    forall k | 0 <= k < |x| ensures Counts(y, k) <==> Counts(x, k) { SameCounts(x, p + "[x]" + q, i, k); }
  }

  lemma CountsAreTasks(lines: seq<string>, i: nat)
    requires i < |lines| && Counts(lines, i)
    ensures Task(lines[i]).Some?
  {
  }
}
