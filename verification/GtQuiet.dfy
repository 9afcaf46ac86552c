/** gt's stderr reduced to what is about the run, and split into its separate reports. */
module GtQuiet {
  import opened Text
  import opened GtLines
  import opened GtRun
  import opened Picks

  function TrimSpaces(line: string): (t: string)
    ensures t <= line && forall i :: |t| <= i < |line| ==> line[i] == ' '
    ensures t == "" || t[|t| - 1] != ' '
  {
    if line != "" && line[|line| - 1] == ' ' then TrimSpaces(line[..|line| - 1]) else line
  }

  /** A line that ends a tip: the bracket of the tip's id, whatever spaces follow. */
  predicate Closes(line: string) {
    var t := TrimSpaces(line);
    t != "" && t[|t| - 1] == ']'
  }

  /** A tip opens with its word, and closes where a line ends in a bracket, whatever spaces follow. */
  lemma TipWords(line: string)
    ensures Closes(line) <==>
              exists t, spaces :: line == t + "]" + spaces && forall c :: c in spaces ==> c == ' '
    ensures TIP_PREFIX <= line <==> "tip: " <= line
  {
    if Closes(line) {
      EndsInBracket(line);
    }
    hide Closes, TrimSpaces;
    if t, spaces :| line == t + "]" + spaces && forall c :: c in spaces ==> c == ' ' {
      BracketCloses(t, spaces);
    }
  }

  lemma EndsInBracket(line: string)
    requires Closes(line)
    ensures exists t, spaces :: line == t + "]" + spaces && forall c :: c in spaces ==> c == ' '
  {
    var trimmed := TrimSpaces(line);
    hide TrimSpaces;
    var t, spaces := trimmed[..|trimmed| - 1], line[|trimmed|..];
    assert trimmed == t + "]";
    assert line == trimmed + spaces;
    assert line == t + "]" + spaces;
    assert forall c :: c in spaces ==> c == ' ';
  }

  lemma BracketCloses(t: string, spaces: string)
    requires forall c :: c in spaces ==> c == ' '
    ensures Closes(t + "]" + spaces)
  {
    SpacesGo(t + "]", spaces);
    hide TrimSpaces;
  }

  lemma {:induction false} SpacesGo(t: string, spaces: string)
    requires t != "" && t[|t| - 1] != ' ' && forall c :: c in spaces ==> c == ' '
    ensures TrimSpaces(t + spaces) == t
    decreases |spaces|
  {
    if spaces == "" {
      assert t + spaces == t;
    } else {
      var n := |spaces| - 1;
      assert forall c :: c in spaces[..n] ==> c in spaces;
      SpacesGo(t, spaces[..n]);
      assert (t + spaces)[..|t + spaces| - 1] == t + spaces[..n] && spaces[n] in spaces;
    }
  }

  /** Line i belongs to a tip: one opened at or before it, with no closing line and no diagnostic since. */
  predicate InTip(lines: seq<string>, i: nat)
    requires i < |lines|
  {
    exists j :: 0 <= j <= i && OpenedAt(lines, j, i)
  }

  predicate OpenedAt(lines: seq<string>, j: nat, i: nat)
    requires j <= i < |lines|
  {
    && TIP_PREFIX <= lines[j]
    && (forall k :: j <= k <= i ==> !Led(lines[k]))
    && forall k :: j <= k < i ==> !Closes(lines[k])
  }

  /** Whether a tip is still open after these lines. */
  predicate TipOpen(lines: seq<string>) {
    lines != [] && InTip(lines, |lines| - 1) && !Closes(lines[|lines| - 1])
  }

  lemma {:induction false} TipGoesOn(lines: seq<string>, i: nat)
    requires i < |lines|
    ensures InTip(lines, i) <==> !Led(lines[i]) && (TipOpen(lines[..i]) || TIP_PREFIX <= lines[i])
  {
    hide Led, Closes;
    var before := lines[..i];
    assert forall k :: 0 <= k < i ==> before[k] == lines[k];
    if TipOpen(before) && !Led(lines[i]) {
      var j :| 0 <= j <= i - 1 && OpenedAt(before, j, i - 1);
      assert OpenedAt(lines, j, i);
    }
    if InTip(lines, i) && !(TIP_PREFIX <= lines[i]) {
      var j :| 0 <= j <= i && OpenedAt(lines, j, i);
      assert OpenedAt(before, j, i - 1);
    }
    if TIP_PREFIX <= lines[i] && !Led(lines[i]) {
      assert OpenedAt(lines, i, i);
    }
  }

  lemma TipIsLocal(lines: seq<string>, n: nat, i: nat)
    requires i < n <= |lines|
    ensures InTip(lines[..n], i) == InTip(lines, i)
  {
    var front := lines[..n];
    assert forall k :: 0 <= k <= i ==> front[k] == lines[k];
    assert forall j :: 0 <= j <= i ==> OpenedAt(front, j, i) == OpenedAt(lines, j, i);
  }

  predicate Noise(lines: seq<string>, i: nat)
    requires i < |lines|
  {
    InTip(lines, i) || InReminder(lines, i)
  }

  function Kept(lines: seq<string>): seq<string> {
    if lines == [] then []
    else
      var n := |lines| - 1;
      Kept(lines[..n]) + if Noise(lines, n) then [] else [lines[n]]
  }

  ghost function NoNoise(lines: seq<string>): nat -> bool { (k: nat) => k < |lines| && !Noise(lines, k) }

  ghost function LineOf(lines: seq<string>): nat -> string { (k: nat) => if k < |lines| then lines[k] else "" }

  /** The lines kept are those that are no noise, each where it was. */
  lemma KeptIs(lines: seq<string>) returns (at: seq<nat>)
    ensures Picked(|lines|, NoNoise(lines), at) && Along(LineOf(lines), at, Kept(lines))
  {
    at := KeptUpTo(lines, |lines|);
    assert lines[..|lines|] == lines;
  }

  lemma {:induction false} KeptUpTo(lines: seq<string>, n: nat) returns (at: seq<nat>)
    requires n <= |lines|
    ensures Picked(n, NoNoise(lines), at) && Along(LineOf(lines), at, Kept(lines[..n]))
  {
    hide Kept, Noise, Picked, Along;
    at := [];
    NothingKept();
    NothingPicked(NoNoise(lines), LineOf(lines));
    if n > 0 {
      var k := n - 1;
      at := KeptUpTo(lines, k);
      assert lines[..n][..k] == lines[..k];
      NoiseIsLocal(lines, n, k);
      KeptLast(lines[..n]);
      PickedOneMore(k, NoNoise(lines), at);
      AlongOneMore(LineOf(lines), at, Kept(lines[..k]), k);
      if !Noise(lines, k) {
        at := at + [k];
      } else {
        assert Kept(lines[..k]) + [] == Kept(lines[..k]);
      }
    }
  }

  lemma NoiseIsLocal(lines: seq<string>, n: nat, i: nat)
    requires i < n <= |lines|
    ensures Noise(lines[..n], i) == Noise(lines, i)
  {
    TipIsLocal(lines, n, i);
    assert forall k :: 0 <= k <= i ==> lines[..n][k] == lines[k];
    hide InTip;
  }

  /** gtTip. */
  class Tip {
    var inside: bool

    constructor ()
      ensures !inside
    {
      inside := false;
    }

    method Drop(line: string, ghost before: seq<string>) returns (dropped: bool)
      requires inside == TipOpen(before)
      modifies this
      ensures dropped == InTip(before + [line], |before|)
      ensures inside == TipOpen(before + [line])
    {
      assert (before + [line])[..|before|] == before;
      TipGoesOn(before + [line], |before|);
      if Led(line) {
        inside := false;
        return false;
      }
      if !inside && !(TIP_PREFIX <= line) {
        return false;
      }
      inside := !Closes(line);
      return true;
    }
  }

  /** gtNoise. */
  class NoiseFilter {
    const tip: Tip
    const diverged: Divergence

    ghost predicate After(lines: seq<string>)
      reads tip, diverged
    {
      tip.inside == TipOpen(lines) && diverged.inside == Inside(lines)
    }

    constructor ()
      ensures After([]) && fresh(tip) && fresh(diverged)
    {
      tip := new Tip();
      diverged := new Divergence();
    }

    method Drop(line: string, ghost before: seq<string>) returns (dropped: bool)
      requires After(before)
      modifies tip, diverged
      ensures dropped == Noise(before + [line], |before|)
      ensures After(before + [line])
    {
      var tipped := tip.Drop(line, before);
      dropped := diverged.Drop(line, before);
      dropped := dropped || tipped;
    }
  }

  /** A line strings.TrimSpace leaves nothing of. */
  predicate Blank(line: string) { forall c :: c in line ==> Space(c) }

  function TrimTail(lines: seq<string>): (t: seq<string>)
    ensures t <= lines && (t == [] || !Blank(t[|t| - 1]))
    ensures forall i :: |t| <= i < |lines| ==> Blank(lines[i])
  {
    if lines != [] && Blank(lines[|lines| - 1]) then TrimTail(lines[..|lines| - 1]) else lines
  }

  function TrimHead(lines: seq<string>): (t: seq<string>)
    ensures |t| <= |lines| && t == lines[|lines| - |t|..] && (t == [] || !Blank(t[0]))
    ensures forall i :: 0 <= i < |lines| - |t| ==> Blank(lines[i])
  {
    if lines != [] && Blank(lines[0]) then
      var t := TrimHead(lines[1..]);
      assert lines[1..][|lines| - 1 - |t|..] == lines[|lines| - |t|..];
      assert forall i :: 1 <= i < |lines| ==> lines[i] == lines[1..][i - 1];
      t
    else lines
  }

  function Trimmed(lines: seq<string>): seq<string> { TrimHead(TrimTail(lines)) }

  predicate AnyLed(lines: seq<string>) {
    exists i :: 0 <= i < |lines| && Led(lines[i])
  }

  /** What gtQuiet keeps of a text, as lines. */
  function QuietLines(s: string): seq<string> {
    var kept := Trimmed(Kept(Lines(TrimNewlines(s))));
    if s == "" || !AnyLed(kept) then [] else kept
  }

  function Quiet(s: string): string {
    if QuietLines(s) == [] then "" else Join(QuietLines(s)) + "\n"
  }

  method FilterQuiet(s: string) returns (r: string)
    ensures r == Quiet(s)
  {
    if s == "" {
      return "";
    }
    var kept := KeepLines(Lines(TrimNewlines(s)));
    kept := TrimBlanks(kept);
    var led := ContainsLed(kept);
    hide Trimmed, Kept, Lines, TrimNewlines, Led, Join;
    return if led then Join(kept) + "\n" else "";
  }

  method KeepLines(lines: seq<string>) returns (kept: seq<string>)
    ensures kept == Kept(lines)
  {
    var n := new NoiseFilter();
    kept := [];
    var i := 0;
    while i < |lines|
      invariant 0 <= i <= |lines| && fresh(n) && fresh(n.tip) && fresh(n.diverged)
      invariant n.After(lines[..i]) && kept == Kept(lines[..i])
    {
      hide Noise, TipOpen, Inside, Kept;
      assert lines[..i + 1] == lines[..i] + [lines[i]] && lines[..i + 1][..i] == lines[..i];
      KeptLast(lines[..i + 1]);
      var dropped := n.Drop(lines[i], lines[..i]);
      if !dropped {
        kept := kept + [lines[i]];
      }
      i := i + 1;
    }
    assert lines[..i] == lines;
  }

  method TrimBlanks(lines: seq<string>) returns (kept: seq<string>)
    ensures kept == Trimmed(lines)
  {
    hide Blank;
    kept := lines;
    while kept != [] && Blank(kept[|kept| - 1])
      invariant TrimTail(kept) == TrimTail(lines)
      decreases |kept|
    {
      kept := kept[..|kept| - 1];
    }
    while kept != [] && Blank(kept[0])
      invariant TrimHead(kept) == Trimmed(lines)
      decreases |kept|
    {
      kept := kept[1..];
    }
  }

  /** slices.ContainsFunc of gtSeverityLed. */
  method ContainsLed(lines: seq<string>) returns (led: bool)
    ensures led == AnyLed(lines)
  {
    var i := 0;
    while i < |lines|
      invariant 0 <= i <= |lines| && forall k :: 0 <= k < i ==> !Led(lines[k])
    {
      if Led(lines[i]) {
        return true;
      }
      i := i + 1;
    }
    return false;
  }

  // ---------------------------------------------------------------------------
  // Filtering twice
  // ---------------------------------------------------------------------------

  /** A line no filter opens on. */
  predicate Clean(line: string) { !Opens(line) && !(TIP_PREFIX <= line && !Led(line)) }

  lemma {:induction false} KeptIsClean(lines: seq<string>)
    ensures forall line :: line in Kept(lines) ==> Clean(line) && line in lines
  {
    if lines != [] {
      var n := |lines| - 1;
      KeptIsClean(lines[..n]);
      TipGoesOn(lines, n);
      ReminderGoesOn(lines, n);
    }
  }

  lemma {:induction false} CleanIsKept(lines: seq<string>)
    requires forall line :: line in lines ==> Clean(line)
    ensures Kept(lines) == lines
  {
    hide Noise, Clean, Kept;
    if lines == [] {
      NothingKept();
    } else {
      var n := |lines| - 1;
      CleanIsKept(lines[..n]);
      NothingOpens(lines, n);
      KeptLast(lines);
      assert lines == lines[..n] + [lines[n]];
    }
  }

  lemma NothingKept()
    ensures Kept([]) == []
  {
  }

  lemma KeptLast(lines: seq<string>)
    requires lines != []
    ensures var n := |lines| - 1; Kept(lines) == Kept(lines[..n]) + if Noise(lines, n) then [] else [lines[n]]
  {
    hide Noise;
  }

  lemma NothingOpens(lines: seq<string>, i: nat)
    requires i < |lines| && forall line :: line in lines ==> Clean(line)
    ensures !Noise(lines, i)
  {
    forall j | 0 <= j <= i ensures !OpenedAt(lines, j, i) && !Opens(lines[j]) {
      assert Clean(lines[j]);
    }
  }

  lemma {:induction false} TrimmedEnds(lines: seq<string>)
    ensures var t := Trimmed(lines); t != [] ==> !Blank(t[0]) && !Blank(t[|t| - 1])
  {
  }

  lemma {:induction false} TrimmedHolds(lines: seq<string>)
    ensures forall line :: line in Trimmed(lines) ==> line in lines
  {
  }

  lemma {:induction false} TrimmedTwice(lines: seq<string>)
    ensures Trimmed(Trimmed(lines)) == Trimmed(lines)
  {
  }

  lemma QuietLinesAre(s: string)
    ensures var kept := QuietLines(s);
      && (forall line :: line in kept ==> Clean(line) && OneLine(line) && line in Lines(TrimNewlines(s)))
      && (kept != [] ==> AnyLed(kept) && !Blank(kept[|kept| - 1]) && kept[|kept| - 1] != "")
  {
    hide Lines, TrimNewlines, Kept, Trimmed, Led, Clean;
    var all := Lines(TrimNewlines(s));
    LinesHoldNoNewline(TrimNewlines(s));
    KeptIsClean(all);
    TrimmedEnds(Kept(all));
    TrimmedHolds(Kept(all));
  }

  lemma JoinedReadsBack(kept: seq<string>)
    requires kept != [] && kept[|kept| - 1] != "" && forall line :: line in kept ==> OneLine(line)
    ensures Lines(TrimNewlines(Join(kept) + "\n")) == kept
  {
    JoinEndsOnLine(kept);
    TrimEndsOnLine(Join(kept));
    LinesOfJoin(kept);
    hide Join, Lines, TrimNewlines, OneLine;
  }

  /** gtQuiet leaves its own output as it is. */
  lemma {:induction false} QuietTwice(s: string)
    ensures Quiet(Quiet(s)) == Quiet(s)
  {
    hide Lines, TrimNewlines, Kept, Trimmed, Join, Led, Blank, Clean, OneLine;
    var kept := QuietLines(s);
    if kept != [] {
      QuietLinesAre(s);
      JoinedReadsBack(kept);
      CleanIsKept(kept);
      TrimmedTwice(Kept(Lines(TrimNewlines(s))));
      assert QuietLines(Quiet(s)) == kept;
    }
  }

  lemma {:induction false} KeptHolds(lines: seq<string>, i: nat)
    requires i < |lines| && !Noise(lines, i)
    ensures lines[i] in Kept(lines)
  {
    var n := |lines| - 1;
    if i < n {
      TipIsLocal(lines, n, i);
      ReminderIsLocal(lines, n, i);
      KeptHolds(lines[..n], i);
      assert lines[..n][i] == lines[i];
    }
  }

  /** No diagnostic is lost: every severity-led line outside the reminder is in the filtered text. */
  lemma DiagnosticsSurvive(s: string, i: nat)
    requires s != "" && i < |Lines(TrimNewlines(s))|
    requires var lines := Lines(TrimNewlines(s)); Led(lines[i]) && !InReminder(lines, i)
    ensures Lines(TrimNewlines(s))[i] in QuietLines(s)
  {
    hide Lines, TrimNewlines, Kept, Noise, InReminder, InTip;
    var lines := Lines(TrimNewlines(s));
    LedIsKept(lines, i);
    LedIsNotTrimmed(Kept(lines), lines[i]);
    var kept := Trimmed(Kept(lines));
    var k :| 0 <= k < |kept| && kept[k] == lines[i];
    assert Led(kept[k]);
  }

  lemma {:induction false} LedIsKept(lines: seq<string>, i: nat)
    requires i < |lines| && Led(lines[i]) && !InReminder(lines, i)
    ensures lines[i] in Kept(lines)
  {
    hide InTip, InReminder, Led, Kept, TipOpen;
    TipGoesOn(lines, i);
    KeptHolds(lines, i);
  }

  lemma LedIsNotTrimmed(kept: seq<string>, line: string)
    requires Led(line) && line in kept
    ensures line in Trimmed(kept)
  {
    assert line[0] == 'E' || line[0] == 'W';
    assert !Blank(line) by { assert line[0] in line && !Space(line[0]); }
    hide Led, Blank;
    var k :| 0 <= k < |kept| && kept[k] == line;
    var tail := TrimTail(kept);
    assert k < |tail| && tail[k] == line;
    var head := TrimHead(tail);
    var gone := |tail| - |head|;
    assert k >= gone && head[k - gone] == line;
  }

  /** Every line of the filtered text is a line of the input that neither filter opens on, and some
      line of it is severity-led. */
  lemma OnlyDiagnosticsRemain(s: string)
    ensures Quiet(s) == "" <==> QuietLines(s) == []
    ensures QuietLines(s) != [] ==> AnyLed(QuietLines(s)) && Lines(Quiet(s)) == QuietLines(s) + [""]
    ensures forall line :: line in QuietLines(s) ==> line in Lines(TrimNewlines(s)) && Clean(line)
  {
    var kept := QuietLines(s);
    QuietLinesAre(s);
    hide Lines, TrimNewlines, QuietLines, Led, Clean, Blank;
    if kept != [] {
      JoinApart(kept, [""]);
      assert Join([""]) == "";
      assert Join(kept + [""]) == Join(kept) + "\n";
      LinesOfJoin(kept + [""]);
    }
  }

  // ---------------------------------------------------------------------------
  // gtBlocks
  // ---------------------------------------------------------------------------

  /** One report: no line after its first is severity-led. */
  predicate Report(lines: seq<string>) {
    lines != [] && forall k :: 1 <= k < |lines| ==> !Led(lines[k])
  }

  /** Each block is one report, and each after the first starts at a severity-led line. */
  predicate Reports(blocks: seq<string>) {
    && (forall b :: b in blocks ==> Report(Lines(b)))
    && forall k :: 1 <= k < |blocks| ==> Led(Lines(blocks[k])[0])
  }

  /** The block being read. */
  predicate Opened(blocks: seq<string>, cur: seq<string>) {
    && (forall line :: line in cur ==> OneLine(line))
    && (cur != [] ==> Report(cur) && (blocks != [] ==> Led(cur[0])))
  }

  /** gtBlocks: joining the reports gives back the text without its trailing newlines; each is one
      report, and each after the first starts at a severity-led line. */
  method Blocks(s: string) returns (blocks: seq<string>)
    ensures s == "" <==> blocks == []
    ensures Join(blocks) == TrimNewlines(s)
    ensures Reports(blocks)
  {
    if s == "" {
      return [];
    }
    LinesHoldNoNewline(TrimNewlines(s));
    JoinOfLines(TrimNewlines(s));
    blocks := CutBlocks(Lines(TrimNewlines(s)));
  }

  /** The loop of gtBlocks. */
  method CutBlocks(lines: seq<string>) returns (blocks: seq<string>)
    requires lines != [] && forall line :: line in lines ==> OneLine(line)
    ensures blocks != [] && Join(blocks) == Join(lines) && Reports(blocks)
  {
    hide Led, Join, Rejoined, OneLine, Reports, Opened;
    blocks := [];
    var cur := [];
    NoReports();
    var i := 0;
    while i < |lines|
      invariant 0 <= i <= |lines| && (i == 0 <==> cur == [])
      invariant cur == [] ==> blocks == []
      invariant Reports(blocks) && Opened(blocks, cur)
      invariant cur != [] ==> Rejoined(blocks, cur, lines[..i])
    {
      assert lines[..i + 1] == lines[..i] + [lines[i]];
      if cur == [] {
        FirstReport(lines[i]);
        assert lines[..i + 1] == [lines[0]];
        cur := [lines[i]];
      } else if Led(lines[i]) {
        CloseReport(blocks, cur, lines[..i], lines[i]);
        blocks := blocks + [Join(cur)];
        cur := [lines[i]];
      } else {
        LengthenReport(blocks, cur, lines[..i], lines[i]);
        cur := cur + [lines[i]];
      }
      i := i + 1;
    }
    assert lines[..i] == lines;
    LastReport(blocks, cur, lines);
    blocks := blocks + [Join(cur)];
  }

  predicate Rejoined(blocks: seq<string>, cur: seq<string>, lines: seq<string>) {
    Join(blocks + [Join(cur)]) == Join(lines)
  }

  lemma NoReports()
    ensures Reports([]) && Opened([], [])
  {
  }

  lemma FirstReport(line: string)
    requires OneLine(line)
    ensures Opened([], [line]) && Rejoined([], [line], [line])
  {
  }

  lemma CloseReport(blocks: seq<string>, cur: seq<string>, lines: seq<string>, line: string)
    requires cur != [] && lines != [] && Rejoined(blocks, cur, lines)
    requires Reports(blocks) && Opened(blocks, cur) && Led(line) && OneLine(line)
    ensures Rejoined(blocks + [Join(cur)], [line], lines + [line])
    ensures Reports(blocks + [Join(cur)]) && Opened(blocks + [Join(cur)], [line])
  {
    hide Led, Lines, OneLine;
    LinesOfJoin(cur);
    JoinApart(blocks + [Join(cur)], [line]);
    JoinApart(lines, [line]);
    assert Join([line]) == line;
    assert blocks + [Join(cur)] + [Join([line])] == blocks + [Join(cur)] + [line];
  }

  lemma LengthenReport(blocks: seq<string>, cur: seq<string>, lines: seq<string>, line: string)
    requires cur != [] && lines != [] && Rejoined(blocks, cur, lines)
    requires Opened(blocks, cur) && !Led(line) && OneLine(line)
    ensures Rejoined(blocks, cur + [line], lines + [line])
    ensures Opened(blocks, cur + [line])
  {
    hide Led, Lines, OneLine;
    JoinApart(cur, [line]);
    JoinApart(lines, [line]);
    assert Join([line]) == line;
    if blocks != [] {
      JoinApart(blocks, [Join(cur)]);
      JoinApart(blocks, [Join(cur + [line])]);
    }
  }

  lemma LastReport(blocks: seq<string>, cur: seq<string>, lines: seq<string>)
    requires cur != [] && Rejoined(blocks, cur, lines) && Reports(blocks) && Opened(blocks, cur)
    ensures Reports(blocks + [Join(cur)]) && Join(blocks + [Join(cur)]) == Join(lines)
  {
    hide Led, Lines, OneLine;
    LinesOfJoin(cur);
  }
}
