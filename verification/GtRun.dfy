/** gt's output with its standing noise filtered out: the streaming filter of a run the user watches,
    and the whole-text filter of one that is buffered. */
module GtRun {
  import opened Wrappers
  import opened GtLines
  import opened Picks

  const ERROR_PREFIX := "ERROR: "
  const WARNING_PREFIX := "WARNING: "
  const TIP_PREFIX := "tip: "
  const DIVERGED := "The following branches have diverged from Graphite's tracking:"
  const DIVERGED_BULLET := "\U{25B8} "
  const DIVERGED_CAUSE :=
    "This can happen when a Git command run outside of Graphite changes the commit history " + "of a branch."
  const DIVERGED_TRACK := "You can use gt track <branch> to remediate a diverged branch."
  const DIVERGED_UNTRACK := "To silence reminders about a diverged branch, untrack it with gt untrack <branch>."

  function CutPrefix(s: string, prefix: string): Option<string> {
    if prefix <= s then Some(s[|prefix|..]) else None
  }

  /** gtSeverityBody: what follows a severity prefix. */
  function SeverityBody(line: string): Option<string> {
    var body := CutPrefix(line, ERROR_PREFIX);
    if body.Some? then body else CutPrefix(line, WARNING_PREFIX)
  }

  predicate Led(line: string) { SeverityBody(line).Some? }

  predicate Detail(body: string) {
    DIVERGED_BULLET <= body || body == DIVERGED_CAUSE || body == DIVERGED_TRACK || body == DIVERGED_UNTRACK
  }

  predicate Opens(line: string) { SeverityBody(line) == Some(DIVERGED) }

  predicate Continues(line: string) { SeverityBody(line).Some? && Detail(SeverityBody(line).value) }

  /** The severities, the line that opens a reminder, and its details, word for word. */
  lemma ReminderWords(line: string)
    ensures Led(line) <==> "ERROR: " <= line || "WARNING: " <= line
    ensures var words := "The following branches have diverged from Graphite's tracking:";
            Opens(line) <==> line == "ERROR: " + words || line == "WARNING: " + words
    ensures Continues(line) <==>
              exists body :: (line == "ERROR: " + body || line == "WARNING: " + body)
                && (|| "\U{25B8} " <= body
                    || body == "This can happen when a Git command run outside of Graphite changes the commit history "
                               + "of a branch."
                    || body == "You can use gt track <branch> to remediate a diverged branch."
                    || body == "To silence reminders about a diverged branch, untrack it with gt untrack <branch>.")
  {
    SeverityIs(line);
    hide SeverityBody;
  }

  lemma SeverityIs(line: string)
    ensures forall body :: SeverityBody(line) == Some(body) <==> line == "ERROR: " + body || line == "WARNING: " + body
    ensures SeverityBody(line).Some? <==> "ERROR: " <= line || "WARNING: " <= line
  {
    if "ERROR: " <= line {
      assert line == "ERROR: " + line[|"ERROR: "|..];
      assert line[0] == 'E';
    }
    if "WARNING: " <= line {
      assert line == "WARNING: " + line[|"WARNING: "|..];
      assert line[0] == 'W';
    }
    forall body ensures SeverityBody(line) == Some(body) <==> line == "ERROR: " + body || line == "WARNING: " + body {
      if line == "ERROR: " + body {
        assert "ERROR: " <= line && line[|"ERROR: "|..] == body;
      }
      if line == "WARNING: " + body {
        assert "WARNING: " <= line && line[|"WARNING: "|..] == body;
      }
    }
  }

  /** Line i belongs to the divergence reminder: a line opens it, and every line since is another
      opening or one of its details. */
  predicate InReminder(lines: seq<string>, i: nat)
    requires i < |lines|
  {
    exists j :: 0 <= j <= i && Opens(lines[j]) && forall k :: j < k <= i ==> Opens(lines[k]) || Continues(lines[k])
  }

  /** The lines outside the reminder, each with its newline. */
  function Emitted(lines: seq<string>): string {
    if lines == [] then ""
    else
      var n := |lines| - 1;
      Emitted(lines[..n]) + if InReminder(lines, n) then "" else lines[n] + "\n"
  }

  /** What the reminder filter keeps of a whole text, whose last line has no newline. */
  function Filtered(text: string): string {
    var lines := Lines(text);
    var n := |lines| - 1;
    Emitted(lines[..n]) + if lines[n] == "" || InReminder(lines, n) then "" else lines[n]
  }

  ghost function OutsideReminder(lines: seq<string>): nat -> bool {
    (k: nat) => k < |lines| && !InReminder(lines, k)
  }

  ghost function LineOf(lines: seq<string>): nat -> string { (k: nat) => if k < |lines| then lines[k] else "" }

  /** A line more joined on after others, or by itself. */
  lemma JoinOneMore(kept: seq<string>, line: string)
    ensures Join(kept + [line]) == if kept == [] then line else Join(kept) + "\n" + line
  {
    if kept != [] {
      JoinApart(kept, [line]);
    } else {
      assert kept + [line] == [line];
    }
  }

  lemma {:induction false} EmittedIs(lines: seq<string>, n: nat) returns (at: seq<nat>, kept: seq<string>)
    requires n <= |lines|
    ensures Picked(n, OutsideReminder(lines), at) && Along(LineOf(lines), at, kept)
    ensures Emitted(lines[..n]) == if kept == [] then "" else Join(kept) + "\n"
  {
    hide InReminder, Picked, Along, Join, Emitted;
    at, kept := [], [];
    NothingJoined();
    NothingPicked(OutsideReminder(lines), LineOf(lines));
    NothingEmitted(lines);
    if n > 0 {
      var k := n - 1;
      at, kept := EmittedIs(lines, k);
      NextLine(lines, k);
      PickedOneMore(k, OutsideReminder(lines), at);
      AlongOneMore(LineOf(lines), at, kept, k);
      JoinOneMore(kept, lines[k]);
      if !InReminder(lines, k) {
        at, kept := at + [k], kept + [lines[k]];
      }
    }
  }

  lemma NothingEmitted(lines: seq<string>)
    ensures Emitted(lines[..0]) == ""
  {
  }

  /** What the reminder filter keeps of a text: its lines outside the reminder, each where it was and on a line of
      its own, the last one as it ends. */
  lemma FilteredIs(text: string) returns (at: seq<nat>, kept: seq<string>)
    ensures var lines := Lines(text);
            && Picked(|lines|, OutsideReminder(lines), at) && Along(LineOf(lines), at, kept)
            && Filtered(text) == Join(kept) + if kept != [] && |lines| - 1 !in at then "\n" else ""
  {
    hide InReminder, Picked, Along, Join, Lines, Emitted;
    var lines := Lines(text);
    var n := |lines| - 1;
    at, kept := EmittedIs(lines, n);
    NothingOpensEmpty(lines, n);
    NothingJoined();
    NotYet(n, OutsideReminder(lines), at);
    PickedOneMore(n, OutsideReminder(lines), at);
    AlongOneMore(LineOf(lines), at, kept, n);
    JoinOneMore(kept, lines[n]);
    if !InReminder(lines, n) {
      at, kept := at + [n], kept + [lines[n]];
    }
  }

  lemma NotYet(n: nat, keep: nat -> bool, at: seq<nat>)
    requires Picked(n, keep, at)
    ensures n !in at
  {
  }

  lemma NothingJoined()
    ensures Join([]) == ""
  {
  }

  lemma NothingOpensEmpty(lines: seq<string>, i: nat)
    requires i < |lines|
    ensures lines[i] == "" ==> !InReminder(lines, i)
  {
  }

  /** Whether the line after these would continue a reminder. */
  predicate Inside(lines: seq<string>) {
    lines != [] && InReminder(lines, |lines| - 1)
  }

  /** A reminder is decided by the line before: it goes on while its details do. */
  lemma ReminderGoesOn(lines: seq<string>, i: nat)
    requires i < |lines|
    ensures InReminder(lines, i) <==> Opens(lines[i]) || (Inside(lines[..i]) && Continues(lines[i]))
  {
  }

  lemma ReminderIsLocal(lines: seq<string>, n: nat, i: nat)
    requires i < n <= |lines|
    ensures InReminder(lines[..n], i) == InReminder(lines, i)
  {
  }

  // ---------------------------------------------------------------------------
  // The streaming filter
  // ---------------------------------------------------------------------------

  /** gtDivergence. */
  class Divergence {
    var inside: bool

    constructor ()
      ensures !inside
    {
      inside := false;
    }

    /** The next line after a run of lines is dropped exactly when it belongs to the reminder. */
    method Drop(line: string, ghost before: seq<string>) returns (dropped: bool)
      requires inside == Inside(before)
      modifies this
      ensures dropped == InReminder(before + [line], |before|)
      ensures inside == Inside(before + [line])
    {
      assert (before + [line])[..|before|] == before;
      ReminderGoesOn(before + [line], |before|);
      var body := SeverityBody(line);
      if body.None? {
        inside := false;
        return false;
      }
      if body.value == DIVERGED {
        inside := true;
        return true;
      }
      if inside && Detail(body.value) {
        return true;
      }
      inside := false;
      return false;
    }
  }

  /** gtQuietWriter, over a sink whose n-th write may be refused. seen is everything written so far. */
  class QuietWriter {
    const diverged: Divergence
    const accepts: nat -> bool
    var buf: string
    var out: string
    var writes: nat
    ghost var seen: string

    ghost predicate Valid()
      reads this, diverged
    {
      var lines := Lines(seen);
      var n := |lines| - 1;
      buf == lines[n] && out == Emitted(lines[..n]) && diverged.inside == Inside(lines[..n])
    }

    constructor (accepts: nat -> bool)
      ensures Valid() && fresh(diverged) && seen == "" && out == "" && this.accepts == accepts
    {
      diverged := new Divergence();
      this.accepts := accepts;
      buf, out, writes, seen := "", "", 0, "";
    }

    method Emit(s: string) returns (ok: bool)
      modifies this`out, this`writes
      ensures out == if ok then old(out) + s else old(out)
      ensures ok == accepts(old(writes)) && writes == old(writes) + 1
    {
      ok := accepts(writes);
      writes := writes + 1;
      if ok {
        out := out + s;
      }
    }

    /** However the text is cut into writes, the output is what the filter keeps of its whole lines. A
        refused write stops it after the lines before the refused one. */
    method Write(p: string) returns (ok: bool)
      requires Valid()
      modifies this, diverged
      ensures seen == old(seen) + p
      ensures ok ==> Valid()
      ensures !ok ==> exists n :: old(writes) <= n < writes && !accepts(n)
      ensures !ok ==> StoppedAt(Lines(seen), out)
    {
      hide InReminder, Lines, Emitted;
      LinesOfMore(seen, p);
      buf := buf + p;
      seen := seen + p;
      ghost var lines := Lines(seen);
      ghost var k := |Lines(old(seen))| - 1;
      assert lines[..k] == Lines(old(seen))[..k];
      while true
        invariant k < |lines| && seen == old(seen) + p && lines == Lines(seen) && old(writes) <= writes
        invariant lines[k..] == Lines(buf)
        invariant out == Emitted(lines[..k]) && diverged.inside == Inside(lines[..k])
        decreases |buf|
      {
        var i := Newline(buf);
        FirstLine(buf);
        if i == |buf| {
          assert |lines[k..]| == 1;
          return true;
        }
        var line := buf[..i];
        buf := buf[i + 1..];
        assert lines[k] == lines[k..][0];
        NextLine(lines, k);
        var dropped := diverged.Drop(line, lines[..k]);
        k := k + 1;
        if dropped {
          continue;
        }
        ok := Emit(line + "\n");
        if !ok {
          assert StoppedAfter(lines, k - 1, out);
          return;
        }
      }
    }

    /** Flush writes the trailing line: then all of the text has been filtered. */
    method Flush() returns (ok: bool)
      requires Valid()
      modifies this, diverged
      ensures buf == "" && seen == old(seen)
      ensures ok ==> out == Filtered(seen)
      ensures !ok ==> !accepts(old(writes)) && out == old(out)
    {
      ghost var lines := Lines(seen);
      ghost var n := |lines| - 1;
      var line := buf;
      buf := "";
      if line == "" {
        return true;
      }
      assert lines[..n] + [line] == lines;
      var dropped := diverged.Drop(line, lines[..n]);
      if dropped {
        return true;
      }
      ok := Emit(line);
    }
  }

  predicate StoppedAfter(lines: seq<string>, k: nat, out: string) {
    k < |lines| && out == Emitted(lines[..k]) && !InReminder(lines, k)
  }

  /** The output holds the kept lines up to one that was to be kept and was refused. */
  predicate StoppedAt(lines: seq<string>, out: string) {
    exists k :: 0 <= k < |lines| && StoppedAfter(lines, k, out)
  }

  lemma NextLine(lines: seq<string>, k: nat)
    requires k < |lines|
    ensures lines[..k + 1] == lines[..k] + [lines[k]] && lines[..k + 1][..k] == lines[..k]
    ensures InReminder(lines, k) == InReminder(lines[..k + 1], k)
    ensures lines[k + 1..] == lines[k..][1..]
    ensures Emitted(lines[..k + 1]) == Emitted(lines[..k]) + if InReminder(lines, k) then "" else lines[k] + "\n"
  {
    ReminderIsLocal(lines, k + 1, k);
    assert lines[..k + 1][..k] == lines[..k];
  }

  function Concat(chunks: seq<string>): string {
    if chunks == [] then "" else Concat(chunks[..|chunks| - 1]) + chunks[|chunks| - 1]
  }

  /** For every way of cutting a text into writes, the streaming filter and Flush emit exactly what the
      whole-text filter keeps. */
  method Stream(chunks: seq<string>, accepts: nat -> bool) returns (ok: bool, out: string)
    ensures ok ==> out == Filtered(Concat(chunks))
    ensures (forall n: nat :: accepts(n)) ==> ok
  {
    var w := new QuietWriter(accepts);
    var i := 0;
    while i < |chunks|
      invariant 0 <= i <= |chunks| && w.Valid() && fresh(w) && fresh(w.diverged) && w.accepts == accepts
      invariant w.seen == Concat(chunks[..i])
    {
      assert chunks[..i + 1][..i] == chunks[..i];
      ok := w.Write(chunks[i]);
      if !ok {
        return false, w.out;
      }
      i := i + 1;
    }
    assert chunks[..i] == chunks;
    ok := w.Flush();
    out := w.out;
  }
}
