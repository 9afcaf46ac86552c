/** Text as lines: strings.Split on newlines, strings.Join, and strings.TrimRight of newlines. */
module GtLines {
  import opened Text

  function Newline(s: string): nat { IndexOf(s, '\n') }

  function Lines(s: string): (ls: seq<string>)
    ensures ls != []
    decreases |s|
  {
    var i := Newline(s);
    if i == |s| then [s] else [s[..i]] + Lines(s[i + 1..])
  }

  lemma FirstLine(s: string)
    ensures Newline(s) <= |s|
    ensures Newline(s) == |s| ==> Lines(s) == [s]
    ensures Newline(s) < |s| ==> Lines(s)[0] == s[..Newline(s)] && Lines(s)[1..] == Lines(s[Newline(s) + 1..])
    ensures Newline(s) < |s| ==> |Lines(s)| > 1
  {
  }

  function Join(ls: seq<string>): string {
    if ls == [] then "" else if |ls| == 1 then ls[0] else ls[0] + "\n" + Join(ls[1..])
  }

  function TrimNewlines(s: string): (t: string)
    ensures t <= s && (t == "" || t[|t| - 1] != '\n')
    ensures forall i :: |t| <= i < |s| ==> s[i] == '\n'
  {
    if s != "" && s[|s| - 1] == '\n' then TrimNewlines(s[..|s| - 1]) else s
  }

  predicate OneLine(line: string) { '\n' !in line }

  lemma {:induction false} LinesHoldNoNewline(s: string)
    ensures forall line :: line in Lines(s) ==> OneLine(line)
    decreases |s|
  {
    var i := Newline(s);
    if i < |s| {
      LinesHoldNoNewline(s[i + 1..]);
    }
  }

  lemma {:induction false} JoinOfLines(s: string)
    ensures Join(Lines(s)) == s
    decreases |s|
  {
    var i := Newline(s);
    FirstLine(s);
    hide Lines, IndexOf;
    if i < |s| {
      JoinOfLines(s[i + 1..]);
      assert s == s[..i] + "\n" + s[i + 1..];
    }
  }

  lemma {:induction false} LinesOfJoin(ls: seq<string>)
    requires ls != [] && forall line :: line in ls ==> OneLine(line)
    ensures Lines(Join(ls)) == ls
  {
    assert OneLine(ls[0]);
    if |ls| == 1 {
      IndexIs(ls[0], '\n', |ls[0]|);
    } else {
      var s := Join(ls);
      assert s[..|ls[0]|] == ls[0];
      IndexIs(s, '\n', |ls[0]|);
      assert s[|ls[0]| + 1..] == Join(ls[1..]);
      LinesOfJoin(ls[1..]);
    }
  }

  lemma FirstLineOfMore(a: string, p: string)
    requires Newline(a) < |a|
    ensures Lines(a + p) == [a[..Newline(a)]] + Lines(a[Newline(a) + 1..] + p)
  {
    hide IndexOf;
    var i := Newline(a);
    IndexIs(a + p, '\n', i);
    assert (a + p)[..i] == a[..i] && (a + p)[i + 1..] == a[i + 1..] + p;
    FirstLine(a + p);
  }

  /** More text only continues the last line. */
  lemma {:induction false} LinesOfMore(a: string, p: string)
    ensures var n := |Lines(a)| - 1; Lines(a + p) == Lines(a)[..n] + Lines(Lines(a)[n] + p)
    decreases |a|
  {
    hide Lines, Newline, IndexOf;
    FirstLine(a);
    if Newline(a) < |a| {
      var rest := a[Newline(a) + 1..];
      FirstLineOfMore(a, p);
      LinesOfMore(rest, p);
      Prepend(a[..Newline(a)], Lines(a), Lines(rest));
    }
  }

  lemma Prepend(first: string, ls: seq<string>, rest: seq<string>)
    requires rest != [] && |ls| > 1 && ls[0] == first && ls[1..] == rest
    ensures |ls| == |rest| + 1 && ls[|ls| - 1] == rest[|rest| - 1]
    ensures ls[..|ls| - 1] == [first] + rest[..|rest| - 1]
  {
    assert ls == [first] + rest;
  }

  /** Joining two runs of lines. */
  lemma {:induction false} JoinApart(a: seq<string>, b: seq<string>)
    requires a != [] && b != []
    ensures Join(a + b) == Join(a) + "\n" + Join(b)
    decreases |a|
  {
    if |a| == 1 {
      assert (a + b)[1..] == b;
    } else {
      assert (a + b)[1..] == a[1..] + b;
      JoinApart(a[1..], b);
    }
  }

  /** A text ending in a line that is not empty loses only the newline after it. */
  lemma TrimEndsOnLine(s: string)
    requires s != "" && s[|s| - 1] != '\n'
    ensures TrimNewlines(s + "\n") == s
  {
    assert (s + "\n")[..|s|] == s;
  }

  lemma {:induction false} JoinEndsOnLine(ls: seq<string>)
    requires ls != [] && ls[|ls| - 1] != "" && OneLine(ls[|ls| - 1])
    ensures Join(ls) != "" && Join(ls)[|Join(ls)| - 1] != '\n'
  {
    if |ls| > 1 {
      JoinEndsOnLine(ls[1..]);
    }
  }
}
