/** Where a transcript's turns are cut, and what splitting a turn does to the totals billed. */
module TrajectorySplit {
  import opened Trajectory

  // ---------------------------------------------------------------------------
  // Where turns are cut
  // ---------------------------------------------------------------------------

  /** How many assistant messages the turns before turn t hold. */
  function Bound(turns: seq<Turn>, t: nat): nat
    requires t <= |turns|
  {
    |Flatten(turns[..t])|
  }

  /** Turn t holds the r-th assistant message and every one after it up to the s-th. */
  predicate HoldsBoth(turns: seq<Turn>, t: nat, r: nat, s: nat) {
    t < |turns| && Bound(turns, t) <= r && s < Bound(turns, t + 1)
  }

  ghost predicate ShareATurn(turns: seq<Turn>, r: nat, s: nat) {
    exists t: nat :: HoldsBoth(turns, t, r, s)
  }

  /** The place of message i among the assistant messages. */
  function Rank(messages: seq<Message>, i: nat): nat
    requires i <= |messages|
  {
    |Assistants(messages[..i])|
  }

  predicate NoUserWithin(messages: seq<Message>, i: nat, j: nat)
    requires i <= j <= |messages|
  {
    forall k :: i <= k < j ==> messages[k].assistant
  }

  lemma BoundMore(turns: seq<Turn>, open: Turn, t: nat)
    requires t <= |turns| + 1
    ensures Bound(turns + [open], t) == if t <= |turns| then Bound(turns, t) else |Flatten(turns)| + |open|
  {
    FlattenMore(turns, open);
    if t <= |turns| {
      assert (turns + [open])[..t] == turns[..t];
    } else {
      assert (turns + [open])[..t] == turns + [open];
    }
  }

  lemma ShareMore(turns: seq<Turn>, open: Turn, r: nat, s: nat)
    ensures ShareATurn(turns + [open], r, s)
            <==> ShareATurn(turns, r, s) || (|Flatten(turns)| <= r && s < |Flatten(turns)| + |open|)
  {
    hide HoldsBoth;
    if ShareATurn(turns, r, s) {
      var t: nat :| HoldsBoth(turns, t, r, s);
      HoldsMore(turns, open, t, r, s);
    }
    if ShareATurn(turns + [open], r, s) {
      var t: nat :| HoldsBoth(turns + [open], t, r, s);
      HoldsMore(turns, open, t, r, s);
    }
    HoldsMore(turns, open, |turns|, r, s);
  }

  lemma HoldsMore(turns: seq<Turn>, open: Turn, t: nat, r: nat, s: nat)
    ensures HoldsBoth(turns + [open], t, r, s) <==>
              if t < |turns| then HoldsBoth(turns, t, r, s)
              else t == |turns| && |Flatten(turns)| <= r && s < |Flatten(turns)| + |open|
    ensures HoldsBoth(turns, t, r, s) ==> t < |turns|
  {
    if t <= |turns| {
      BoundMore(turns, open, t);
      BoundMore(turns, open, t + 1);
      assert turns[..|turns|] == turns;
      assert Bound(turns, |turns|) == |Flatten(turns)|;
      hide Bound, Flatten;
    }
  }

  lemma {:induction false} BoundRises(turns: seq<Turn>, t: nat)
    requires t <= |turns|
    ensures Bound(turns, t) <= |Flatten(turns)|
    decreases |turns|
  {
    var n := |turns|;
    if t < n {
      BoundRises(turns[..n - 1], t);
      assert turns[..n - 1][..t] == turns[..t];
    } else {
      assert turns[..n] == turns;
    }
  }

  lemma SharedIsClosed(turns: seq<Turn>, r: nat, s: nat)
    requires ShareATurn(turns, r, s)
    ensures s < |Flatten(turns)|
  {
    var t: nat :| HoldsBoth(turns, t, r, s);
    BoundRises(turns, t + 1);
  }

  lemma {:induction false} RankRises(messages: seq<Message>, i: nat)
    requires i < |messages| && messages[i].assistant
    ensures Rank(messages, i) < |Assistants(messages)|
    decreases |messages|
  {
    var n := |messages| - 1;
    if i < n {
      RankRises(messages[..n], i);
      assert messages[..n][..i] == messages[..i];
    }
  }

  /** The closed turns and the open one, over messages up to the end: a message is in the open turn exactly when no
      user message came after it, and two share a turn exactly when none came between them. */
  lemma {:induction false} SplitShares(messages: seq<Message>, i: nat, j: nat)
    requires i < j < |messages| && messages[i].assistant && messages[j].assistant
    ensures var (closed, open) := Split(messages);
            ShareATurn(closed + [open], Rank(messages, i), Rank(messages, j)) <==> NoUserWithin(messages, i, j)
    decreases |messages|
  {
    var n := |messages| - 1;
    var front, last := messages[..n], messages[n];
    var (closed, open) := Split(front);
    var (closed', open') := Split(messages);
    var r, s := Rank(messages, i), Rank(messages, j);
    SplitHoldsAssistants(front);
    assert front[..i] == messages[..i];
    SplitOpen(front, i);
    RankRises(front, i);
    ShareMore(closed, open, r, s);
    ShareMore(closed', open', r, s);
    if j < n {
      SplitShares(front, i, j);
      assert front[..j] == messages[..j];
      RankRises(front, j);
      assert NoUserWithin(front, i, j) <==> NoUserWithin(messages, i, j);
      if !last.assistant && open != [] {
        FlattenMore(closed, open);
      }
    } else {
      assert messages[..j] == front && s == |Flatten(closed)| + |open|;
      if ShareATurn(closed, r, s) {
        SharedIsClosed(closed, r, s);
      }
      assert NoUserWithin(front, i, n) <==> NoUserWithin(messages, i, j);
    }
  }

  /** A message is in the open turn exactly when no user message came after it. */
  lemma {:induction false} SplitOpen(messages: seq<Message>, i: nat)
    requires i < |messages| && messages[i].assistant
    ensures |Flatten(Split(messages).0)| <= Rank(messages, i) <==> NoUserWithin(messages, i, |messages|)
    decreases |messages|
  {
    var n := |messages| - 1;
    var front, last := messages[..n], messages[n];
    var (closed, open) := Split(front);
    SplitHoldsAssistants(front);
    if i < n {
      SplitOpen(front, i);
      assert front[..i] == messages[..i];
      assert NoUserWithin(messages, i, n + 1) <==> NoUserWithin(front, i, n) && last.assistant;
      RankRises(front, i);
      if !last.assistant && open != [] {
        FlattenMore(closed, open);
      }
    }
  }

  /** Two assistant messages share a turn exactly when no user message lies between them. */
  lemma TurnsAreCutAtUsers(messages: seq<Message>, i: nat, j: nat)
    requires i < j < |messages| && messages[i].assistant && messages[j].assistant
    ensures ShareATurn(TurnsOf(messages), Rank(messages, i), Rank(messages, j)) <==> NoUserWithin(messages, i, j)
  {
    SplitShares(messages, i, j);
    var (closed, open) := Split(messages);
    ShareMore(closed, open, Rank(messages, i), Rank(messages, j));
    if open == [] && ShareATurn(closed, Rank(messages, i), Rank(messages, j)) {
      SharedIsClosed(closed, Rank(messages, i), Rank(messages, j));
    }
    RankOrder(messages, i, j);
  }

  lemma {:induction false} RankOrder(messages: seq<Message>, i: nat, j: nat)
    requires i < j < |messages| && messages[i].assistant
    ensures Rank(messages, i) < Rank(messages, j)
  {
    assert messages[..j][..i] == messages[..i];
    RankRises(messages[..j], i);
  }

  // ---------------------------------------------------------------------------
  // What splitting a turn does to the totals
  // ---------------------------------------------------------------------------

  /** compute's totals: every billed prompt added up, and every billed output. */
  function Total(bills: seq<Bill>): Bill {
    if bills == [] then Bill(0, 0)
    else
      Plus(Total(bills[..|bills| - 1]), bills[|bills| - 1])
  }

  function Plus(a: Bill, b: Bill): Bill {
    Bill(a.prompt + b.prompt, a.output + b.output)
  }

  function Totals(messages: seq<Message>): Bill {
    Total(Billed(TurnsOf(messages)))
  }

  lemma {:induction false} TotalApart(a: seq<Bill>, b: seq<Bill>)
    ensures Total(a + b) == Plus(Total(a), Total(b))
    decreases |b|
  {
    if b == [] {
      assert a + b == a;
    } else {
      TotalApart(a, b[..|b| - 1]);
      assert (a + b)[..|a + b| - 1] == a + b[..|b| - 1];
    }
  }

  /** The bills of later turns, the messages of earlier ones given. */
  function BilledAfter(before: seq<Message>, turns: seq<Turn>): seq<Bill> {
    if turns == [] then []
    else
      var front, last := turns[..|turns| - 1], turns[|turns| - 1];
      BilledAfter(before, front) + TurnBills(before + Flatten(front), last)
  }

  lemma {:induction false} FlattenApart(a: seq<Turn>, b: seq<Turn>)
    ensures Flatten(a + b) == Flatten(a) + Flatten(b)
    decreases |b|
  {
    if b == [] {
      assert a + b == a;
    } else {
      FlattenApart(a, b[..|b| - 1]);
      assert (a + b)[..|a + b| - 1] == a + b[..|b| - 1];
    }
  }

  lemma {:induction false} BilledApart(a: seq<Turn>, b: seq<Turn>)
    ensures Billed(a + b) == Billed(a) + BilledAfter(Flatten(a), b)
    decreases |b|
  {
    if b == [] {
      assert a + b == a;
    } else {
      var front, last := b[..|b| - 1], b[|b| - 1];
      BilledApart(a, front);
      FlattenApart(a, front);
      assert (a + b)[..|a + b| - 1] == a + front;
      hide TurnBills, Flatten;
    }
  }

  lemma {:induction false} NewCallsApart(before: seq<Message>, x: Turn, y: Turn)
    ensures NewCalls(before, x + y) == NewCalls(before, x) + NewCalls(before + x, y)
    decreases |y|
  {
    if y == [] {
      assert x + y == x;
    } else {
      var n := |y| - 1;
      NewCallsApart(before, x, y[..n]);
      assert (x + y)[..|x + y| - 1] == x + y[..n] && before + (x + y[..n]) == before + x + y[..n];
    }
  }

  lemma {:induction false} IdlessApart(x: Turn, y: Turn)
    ensures Idless(x + y) ==
              Bill(Larger(Idless(x).prompt, Idless(y).prompt), Larger(Idless(x).output, Idless(y).output))
    decreases |y|
  {
    if y == [] {
      assert x + y == x;
    } else {
      IdlessApart(x, y[..|y| - 1]);
      assert (x + y)[..|x + y| - 1] == x + y[..|y| - 1];
    }
  }

  lemma TurnTotal(before: seq<Message>, turn: Turn)
    ensures Total(TurnBills(before, turn)) == Plus(Total(NewCalls(before, turn)), Idless(turn))
  {
    var idless := Idless(turn);
    var more := if idless == Bill(0, 0) then [] else [idless];
    TotalOne(idless);
    hide NewCalls, Idless, Total;
    NothingTotalled();
    TotalApart(NewCalls(before, turn), more);
  }

  lemma TotalOne(bill: Bill)
    ensures Total([bill]) == bill
  {
    assert [bill][..0] == [];
  }

  lemma NothingTotalled()
    ensures Total([]) == Bill(0, 0)
  {
  }

  /** The two halves of a turn do not both bill prompts, nor both bill outputs, without a call's id. */
  ghost predicate NeverBothIdless(x: Turn, y: Turn) {
    && (Idless(x).prompt == 0 || Idless(y).prompt == 0)
    && (Idless(x).output == 0 || Idless(y).output == 0)
  }

  lemma SplitTurnTotal(before: seq<Message>, x: Turn, y: Turn)
    ensures var whole := Total(TurnBills(before, x + y));
            var first, second := Total(TurnBills(before, x)), Total(TurnBills(before + x, y));
            && whole.prompt <= first.prompt + second.prompt && whole.output <= first.output + second.output
            && (whole == Plus(first, second) <==> NeverBothIdless(x, y))
  {
    hide TurnBills, NewCalls, Idless, Total;
    TurnTotal(before, x + y);
    TurnTotal(before, x);
    TurnTotal(before + x, y);
    NewCallsApart(before, x, y);
    TotalApart(NewCalls(before, x), NewCalls(before + x, y));
    IdlessApart(x, y);
  }

  /** The assistant messages a transcript begins with. */
  function Lead(messages: seq<Message>): Turn {
    if messages == [] || !messages[0].assistant then [] else [messages[0]] + Lead(messages[1..])
  }

  lemma {:induction false} LeadIsAPrefix(messages: seq<Message>)
    ensures Lead(messages) <= messages && forall m :: m in Lead(messages) ==> m.assistant
    ensures |Lead(messages)| < |messages| ==> !messages[|Lead(messages)|].assistant
  {
    if messages != [] && messages[0].assistant {
      LeadIsAPrefix(messages[1..]);
    }
  }

  function OpenTurn(open: Turn): seq<Turn> {
    if open == [] then [] else [open]
  }

  lemma SplitNext(front: seq<Message>, last: Message)
    ensures var (closed, open) := Split(front);
            Split(front + [last]) == if last.assistant then (closed, open + [last])
                                     else if open != [] then (closed + [open], []) else (closed, open)
  {
    assert (front + [last])[..|front|] == front;
  }

  /** Assistant messages go on the open turn. */
  lemma {:induction false} SplitLonger(a: seq<Message>, y: Turn)
    requires forall m :: m in y ==> m.assistant
    ensures Split(a + y) == (Split(a).0, Split(a).1 + y)
    decreases |y|
  {
    if y == [] {
      assert a + y == a && Split(a).1 + y == Split(a).1;
    } else {
      var n := |y| - 1;
      SplitLonger(a, y[..n]);
      SplitNext(a + y[..n], y[n]);
      assert a + y[..n] + [y[n]] == a + y && y[n] in y;
      assert Split(a).1 + y[..n] + [y[n]] == Split(a).1 + y;
    }
  }

  /** A user message closes the turn before it, and what follows splits by itself. */
  lemma {:induction false} SplitAtUser(a: seq<Message>, r: seq<Message>)
    requires r != [] && !r[0].assistant
    ensures Split(a + r) == (TurnsOf(a) + Split(r).0, Split(r).1)
    decreases |r|
  {
    var n := |r| - 1;
    var front, last := r[..n], r[n];
    assert a + front + [last] == a + r && front + [last] == r;
    SplitNext(a + front, last);
    SplitNext(front, last);
    hide Split;
    if n == 0 {
      assert a + front == a && front == [] && r == [last];
      SplitNothing();
      assert TurnsOf(a) + [] == TurnsOf(a);
    } else {
      SplitAtUser(a, front);
      var (closed, open) := Split(front);
      assert TurnsOf(a) + (closed + [open]) == TurnsOf(a) + closed + [open];
    }
  }

  lemma SplitNothing()
    ensures Split([]) == ([], [])
  {
  }

  lemma TurnsAtUser(a: seq<Message>, r: seq<Message>)
    requires r == [] || !r[0].assistant
    ensures TurnsOf(a + r) == TurnsOf(a) + TurnsOf(r)
  {
    if r == [] {
      assert a + r == a;
    } else {
      SplitAtUser(a, r);
    }
  }

  /** The turns with and without a user message between a and b: only the turn it falls in differs. */
  lemma TurnsAround(a: seq<Message>, user: Message, b: seq<Message>) returns (rest: seq<Turn>)
    requires !user.assistant
    ensures var (closed, x) := Split(a);
            && TurnsOf(a + b) == closed + OpenTurn(x + Lead(b)) + rest
            && TurnsOf(a + [user] + b) == closed + OpenTurn(x) + OpenTurn(Lead(b)) + rest
  {
    hide Split, TurnsOf, Lead, OpenTurn;
    LeadIsAPrefix(b);
    var (closed, x) := Split(a);
    var y := Lead(b);
    var r := b[|y|..];
    assert b == y + r;
    rest := TurnsOf(r);
    assert a + b == a + y + r && a + [user] + b == a + ([user] + y) + r;
    SplitLonger(a, y);
    TurnsAtUser(a + y, r);
    TurnsAtUser(a + ([user] + y), r);
    TurnsAtUser(a, [user] + y);
    SplitLonger([user], y);
    SplitOne(user);
    assert [] + y == y;
    TurnsAreSplit(a);
    TurnsAreSplit(a + y);
    TurnsAreSplit([user] + y);
    assert [] + OpenTurn(y) == OpenTurn(y);
  }

  lemma SplitOne(user: Message)
    requires !user.assistant
    ensures Split([user]) == ([], [])
  {
    assert [user][..0] == [];
  }

  lemma TurnsAreSplit(messages: seq<Message>)
    ensures TurnsOf(messages) == Split(messages).0 + OpenTurn(Split(messages).1)
  {
  }

  lemma OpenBilled(closed: seq<Turn>, x: Turn)
    ensures Billed(closed + OpenTurn(x)) == Billed(closed) + TurnBills(Flatten(closed), x)
    ensures Flatten(closed + OpenTurn(x)) == Flatten(closed) + x
  {
    if x != [] {
      assert (closed + [x])[..|closed|] == closed;
    } else {
      assert closed + OpenTurn(x) == closed && Flatten(closed) + x == Flatten(closed);
      assert TurnBills(Flatten(closed), x) == [];
    }
  }

  /** The bills of the turns around the one that is split are the same either way. */
  lemma SplitBilled(closed: seq<Turn>, x: Turn, y: Turn, rest: seq<Turn>) returns (others: Bill)
    ensures var f := Flatten(closed);
            && Total(Billed(closed + OpenTurn(x + y) + rest)) == Plus(others, Total(TurnBills(f, x + y)))
            && Total(Billed(closed + OpenTurn(x) + OpenTurn(y) + rest))
               == Plus(Plus(others, Total(TurnBills(f, x))), Total(TurnBills(f + x, y)))
  {
    hide Billed, Flatten, TurnBills, Total, BilledAfter, OpenTurn;
    var f := Flatten(closed);
    OpenBilled(closed, x + y);
    OpenBilled(closed, x);
    OpenBilled(closed + OpenTurn(x), y);
    assert f + (x + y) == f + x + y;
    BilledApart(closed + OpenTurn(x + y), rest);
    BilledApart(closed + OpenTurn(x) + OpenTurn(y), rest);
    var later := BilledAfter(f + x + y, rest);
    TotalApart(Billed(closed) + TurnBills(f, x + y), later);
    TotalApart(Billed(closed), TurnBills(f, x + y));
    TotalApart(Billed(closed) + TurnBills(f, x) + TurnBills(f + x, y), later);
    TotalApart(Billed(closed) + TurnBills(f, x), TurnBills(f + x, y));
    TotalApart(Billed(closed), TurnBills(f, x));
    others := Plus(Total(Billed(closed)), Total(later));
  }

  /** A user message that lands between a and b never lowers the totals, and leaves them as they are exactly when
      the halves of the turn it splits do not both bill prompts, nor both bill outputs, without a call's id. */
  lemma SplittingATurnKeepsTheTotals(a: seq<Message>, user: Message, b: seq<Message>)
    requires !user.assistant
    ensures var whole, cut := Totals(a + b), Totals(a + [user] + b);
            && whole.prompt <= cut.prompt && whole.output <= cut.output
            && (whole == cut <==> NeverBothIdless(Split(a).1, Lead(b)))
  {
    hide Split, Lead, TurnsOf, Billed, Flatten, TurnBills, Idless, Total, OpenTurn, NeverBothIdless;
    var (closed, x) := Split(a);
    var y := Lead(b);
    var rest := TurnsAround(a, user, b);
    var others := SplitBilled(closed, x, y, rest);
    SplitTurnTotal(Flatten(closed), x, y);
  }
}
