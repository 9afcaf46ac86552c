/** Turns of a saved transcript, what they are billed, and the largest prompt of any turn. */
module Trajectory {
  import opened Wrappers

  /** One message; id names the API call an assistant message is a fragment of. */
  datatype Message = Message(assistant: bool, id: Option<string>, prompt: nat, output: nat)

  type Turn = seq<Message>

  datatype Bill = Bill(prompt: nat, output: nat)

  function Larger(a: nat, b: nat): nat { if a < b then b else a }

  function Assistants(messages: seq<Message>): seq<Message> {
    if messages == [] then []
    else
      var front, last := messages[..|messages| - 1], messages[|messages| - 1];
      Assistants(front) + if last.assistant then [last] else []
  }

  function Flatten(turns: seq<Turn>): seq<Message> {
    if turns == [] then [] else Flatten(turns[..|turns| - 1]) + turns[|turns| - 1]
  }

  /** The turns a user message has closed, and the one still open. */
  function Split(messages: seq<Message>): (seq<Turn>, Turn) {
    if messages == [] then ([], [])
    else
      var last := messages[|messages| - 1];
      var (closed, open) := Split(messages[..|messages| - 1]);
      if last.assistant then (closed, open + [last])
      else if open != [] then (closed + [open], [])
      else (closed, open)
  }

  function TurnsOf(messages: seq<Message>): seq<Turn> {
    var (closed, open) := Split(messages);
    if open == [] then closed else closed + [open]
  }

  /** _turns. */
  method Turns(messages: seq<Message>) returns (turns: seq<Turn>)
    ensures turns == TurnsOf(messages)
  {
    turns := [];
    var current: Turn := [];
    var i := 0;
    while i < |messages|
      invariant 0 <= i <= |messages| && Split(messages[..i]) == (turns, current)
    {
      assert messages[..i + 1][..i] == messages[..i];
      if messages[i].assistant {
        current := current + [messages[i]];
      } else if current != [] {
        turns := turns + [current];
        current := [];
      }
      i := i + 1;
    }
    assert messages[..i] == messages;
    if current != [] {
      turns := turns + [current];
    }
  }

  lemma FlattenMore(turns: seq<Turn>, turn: Turn)
    ensures Flatten(turns + [turn]) == Flatten(turns) + turn
  {
    assert (turns + [turn])[..|turns|] == turns;
  }

  lemma {:induction false} SplitHoldsAssistants(messages: seq<Message>)
    ensures var (closed, open) := Split(messages);
      && Flatten(closed) + open == Assistants(messages)
      && (forall turn :: turn in closed ==> turn != [])
    decreases |messages|
  {
    if messages != [] {
      var last := messages[|messages| - 1];
      SplitHoldsAssistants(messages[..|messages| - 1]);
      var (closed, open) := Split(messages[..|messages| - 1]);
      if !last.assistant && open != [] {
        FlattenMore(closed, open);
      }
    }
  }

  /** The turns hold every assistant message once, in order, and no turn is empty. */
  lemma TurnsHoldAssistants(messages: seq<Message>)
    ensures Flatten(TurnsOf(messages)) == Assistants(messages)
    ensures forall turn :: turn in TurnsOf(messages) ==> turn != []
  {
    SplitHoldsAssistants(messages);
    var (closed, open) := Split(messages);
    FlattenMore(closed, open);
  }

  // ---------------------------------------------------------------------------
  // Billing
  // ---------------------------------------------------------------------------

  predicate Named(messages: seq<Message>, id: string) {
    exists i :: 0 <= i < |messages| && messages[i].id == Some(id)
  }

  /** One bill for each call, from its first message. */
  function Calls(messages: seq<Message>): seq<Bill> {
    if messages == [] then []
    else
      var front, last := messages[..|messages| - 1], messages[|messages| - 1];
      Calls(front) + if last.id.Some? && !Named(front, last.id.value) then [Bill(last.prompt, last.output)] else []
  }

  /** The largest usage of a turn's messages without an id. */
  function Idless(turn: Turn): Bill {
    if turn == [] then Bill(0, 0)
    else
      var rest, last := Idless(turn[..|turn| - 1]), turn[|turn| - 1];
      if last.id.None? then Bill(Larger(rest.prompt, last.prompt), Larger(rest.output, last.output)) else rest
  }

  /** The bills of a turn, the calls of earlier messages already billed. */
  function TurnBills(before: seq<Message>, turn: Turn): seq<Bill> {
    NewCalls(before, turn) + if Idless(turn) == Bill(0, 0) then [] else [Idless(turn)]
  }

  function NewCalls(before: seq<Message>, turn: Turn): seq<Bill> {
    if turn == [] then []
    else
      var front, last := turn[..|turn| - 1], turn[|turn| - 1];
      NewCalls(before, front)
      + if last.id.Some? && !Named(before + front, last.id.value) then [Bill(last.prompt, last.output)] else []
  }

  function Billed(turns: seq<Turn>): seq<Bill> {
    if turns == [] then []
    else
      var front, last := turns[..|turns| - 1], turns[|turns| - 1];
      Billed(front) + TurnBills(Flatten(front), last)
  }

  lemma NamedMore(messages: seq<Message>, last: Message, id: string)
    ensures Named(messages + [last], id) <==> Named(messages, id) || last.id == Some(id)
  {
    var more := messages + [last];
    assert more[|messages|] == last && forall i :: 0 <= i < |messages| ==> more[i] == messages[i];
  }

  /** _billed. */
  method Bills(turns: seq<Turn>) returns (prompts: seq<nat>, outputs: seq<nat>)
    ensures |prompts| == |outputs| == |Billed(turns)|
    ensures forall i :: 0 <= i < |prompts| ==> Billed(turns)[i] == Bill(prompts[i], outputs[i])
  {
    var seen: set<string> := {};
    prompts, outputs := [], [];
    var t := 0;
    while t < |turns|
      invariant 0 <= t <= |turns|
      invariant forall id :: id in seen <==> Named(Flatten(turns[..t]), id)
      invariant Zipped(prompts, outputs, Billed(turns[..t]))
    {
      seen, prompts, outputs := BillTurn(Flatten(turns[..t]), Billed(turns[..t]), turns[t], seen, prompts, outputs);
      assert turns[..t + 1][..t] == turns[..t];
      t := t + 1;
    }
    assert turns[..t] == turns;
  }

  predicate Zipped(prompts: seq<nat>, outputs: seq<nat>, bills: seq<Bill>) {
    |prompts| == |outputs| == |bills| && forall i :: 0 <= i < |bills| ==> bills[i] == Bill(prompts[i], outputs[i])
  }

  /** The inner loop, over one turn. */
  method BillTurn(ghost before: seq<Message>, ghost bills: seq<Bill>, turn: Turn, seen: set<string>, prompts: seq<nat>,
                  outputs: seq<nat>)
    returns (seen': set<string>, prompts': seq<nat>, outputs': seq<nat>)
    requires forall id :: id in seen <==> Named(before, id)
    requires Zipped(prompts, outputs, bills)
    ensures forall id :: id in seen' <==> Named(before + turn, id)
    ensures Zipped(prompts', outputs', bills + TurnBills(before, turn))
  {
    hide Named;
    seen', prompts', outputs' := seen, prompts, outputs;
    var idlessPrompt: nat, idlessOutput: nat := 0, 0;
    var i := 0;
    assert before + turn[..0] == before;
    while i < |turn|
      invariant 0 <= i <= |turn|
      invariant forall id :: id in seen' <==> Named(before + turn[..i], id)
      invariant Zipped(prompts', outputs', bills + NewCalls(before, turn[..i]))
      invariant Idless(turn[..i]) == Bill(idlessPrompt, idlessOutput)
    {
      var msg := turn[i];
      assert turn[..i + 1][..i] == turn[..i] && before + turn[..i + 1] == before + turn[..i] + [msg];
      forall id ensures Named(before + turn[..i + 1], id) <==> Named(before + turn[..i], id) || msg.id == Some(id) {
        NamedMore(before + turn[..i], msg, id);
      }
      if msg.id.None? {
        idlessPrompt := Larger(idlessPrompt, msg.prompt);
        idlessOutput := Larger(idlessOutput, msg.output);
      } else if msg.id.value !in seen' {
        seen' := seen' + {msg.id.value};
        prompts' := prompts' + [msg.prompt];
        outputs' := outputs' + [msg.output];
      }
      i := i + 1;
    }
    assert turn[..i] == turn;
    if idlessPrompt != 0 || idlessOutput != 0 {
      prompts' := prompts' + [idlessPrompt];
      outputs' := outputs' + [idlessOutput];
    }
  }

  lemma {:induction false} NewCallsContinue(before: seq<Message>, turn: Turn)
    ensures Calls(before + turn) == Calls(before) + NewCalls(before, turn)
    decreases |turn|
  {
    if turn == [] {
      assert before + turn == before;
    } else {
      var n := |turn| - 1;
      NewCallsContinue(before, turn[..n]);
      assert (before + turn)[..|before + turn| - 1] == before + turn[..n];
    }
  }

  predicate AllNamed(messages: seq<Message>) {
    forall m :: m in messages ==> m.id.Some?
  }

  lemma {:induction false} NamedHasNoIdless(turn: Turn)
    requires AllNamed(turn)
    ensures Idless(turn) == Bill(0, 0)
    decreases |turn|
  {
    if turn != [] {
      NamedHasNoIdless(turn[..|turn| - 1]);
      assert turn[|turn| - 1] in turn;
    }
  }

  /** When every message names its call, the bills are one for each distinct call, in order of first
      appearance, however the messages fall into turns. */
  lemma {:induction false} EachCallIsBilledOnce(turns: seq<Turn>)
    requires AllNamed(Flatten(turns))
    ensures Billed(turns) == Calls(Flatten(turns))
    decreases |turns|
  {
    if turns != [] {
      var front, last := turns[..|turns| - 1], turns[|turns| - 1];
      assert forall m :: m in Flatten(front) || m in last ==> m in Flatten(turns);
      EachCallIsBilledOnce(front);
      NamedHasNoIdless(last);
      NewCallsContinue(Flatten(front), last);
    }
  }

  lemma {:induction false} AssistantsApart(a: seq<Message>, b: seq<Message>)
    ensures Assistants(a + b) == Assistants(a) + Assistants(b)
    decreases |b|
  {
    if b == [] {
      assert a + b == a;
    } else {
      AssistantsApart(a, b[..|b| - 1]);
      assert (a + b)[..|a + b| - 1] == a + b[..|b| - 1];
    }
  }

  lemma NoAssistant(user: Message)
    requires !user.assistant
    ensures Assistants([user]) == []
  {
    assert [user][..0] == [];
  }

  /** A tool result that lands inside a turn and splits it changes no bill. */
  lemma {:induction false} SplittingATurnBillsTheSame(a: seq<Message>, user: Message, b: seq<Message>)
    requires !user.assistant && AllNamed(Assistants(a + b))
    ensures Billed(TurnsOf(a + [user] + b)) == Billed(TurnsOf(a + b))
  {
    NoAssistant(user);
    hide Billed, TurnsOf, Assistants, Flatten, Calls;
    TurnsHoldAssistants(a + [user] + b);
    TurnsHoldAssistants(a + b);
    AssistantsApart(a + [user], b);
    AssistantsApart(a, [user]);
    AssistantsApart(a, b);
    assert Assistants(a) + [] == Assistants(a);
    EachCallIsBilledOnce(TurnsOf(a + [user] + b));
    EachCallIsBilledOnce(TurnsOf(a + b));
  }

  // ---------------------------------------------------------------------------
  // The high-water mark
  // ---------------------------------------------------------------------------

  function MaxPrompt(turn: Turn): nat {
    if turn == [] then 0 else Larger(MaxPrompt(turn[..|turn| - 1]), turn[|turn| - 1].prompt)
  }

  /** compute's peak: the first turn with the largest prompt, among turns that have one; None for a stub. */
  method Peak(turns: seq<Turn>) returns (peak: Option<nat>, highWater: nat)
    ensures highWater == MaxPrompt(Flatten(turns))
    ensures peak.None? <==> forall t :: 0 <= t < |turns| ==> MaxPrompt(turns[t]) == 0
    ensures peak.Some?
      ==> peak.value < |turns| && MaxPrompt(turns[peak.value]) == highWater > 0
          && forall t :: 0 <= t < peak.value ==> MaxPrompt(turns[t]) < highWater
  {
    hide MaxPrompt, Flatten;
    NoPrompt();
    peak, highWater := None, 0;
    var t := 0;
    while t < |turns|
      invariant 0 <= t <= |turns| && highWater == MaxPrompt(Flatten(turns[..t]))
      invariant forall k :: 0 <= k < t ==> MaxPrompt(turns[k]) <= highWater
      invariant peak.None? ==> highWater == 0
      invariant peak.Some? ==> peak.value < t && MaxPrompt(turns[peak.value]) == highWater > 0
      invariant peak.Some? ==> forall k :: 0 <= k < peak.value ==> MaxPrompt(turns[k]) < highWater
    {
      assert turns[..t + 1] == turns[..t] + [turns[t]];
      FlattenMore(turns[..t], turns[t]);
      MaxPromptApart(Flatten(turns[..t]), turns[t]);
      if MaxPrompt(turns[t]) > highWater {
        peak, highWater := Some(t), MaxPrompt(turns[t]);
      }
      t := t + 1;
    }
    assert turns[..t] == turns;
  }

  lemma NoPrompt()
    ensures Flatten([]) == [] && MaxPrompt([]) == 0
  {
  }

  lemma {:induction false} MaxPromptApart(a: seq<Message>, b: seq<Message>)
    ensures MaxPrompt(a + b) == Larger(MaxPrompt(a), MaxPrompt(b))
    decreases |b|
  {
    if b == [] {
      assert a + b == a;
    } else {
      MaxPromptApart(a, b[..|b| - 1]);
      assert (a + b)[..|a + b| - 1] == a + b[..|b| - 1];
    }
  }

  function MaxBill(bills: seq<Bill>): nat {
    if bills == [] then 0 else Larger(MaxBill(bills[..|bills| - 1]), bills[|bills| - 1].prompt)
  }

  lemma {:induction false} MaxBillApart(a: seq<Bill>, b: seq<Bill>)
    ensures MaxBill(a + b) == Larger(MaxBill(a), MaxBill(b))
    decreases |b|
  {
    if b == [] {
      assert a + b == a;
    } else {
      MaxBillApart(a, b[..|b| - 1]);
      assert (a + b)[..|a + b| - 1] == a + b[..|b| - 1];
    }
  }

  /** All messages of one call repeat one prompt. */
  predicate Repeats(messages: seq<Message>) {
    forall a, b :: a in messages && b in messages && a.id.Some? && a.id == b.id ==> a.prompt == b.prompt
  }

  lemma {:induction false} TurnMax(before: seq<Message>, turn: Turn)
    ensures MaxBill(TurnBills(before, turn)) == Larger(MaxBill(NewCalls(before, turn)), Idless(turn).prompt)
  {
    var bill := Idless(turn);
    MaxBillApart(NewCalls(before, turn), if bill == Bill(0, 0) then [] else [bill]);
    assert MaxBill([bill]) == bill.prompt by { assert [bill][..0] == []; }
  }

  /** Message i is billed: it names no call, or is the first to name its call. */
  predicate BilledAt(messages: seq<Message>, i: nat)
    requires i < |messages|
  {
    messages[i].id.None? || !Named(messages[..i], messages[i].id.value)
  }

  /** The largest prompt of a billed message. */
  function BilledMax(messages: seq<Message>): nat {
    if messages == [] then 0
    else
      var n := |messages| - 1;
      Larger(BilledMax(messages[..n]), if BilledAt(messages, n) then messages[n].prompt else 0)
  }

  lemma BilledMaxNext(messages: seq<Message>, last: Message)
    ensures BilledMax(messages + [last])
            == Larger(BilledMax(messages), if last.id.None? || !Named(messages, last.id.value) then last.prompt else 0)
  {
    assert (messages + [last])[..|messages|] == messages;
  }

  lemma {:induction false} TurnMaxNext(before: seq<Message>, front: Turn, last: Message)
    ensures var turn := front + [last];
      Larger(MaxBill(NewCalls(before, turn)), Idless(turn).prompt)
      == Larger(Larger(MaxBill(NewCalls(before, front)), Idless(front).prompt),
                if last.id.None? || !Named(before + front, last.id.value) then last.prompt else 0)
  {
    var turn := front + [last];
    assert turn[..|front|] == front;
    var bill := Bill(last.prompt, last.output);
    assert MaxBill([bill]) == bill.prompt by { assert [bill][..0] == []; }
    MaxBillApart(NewCalls(before, front), [bill]);
    assert NewCalls(before, front) + [] == NewCalls(before, front);
    hide MaxBill, Named;
  }

  lemma NothingAdds(before: seq<Message>)
    ensures MaxBill(NewCalls(before, [])) == 0 && Idless([]) == Bill(0, 0)
  {
  }

  /** What a turn adds to the largest bill is the largest prompt of its billed messages. */
  lemma {:induction false} TurnAdds(before: seq<Message>, turn: Turn)
    ensures BilledMax(before + turn) ==
              Larger(BilledMax(before), Larger(MaxBill(NewCalls(before, turn)), Idless(turn).prompt))
    decreases |turn|
  {
    hide BilledMax, MaxBill, NewCalls, Idless, Named;
    if turn == [] {
      assert before + turn == before;
      NothingAdds(before);
    } else {
      var n := |turn| - 1;
      var front, last := turn[..n], turn[n];
      TurnAdds(before, front);
      assert turn == front + [last] && before + turn == before + front + [last];
      BilledMaxNext(before + front, last);
      TurnMaxNext(before, front, last);
    }
  }

  lemma {:induction false} LargestBill(turns: seq<Turn>)
    ensures MaxBill(Billed(turns)) == BilledMax(Flatten(turns))
    decreases |turns|
  {
    if turns != [] {
      var front, last := turns[..|turns| - 1], turns[|turns| - 1];
      LargestBill(front);
      MaxBillApart(Billed(front), TurnBills(Flatten(front), last));
      TurnMax(Flatten(front), last);
      TurnAdds(Flatten(front), last);
    }
  }

  lemma {:induction false} BilledMaxBounds(messages: seq<Message>, i: nat)
    requires i < |messages|
    ensures messages[i].prompt <= MaxPrompt(messages)
    ensures BilledAt(messages, i) ==> messages[i].prompt <= BilledMax(messages)
    ensures BilledMax(messages) <= MaxPrompt(messages)
    decreases |messages|
  {
    var n := |messages| - 1;
    if i < n {
      BilledMaxBounds(messages[..n], i);
      assert messages[..n][..i] == messages[..i];
    } else if n > 0 {
      BilledMaxBounds(messages[..n], 0);
    }
  }

  lemma {:induction false} BilledMaxAttained(messages: seq<Message>) returns (i: nat)
    requires BilledMax(messages) > 0
    ensures i < |messages| && BilledAt(messages, i) && messages[i].prompt == BilledMax(messages)
    decreases |messages|
  {
    var n := |messages| - 1;
    if BilledAt(messages, n) && messages[n].prompt == BilledMax(messages) {
      i := n;
    } else {
      i := BilledMaxAttained(messages[..n]);
      assert messages[..n][..i] == messages[..i];
    }
  }

  lemma {:induction false} MaxPromptAttained(messages: seq<Message>) returns (i: nat)
    requires MaxPrompt(messages) > 0
    ensures i < |messages| && messages[i].prompt == MaxPrompt(messages)
    decreases |messages|
  {
    var n := |messages| - 1;
    if messages[n].prompt == MaxPrompt(messages) {
      i := n;
    } else {
      i := MaxPromptAttained(messages[..n]);
    }
  }

  /** Some billed message carries the largest prompt. */
  predicate MarkIsBilled(messages: seq<Message>) {
    exists i :: 0 <= i < |messages| && BilledAt(messages, i) && messages[i].prompt == MaxPrompt(messages)
  }

  lemma FirstOfCall(messages: seq<Message>, i: nat) returns (j: nat)
    requires i < |messages| && messages[i].id.Some?
    ensures j <= i && messages[j].id == messages[i].id && BilledAt(messages, j)
    decreases i
  {
    if Named(messages[..i], messages[i].id.value) {
      var k :| 0 <= k < i && messages[..i][k].id == messages[i].id;
      j := FirstOfCall(messages, k);
    } else {
      j := i;
    }
  }

  /** No bill passes the high-water mark, and the largest bill is the mark exactly when a message that
      carries it is billed; so it is when the messages of a call repeat one prompt. */
  lemma {:induction false} HighWaterIsTheLargestBill(turns: seq<Turn>)
    ensures MaxBill(Billed(turns)) <= MaxPrompt(Flatten(turns))
    ensures MaxBill(Billed(turns)) == MaxPrompt(Flatten(turns)) <==>
              MaxPrompt(Flatten(turns)) == 0 || MarkIsBilled(Flatten(turns))
    ensures Repeats(Flatten(turns)) ==> MaxBill(Billed(turns)) == MaxPrompt(Flatten(turns))
  {
    var flat := Flatten(turns);
    LargestBill(turns);
    hide Billed, Flatten, MaxBill, BilledAt, BilledMax, MaxPrompt;
    if flat != [] {
      BilledMaxBounds(flat, 0);
    } else {
      NothingBilled();
    }
    forall i | 0 <= i < |flat| ensures BilledAt(flat, i) ==> flat[i].prompt <= BilledMax(flat) {
      BilledMaxBounds(flat, i);
    }
    if BilledMax(flat) > 0 {
      var i := BilledMaxAttained(flat);
      assert BilledMax(flat) == MaxPrompt(flat) ==> MarkIsBilled(flat);
    }
    if MaxPrompt(flat) > 0 && Repeats(flat) {
      var i := MaxPromptAttained(flat);
      if flat[i].id.Some? {
        var j := FirstOfCall(flat, i);
        assert flat[j] in flat && flat[i] in flat;
      } else {
        IdlessIsBilled(flat, i);
      }
    }
  }

  lemma NothingBilled()
    ensures BilledMax([]) == 0 && MaxPrompt([]) == 0
  {
  }

  lemma IdlessIsBilled(messages: seq<Message>, i: nat)
    requires i < |messages| && messages[i].id.None?
    ensures BilledAt(messages, i)
  {
  }

  /** A call whose later message carries more than its first is billed less than the mark. */
  lemma GrowingCallIsBilledLess()
    ensures var turn := [Message(true, Some("a"), 1, 0), Message(true, Some("a"), 2, 0)];
      MaxBill(Billed([turn])) == 1 && MaxPrompt(Flatten([turn])) == 2
  {
    var first, second := Message(true, Some("a"), 1, 0), Message(true, Some("a"), 2, 0);
    var turn := [first, second];
    assert Flatten([turn][..0]) == [];
    assert Flatten([turn]) == turn && turn[..1] == [first] && [first][..0] == [];
    assert turn[..1][0].id == Some("a") && Named(turn[..1], "a");
    assert [] + turn[..1] == turn[..1];
    assert NewCalls([], turn[..1]) == [Bill(1, 0)] by { assert [] + turn[..1][..0] == []; }
    assert Idless(turn[..1]) == Idless(turn[..1][..0]) == Bill(0, 0);
    assert Idless(turn) == Bill(0, 0);
    assert TurnBills([], turn) == [Bill(1, 0)];
    assert [Bill(1, 0)][..0] == [];
  }
}
