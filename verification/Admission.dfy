/** The benchmark runner's admission control: workers reserving money against a ceiling. */
module Admission {
  import opened Wrappers

  /** Where one planned run's worker stands. Entered holds a slot; Deciding saw no halt and is next to
      the admission check; Running is admitted. */
  datatype Phase = Queued | Entered | Deciding | Running | Finished | Recorded | TurnedAway | Skipped

  /** The moment of the latest admission: what was spent, what each run reserved, who was running and who had
      finished. */
  datatype Admitted = Admitted(spent: real, reserved: real, running: seq<bool>, paid: seq<bool>)

  datatype State = State(
    spent: real,
    inFlight: nat,
    maxSingle: real,
    anyDone: bool,
    halts: nat,
    free: nat,
    workers: seq<Phase>,
    records: seq<nat>,
    latest: Option<Admitted>)

  /** The ceiling, the number of slots, and what each planned run turns out to cost. */
  datatype Budget = Budget(ceiling: real, concurrency: nat, costs: seq<real>)

  datatype Action = Enter(i: nat) | Look(i: nat) | Admit(i: nat) | Finish(i: nat) | Record(i: nat)

  predicate IsRunning(p: Phase) {
    p.Running?
  }

  predicate HoldsSlot(p: Phase) {
    p.Entered? || p.Deciding? || p.Running?
  }

  predicate Paid(p: Phase) {
    p.Finished? || p.Recorded?
  }

  function Flags(workers: seq<Phase>, p: Phase -> bool): (flags: seq<bool>)
    ensures |flags| == |workers| && forall i :: 0 <= i < |workers| ==> flags[i] == p(workers[i])
  {
    seq(|workers|, i requires 0 <= i < |workers| => p(workers[i]))
  }

  function Count(flags: seq<bool>): nat {
    if flags == [] then 0 else Count(flags[..|flags| - 1]) + if flags[|flags| - 1] then 1 else 0
  }

  /** The cost of the flagged runs. */
  function Cost(flags: seq<bool>, costs: seq<real>): real
    requires |flags| == |costs|
    decreases |flags|
  {
    if flags == [] then 0.0
    else Cost(flags[..|flags| - 1], costs[..|costs| - 1]) + if flags[|flags| - 1] then costs[|costs| - 1] else 0.0
  }

  function Reservation(runs: nat, each: real): real {
    runs as real * each
  }

  function Max(a: real, b: real): real {
    if a >= b then a else b
  }

  /** One step of one worker of _run_bounded, None when it cannot be taken. */
  function Step(b: Budget, s: State, a: Action): (r: Option<State>)
    requires |s.workers| == |b.costs|
    ensures r.Some? ==> |r.value.workers| == |b.costs|
  {
    if a.i >= |s.workers| then None
    else
      var phase := s.workers[a.i];
      match a
      case Enter(i) =>
        if !phase.Queued? || s.free == 0 then None
        else Some(s.(free := s.free - 1, workers := s.workers[i := Entered]))
      case Look(i) =>
        if !phase.Entered? then None
        else if s.halts > 0 then Some(s.(free := s.free + 1, workers := s.workers[i := Skipped]))
        else Some(s.(workers := s.workers[i := Deciding]))
      case Admit(i) =>
        if !phase.Deciding? then None
        else if s.spent + Reservation(s.inFlight + 1, s.maxSingle) >= b.ceiling then
          Some(s.(halts := s.halts + 1, free := s.free + 1, workers := s.workers[i := TurnedAway]))
        else
          var workers := s.workers[i := Running];
          Some(s.(inFlight := s.inFlight + 1, workers := workers,
                  latest := Some(Admitted(s.spent, s.maxSingle, Flags(workers, IsRunning), Flags(workers, Paid)))))
      case Finish(i) =>
        if !phase.Running? || s.inFlight == 0 then None
        else
          var cost := b.costs[i];
          Some(s.(spent := s.spent + cost, maxSingle := if s.anyDone then Max(s.maxSingle, cost) else cost,
                  anyDone := true,
                  inFlight := s.inFlight - 1, free := s.free + 1, workers := s.workers[i := Finished]))
      case Record(i) =>
        if !phase.Finished? then None
        else Some(s.(records := s.records + [i], workers := s.workers[i := Recorded]))
  }

  /** _run_bounded's start: nothing admitted, every run reserving 1.0 until the first one completes. */
  predicate Initial(b: Budget, s: State) {
    && |s.workers| == |b.costs| && (forall i :: 0 <= i < |s.workers| ==> s.workers[i] == Queued)
    && s.inFlight == 0 && s.maxSingle == 1.0 && !s.anyDone && s.halts == 0 && s.free == b.concurrency
    && s.records == [] && s.latest == None
  }

  /** The state after a run of steps; a step that cannot be taken changes nothing. */
  function After(b: Budget, s: State, run: seq<Action>): (end: State)
    requires |s.workers| == |b.costs|
    ensures |end.workers| == |b.costs|
    decreases |run|
  {
    if run == [] then s
    else
      match Step(b, s, run[0])
      case None => After(b, s, run[1..])
      case Some(next) => After(b, next, run[1..])
  }

  predicate NonNegative(costs: seq<real>) {
    forall i :: 0 <= i < |costs| ==> costs[i] >= 0.0
  }

  ghost predicate AtMost(costs: seq<real>, dearest: real) {
    forall i :: 0 <= i < |costs| ==> costs[i] <= dearest
  }

  /** What every reachable state keeps, from a start that had already spent some amount. */
  ghost predicate Invariant(b: Budget, s: State, before: real) {
    && |s.workers| == |b.costs| && s.maxSingle >= 0.0
    && s.inFlight == Count(Flags(s.workers, IsRunning))
    && s.free + Count(Flags(s.workers, HoldsSlot)) == b.concurrency
    && s.spent == before + Cost(Flags(s.workers, Paid), b.costs)
    && Committed(b, s)
    && RecordsShow(s) && HaltsShow(s)
    && s.anyDone == SomePaid(Flags(s.workers, Paid)) && IsDearest(b, Flags(s.workers, Paid), s.maxSingle)
    && (s.latest.Some? ==> |s.latest.value.paid| == |b.costs|
                           && IsDearest(b, s.latest.value.paid, s.latest.value.reserved))
  }

  ghost predicate SomePaid(paid: seq<bool>) { exists i :: 0 <= i < |paid| && paid[i] }

  /** What each run reserves: 1.0 until one has finished, then the cost of a finished run no other finished run
      exceeds. */
  ghost predicate IsDearest(b: Budget, paid: seq<bool>, reserved: real)
    requires |paid| == |b.costs|
  {
    if !SomePaid(paid) then reserved == 1.0
    else
      && (exists i :: 0 <= i < |paid| && paid[i] && b.costs[i] == reserved)
      && forall i :: 0 <= i < |paid| && paid[i] ==> b.costs[i] <= reserved
  }

  /** One more finished run raises the reservation to its cost when that is more. */
  lemma OneMorePaid(b: Budget, paid: seq<bool>, reserved: real, i: nat, next: real)
    requires |paid| == |b.costs| && i < |paid| && !paid[i] && IsDearest(b, paid, reserved)
    requires next == if SomePaid(paid) && reserved >= b.costs[i] then reserved else b.costs[i]
    ensures SomePaid(paid[i := true]) && IsDearest(b, paid[i := true], next)
  {
    var after := paid[i := true];
    assert after[i];
    if next == reserved && SomePaid(paid) {
      var j :| 0 <= j < |paid| && paid[j] && b.costs[j] == reserved;
      assert after[j];
    }
  }

  /** The records are the workers in the recorded phase, each once. */
  ghost predicate RecordsShow(s: State) {
    && (forall i :: i in s.records <==> 0 <= i < |s.workers| && s.workers[i].Recorded?)
    && forall i, j :: 0 <= i < j < |s.records| ==> s.records[i] != s.records[j]
  }

  /** The runner has halted exactly when some run was turned away, and runs are skipped only after that. */
  ghost predicate HaltsShow(s: State) {
    && (s.halts > 0 <==> exists i :: 0 <= i < |s.workers| && s.workers[i].TurnedAway?)
    && ((exists i :: 0 <= i < |s.workers| && s.workers[i].Skipped?) ==> s.halts > 0)
  }

  /** Nothing admitted yet, or what is spent and still running adds up to what the latest admission
      committed to, which its check let through. */
  ghost predicate Committed(b: Budget, s: State)
    requires |s.workers| == |b.costs|
  {
    match s.latest
    case None => forall i :: 0 <= i < |s.workers| ==> !s.workers[i].Running? && !Paid(s.workers[i])
    case Some(a) =>
      && |a.running| == |b.costs| && a.reserved >= 0.0 && Count(a.running) <= b.concurrency
      && a.spent + Reservation(Count(a.running), a.reserved) < b.ceiling
      && s.spent + Cost(Flags(s.workers, IsRunning), b.costs) == a.spent + Cost(a.running, b.costs)
  }

  lemma {:induction false} CountSet(flags: seq<bool>, i: nat, v: bool)
    requires i < |flags|
    ensures Count(flags[i := v]) == Count(flags) + (if v then 1 else 0) - (if flags[i] then 1 else 0)
    decreases |flags|
  {
    var n := |flags| - 1;
    if i == n {
      assert flags[i := v][..n] == flags[..n];
    } else {
      assert flags[i := v][..n] == flags[..n][i := v];
      CountSet(flags[..n], i, v);
    }
  }

  lemma {:induction false} CostSet(flags: seq<bool>, costs: seq<real>, i: nat, v: bool)
    requires i < |flags| == |costs|
    ensures Cost(flags[i := v], costs) == Cost(flags, costs) + (if v then costs[i] else 0.0)
            - (if flags[i] then costs[i] else 0.0)
    decreases |flags|
  {
    var n := |flags| - 1;
    if i == n {
      assert flags[i := v][..n] == flags[..n];
    } else {
      assert flags[i := v][..n] == flags[..n][i := v];
      CostSet(flags[..n], costs[..n], i, v);
    }
  }

  /** Moving one worker to another phase changes each tally by that worker alone. */
  lemma PhaseSet(workers: seq<Phase>, costs: seq<real>, i: nat, to: Phase, p: Phase -> bool)
    requires i < |workers| == |costs|
    ensures Count(Flags(workers[i := to], p)) == Count(Flags(workers, p)) + (if p(to) then 1 else 0)
            - (if p(workers[i]) then 1 else 0)
    ensures Cost(Flags(workers[i := to], p), costs)
            == Cost(Flags(workers, p), costs) + (if p(to) then costs[i] else 0.0)
              - (if p(workers[i]) then costs[i] else 0.0)
  {
    var flags := Flags(workers, p);
    assert Flags(workers[i := to], p) == flags[i := p(to)];
    CountSet(flags, i, p(to));
    CostSet(flags, costs, i, p(to));
  }

  /** Everyone running holds a slot. */
  lemma {:induction false} RunningHoldSlots(workers: seq<Phase>)
    ensures Count(Flags(workers, IsRunning)) <= Count(Flags(workers, HoldsSlot))
    decreases |workers|
  {
    if workers != [] {
      var n := |workers| - 1;
      RunningHoldSlots(workers[..n]);
      assert Flags(workers, IsRunning)[..n] == Flags(workers[..n], IsRunning);
      assert Flags(workers, HoldsSlot)[..n] == Flags(workers[..n], HoldsSlot);
    }
  }

  lemma {:induction false} NobodyFlagged(flags: seq<bool>, costs: seq<real>)
    requires |flags| == |costs| && forall i :: 0 <= i < |flags| ==> !flags[i]
    ensures Count(flags) == 0 && Cost(flags, costs) == 0.0
    decreases |flags|
  {
    if flags != [] {
      NobodyFlagged(flags[..|flags| - 1], costs[..|costs| - 1]);
    }
  }

  lemma InitialKeepsInvariant(b: Budget, s: State)
    requires Initial(b, s)
    ensures Invariant(b, s, s.spent)
  {
    NobodyFlagged(Flags(s.workers, IsRunning), b.costs);
    NobodyFlagged(Flags(s.workers, HoldsSlot), b.costs);
    NobodyFlagged(Flags(s.workers, Paid), b.costs);
    assert !SomePaid(Flags(s.workers, Paid));
  }

  lemma StepKeepsInvariant(b: Budget, s: State, a: Action, before: real)
    requires Invariant(b, s, before) && NonNegative(b.costs) && Step(b, s, a).Some?
    ensures Invariant(b, Step(b, s, a).value, before)
  {
    hide Flags, Count, Cost, Reservation, HaltsShow, RecordsShow, IsDearest, SomePaid;
    StepKeepsRecords(b, s, a);
    StepKeepsDearest(b, s, a);
    var next := Step(b, s, a).value;
    var to := next.workers[a.i];
    assert next.workers == s.workers[a.i := to];
    StepKeepsHalts(b, s, a);
    PhaseSet(s.workers, b.costs, a.i, to, IsRunning);
    PhaseSet(s.workers, b.costs, a.i, to, HoldsSlot);
    PhaseSet(s.workers, b.costs, a.i, to, Paid);
    RunningHoldSlots(next.workers);
    if s.latest.None? && a.Admit? {
      NobodyRunning(s.workers, b.costs);
    }
  }

  lemma StepKeepsRecords(b: Budget, s: State, a: Action)
    requires |s.workers| == |b.costs| && RecordsShow(s) && Step(b, s, a).Some?
    ensures RecordsShow(Step(b, s, a).value)
  {
    hide Flags, Reservation;
    var next := Step(b, s, a).value;
    assert next.workers == s.workers[a.i := next.workers[a.i]];
  }

  lemma StepKeepsDearest(b: Budget, s: State, a: Action)
    requires |s.workers| == |b.costs| && Step(b, s, a).Some?
    requires s.anyDone == SomePaid(Flags(s.workers, Paid)) && IsDearest(b, Flags(s.workers, Paid), s.maxSingle)
    requires s.latest.Some? ==> |s.latest.value.paid| == |b.costs|
                                && IsDearest(b, s.latest.value.paid, s.latest.value.reserved)
    ensures var next := Step(b, s, a).value;
            && next.anyDone == SomePaid(Flags(next.workers, Paid))
            && IsDearest(b, Flags(next.workers, Paid), next.maxSingle)
            && (next.latest.Some? ==> |next.latest.value.paid| == |b.costs|
                                      && IsDearest(b, next.latest.value.paid, next.latest.value.reserved))
  {
    hide IsDearest, SomePaid, Reservation;
    var next := Step(b, s, a).value;
    var was := Flags(s.workers, Paid);
    if a.Finish? {
      assert Flags(next.workers, Paid) == was[a.i := true];
      OneMorePaid(b, was, s.maxSingle, a.i, next.maxSingle);
    } else {
      assert Flags(next.workers, Paid) == was;
    }
  }

  lemma StepKeepsHalts(b: Budget, s: State, a: Action)
    requires |s.workers| == |b.costs| && HaltsShow(s) && Step(b, s, a).Some?
    ensures HaltsShow(Step(b, s, a).value)
  {
    hide Flags, Reservation;
    var next := Step(b, s, a).value;
    assert next.workers == s.workers[a.i := next.workers[a.i]];
    assert forall i :: 0 <= i < |s.workers| && i != a.i ==> next.workers[i] == s.workers[i];
    if s.halts > 0 {
      var i :| 0 <= i < |s.workers| && s.workers[i].TurnedAway?;
      assert next.workers[i].TurnedAway?;
    }
    if a.Admit? && next.halts > s.halts {
      assert next.workers[a.i].TurnedAway?;
    }
  }

  lemma NobodyRunning(workers: seq<Phase>, costs: seq<real>)
    requires |workers| == |costs| && forall i :: 0 <= i < |workers| ==> !workers[i].Running?
    ensures Cost(Flags(workers, IsRunning), costs) == 0.0
  {
    NobodyFlagged(Flags(workers, IsRunning), costs);
  }

  lemma {:induction false} RunKeepsInvariant(b: Budget, s: State, run: seq<Action>, before: real)
    requires Invariant(b, s, before) && NonNegative(b.costs)
    ensures Invariant(b, After(b, s, run), before)
    decreases |run|
  {
    if run != [] {
      if Step(b, s, run[0]).Some? {
        StepKeepsInvariant(b, s, run[0], before);
        RunKeepsInvariant(b, Step(b, s, run[0]).value, run[1..], before);
      } else {
        RunKeepsInvariant(b, s, run[1..], before);
      }
    }
  }

  /** In every interleaving a run reserves 1.0 until one has finished, and then the dearest finished run's cost;
      the latest admission reserved by those finished then. */
  lemma ReservationIsTheDearestFinished(b: Budget, s: State, run: seq<Action>)
    requires Initial(b, s) && NonNegative(b.costs)
    ensures var end := After(b, s, run);
            && IsDearest(b, Flags(end.workers, Paid), end.maxSingle)
            && (end.latest.Some? ==> |end.latest.value.paid| == |b.costs|
                                     && IsDearest(b, end.latest.value.paid, end.latest.value.reserved))
  {
    InitialKeepsInvariant(b, s);
    RunKeepsInvariant(b, s, run, s.spent);
    hide After, IsDearest;
  }

  /** A run is admitted exactly when what is spent, and the dearest finished run's cost for it and for each run in
      flight, stay below the ceiling; otherwise it is turned away and the runner halts. */
  lemma AdmitsExactlyWhenRoomIsLeft(b: Budget, s: State, run: seq<Action>, i: nat, reserved: real)
    requires Initial(b, s) && NonNegative(b.costs) && i < |After(b, s, run).workers|
    requires After(b, s, run).workers[i].Deciding?
    requires IsDearest(b, Flags(After(b, s, run).workers, Paid), reserved)
    ensures var end := After(b, s, run);
            var next := Step(b, end, Admit(i));
            var flying := Count(Flags(end.workers, IsRunning));
            && next.Some?
            && (next.value.workers[i] == Running <==> end.spent + (flying + 1) as real * reserved < b.ceiling)
            && (next.value.workers[i] == TurnedAway <==> end.spent + (flying + 1) as real * reserved >= b.ceiling)
            && (next.value.workers[i] == TurnedAway ==> next.value.halts > 0)
  {
    hide After, Flags, Count, Cost, IsDearest, Step;
    InitialKeepsInvariant(b, s);
    RunKeepsInvariant(b, s, run, s.spent);
    var end := After(b, s, run);
    hide Invariant, Initial;
    AdmitDecides(b, end, s.spent, i, reserved);
  }

  lemma AdmitDecides(b: Budget, s: State, before: real, i: nat, reserved: real)
    requires Invariant(b, s, before) && i < |s.workers| && s.workers[i].Deciding?
    requires IsDearest(b, Flags(s.workers, Paid), reserved)
    ensures var next := Step(b, s, Admit(i));
            var each := Reservation(Count(Flags(s.workers, IsRunning)) + 1, reserved);
            && next.Some?
            && (next.value.workers[i] == Running <==> s.spent + each < b.ceiling)
            && (next.value.workers[i] == TurnedAway <==> s.spent + each >= b.ceiling)
            && (next.value.workers[i] == TurnedAway ==> next.value.halts > 0)
  {
    DearestIsOne(b, Flags(s.workers, Paid), reserved, s.maxSingle);
    hide Flags, Count, Cost, IsDearest, SomePaid, Committed, HaltsShow, RecordsShow, Reservation;
  }

  lemma DearestIsOne(b: Budget, paid: seq<bool>, r: real, q: real)
    requires |paid| == |b.costs| && IsDearest(b, paid, r) && IsDearest(b, paid, q)
    ensures r == q
  {
  }

  /** In every interleaving the in-flight count is the number of runs admitted and not finished, and
      never more than there are slots. */
  lemma InFlightIsAdmittedUnfinished(b: Budget, s: State, run: seq<Action>)
    requires Initial(b, s) && NonNegative(b.costs)
    ensures var end := After(b, s, run);
            end.inFlight == Count(Flags(end.workers, IsRunning)) && end.inFlight <= b.concurrency
  {
    InitialKeepsInvariant(b, s);
    RunKeepsInvariant(b, s, run, s.spent);
    RunningHoldSlots(After(b, s, run).workers);
  }

  lemma OneMoreReservation(runs: nat, each: real)
    ensures Reservation(runs + 1, each) == Reservation(runs, each) + each
  {
  }

  lemma {:induction false} CostAtMost(flags: seq<bool>, costs: seq<real>, each: real)
    requires |flags| == |costs| && forall i :: 0 <= i < |flags| && flags[i] ==> costs[i] <= each
    ensures Cost(flags, costs) <= Reservation(Count(flags), each)
    decreases |flags|
  {
    if flags != [] {
      var front := flags[..|flags| - 1];
      CostAtMost(front, costs[..|costs| - 1], each);
      OneMoreReservation(Count(front), each);
    }
  }

  lemma {:induction false} CostNonNegative(flags: seq<bool>, costs: seq<real>)
    requires |flags| == |costs| && NonNegative(costs)
    ensures Cost(flags, costs) >= 0.0
    decreases |flags|
  {
    if flags != [] {
      CostNonNegative(flags[..|flags| - 1], costs[..|costs| - 1]);
    }
  }

  lemma ReservationGrows(runs: nat, more: nat, each: real)
    requires runs <= more && each >= 0.0
    ensures 0.0 <= Reservation(runs, each) <= Reservation(more, each)
  {
  }

  /** Once any run has been admitted, the spend stays below the ceiling plus one dearest run for every
      slot, whatever the interleaving. */
  lemma SpendStaysNearCeiling(b: Budget, s: State, run: seq<Action>, dearest: real)
    requires Initial(b, s) && NonNegative(b.costs) && AtMost(b.costs, dearest) && dearest >= 0.0
    requires After(b, s, run).latest.Some?
    ensures After(b, s, run).spent < b.ceiling + Reservation(b.concurrency, dearest)
  {
    var end := Settled(b, s, run);
    var a := end.latest.value;
    hide Count, Cost, Flags, After, Initial, Reservation;
    CostAtMost(a.running, b.costs, dearest);
    ReservationGrows(Count(a.running), b.concurrency, dearest);
    ReservationGrows(Count(a.running), Count(a.running), a.reserved);
  }

  /** What the money adds up to once something has been admitted. */
  lemma Settled(b: Budget, s: State, run: seq<Action>) returns (end: State)
    requires Initial(b, s) && NonNegative(b.costs) && After(b, s, run).latest.Some?
    ensures end == After(b, s, run) && end.latest.Some?
    ensures var a := end.latest.value;
            && |a.running| == |b.costs| && a.reserved >= 0.0 && Count(a.running) <= b.concurrency
            && a.spent + Reservation(Count(a.running), a.reserved) < b.ceiling
            && end.spent <= a.spent + Cost(a.running, b.costs)
  {
    InitialKeepsInvariant(b, s);
    RunKeepsInvariant(b, s, run, s.spent);
    end := After(b, s, run);
    CostNonNegative(Flags(end.workers, IsRunning), b.costs);
  }

  /** When the latest admission's reservation covers each run then in flight, the spend stays below the
      ceiling itself. */
  lemma CoveredSpendStaysBelowCeiling(b: Budget, s: State, run: seq<Action>)
    requires Initial(b, s) && NonNegative(b.costs) && After(b, s, run).latest.Some?
    requires var a := After(b, s, run).latest.value;
             |a.running| == |b.costs| && forall i :: 0 <= i < |a.running| && a.running[i] ==> b.costs[i] <= a.reserved
    ensures After(b, s, run).spent < b.ceiling
  {
    var end := Settled(b, s, run);
    hide Count, Cost, Flags, Reservation;
    CostAtMost(end.latest.value.running, b.costs, end.latest.value.reserved);
  }

  /** Once every admitted run has finished, the spend is below the ceiling exactly when the runs in flight
      at the latest admission cost less together than the room that admission found. */
  lemma SpendEndsBelowCeilingExactlyWhen(b: Budget, s: State, run: seq<Action>)
    requires Initial(b, s) && NonNegative(b.costs) && After(b, s, run).latest.Some?
    requires forall i :: 0 <= i < |b.costs| ==> !After(b, s, run).workers[i].Running?
    ensures var end := After(b, s, run); var a := end.latest.value;
            && |a.running| == |b.costs|
            && (end.spent < b.ceiling <==> Cost(a.running, b.costs) < b.ceiling - a.spent)
  {
    InitialKeepsInvariant(b, s);
    RunKeepsInvariant(b, s, run, s.spent);
    NobodyRunning(After(b, s, run).workers, b.costs);
  }

  /** Every run recorded finished exactly once. */
  lemma RecordsAreFinishedRuns(b: Budget, s: State, run: seq<Action>)
    requires Initial(b, s) && NonNegative(b.costs)
    ensures var end := After(b, s, run);
            && (forall i, j :: 0 <= i < j < |end.records| ==> end.records[i] != end.records[j])
            && forall i :: i in end.records <==> 0 <= i < |end.workers| && end.workers[i].Recorded?
  {
    InitialKeepsInvariant(b, s);
    RunKeepsInvariant(b, s, run, s.spent);
  }

  predicate WasAdmitted(p: Phase) {
    p.Running? || p.Finished? || p.Recorded?
  }

  /** No worker can take another step. */
  ghost predicate Over(b: Budget, s: State)
    requires |s.workers| == |b.costs|
  {
    forall a :: Step(b, s, a).None?
  }

  lemma {:induction false} SomeoneFlagged(flags: seq<bool>) returns (i: nat)
    requires Count(flags) > 0
    ensures i < |flags| && flags[i]
    decreases |flags|
  {
    var n := |flags| - 1;
    if flags[n] {
      i := n;
    } else {
      i := SomeoneFlagged(flags[..n]);
    }
  }

  /** While some worker is neither recorded nor refused, some step can be taken. */
  lemma SomeoneCanStep(b: Budget, s: State, before: real, i: nat)
    requires Invariant(b, s, before) && b.concurrency > 0 && i < |s.workers|
    requires !s.workers[i].Recorded? && !s.workers[i].TurnedAway? && !s.workers[i].Skipped?
    ensures !Over(b, s)
  {
    var j: nat := i;
    if s.workers[i].Queued? && s.free == 0 {
      j := SomeoneFlagged(Flags(s.workers, HoldsSlot));
    }
    if s.workers[j].Running? {
      assert Flags(s.workers, IsRunning)[j];
      FlaggedCounts(Flags(s.workers, IsRunning), j);
    }
    hide Flags, Count, Cost, Reservation;
    match s.workers[j] {
      case Queued => assert Step(b, s, Enter(j)).Some?;
      case Entered => assert Step(b, s, Look(j)).Some?;
      case Deciding => assert Step(b, s, Admit(j)).Some?;
      case Running => assert Step(b, s, Finish(j)).Some?;
      case Finished => assert Step(b, s, Record(j)).Some?;
      case _ =>
    }
  }

  lemma {:induction false} FlaggedCounts(flags: seq<bool>, i: nat)
    requires i < |flags| && flags[i]
    ensures Count(flags) > 0
    decreases |flags|
  {
    if i < |flags| - 1 {
      FlaggedCounts(flags[..|flags| - 1], i);
    }
  }

  /** When nothing more can happen every admitted run has been recorded, every other was turned away or
      skipped, and the runner has halted exactly when there is such a run. */
  lemma EndRecordsEveryAdmittedRun(b: Budget, s: State, run: seq<Action>)
    requires Initial(b, s) && NonNegative(b.costs) && b.concurrency > 0 && Over(b, After(b, s, run))
    ensures var end := After(b, s, run);
            && (forall i :: 0 <= i < |end.workers| ==> (i in end.records <==> WasAdmitted(end.workers[i])))
            && (forall i :: 0 <= i < |end.workers| ==>
                  i in end.records || end.workers[i].TurnedAway? || end.workers[i].Skipped?)
            && (end.halts > 0 <==> exists i :: 0 <= i < |end.workers| && i !in end.records)
  {
    InitialKeepsInvariant(b, s);
    RunKeepsInvariant(b, s, run, s.spent);
    var end := After(b, s, run);
    forall i | 0 <= i < |end.workers|
      ensures end.workers[i].Recorded? || end.workers[i].TurnedAway? || end.workers[i].Skipped? {
      if !end.workers[i].Recorded? && !end.workers[i].TurnedAway? && !end.workers[i].Skipped? {
        SomeoneCanStep(b, end, s.spent, i);
      }
    }
    hide Step, Flags, Count, Cost, Committed;
    if end.halts > 0 {
      var i :| 0 <= i < |end.workers| && end.workers[i].TurnedAway?;
      assert i !in end.records;
    }
  }

  /** How many steps a worker still has before it. */
  function StepsLeft(p: Phase): nat {
    match p
    case Queued => 5
    case Entered => 4
    case Deciding => 3
    case Running => 2
    case Finished => 1
    case _ => 0
  }

  function Work(workers: seq<Phase>): nat {
    if workers == [] then 0 else Work(workers[..|workers| - 1]) + StepsLeft(workers[|workers| - 1])
  }

  lemma {:induction false} WorkSet(workers: seq<Phase>, i: nat, to: Phase)
    requires i < |workers|
    ensures Work(workers[i := to]) == Work(workers) + StepsLeft(to) - StepsLeft(workers[i])
    decreases |workers|
  {
    var n := |workers| - 1;
    if i == n {
      assert workers[i := to][..n] == workers[..n];
    } else {
      assert workers[i := to][..n] == workers[..n][i := to];
      WorkSet(workers[..n], i, to);
    }
  }

  /** Every step leaves fewer to take, so every interleaving comes to such an end. */
  lemma EveryStepUsesWork(b: Budget, s: State, a: Action)
    requires |s.workers| == |b.costs| && Step(b, s, a).Some?
    ensures Work(Step(b, s, a).value.workers) < Work(s.workers)
  {
    hide Flags, Reservation;
    var next := Step(b, s, a).value;
    assert next.workers == s.workers[a.i := next.workers[a.i]];
    WorkSet(s.workers, a.i, next.workers[a.i]);
  }

  /** The ceiling itself can be passed: a first run that costs nothing leaves nothing reserved for the
      next one. */
  lemma UncoveredSpendCanPassCeiling() returns (b: Budget, s: State, run: seq<Action>)
    ensures Initial(b, s) && NonNegative(b.costs) && After(b, s, run).spent > b.ceiling
  {
    b := Budget(2.0, 1, [0.0, 5.0]);
    s := State(0.0, 0, 1.0, false, 0, 1, [Queued, Queued], [], None);
    var first := [Enter(0), Look(0), Admit(0), Finish(0)];
    var second := [Enter(1), Look(1), Admit(1), Finish(1)];
    run := first + second;
    OneWorker(b, s, 0);
    var middle := After(b, s, first);
    OneWorker(b, middle, 1);
    AfterAppends(b, s, first, second);
  }

  /** One worker alone with the free slots: its cost is spent and becomes a reservation. */
  lemma OneWorker(b: Budget, s: State, i: nat)
    requires |s.workers| == |b.costs| && i < |s.workers| && s.workers[i].Queued?
    requires s.free > 0 && s.halts == 0 && s.spent + Reservation(s.inFlight + 1, s.maxSingle) < b.ceiling
    ensures var end := After(b, s, [Enter(i), Look(i), Admit(i), Finish(i)]);
            && end.spent == s.spent + b.costs[i] && end.free == s.free && end.halts == 0 && end.inFlight == s.inFlight
            && end.maxSingle == (if s.anyDone then Max(s.maxSingle, b.costs[i]) else b.costs[i])
            && end.workers == s.workers[i := Finished]
  {
    var entered := Step(b, s, Enter(i)).value;
    var deciding := Step(b, entered, Look(i)).value;
    var running := Step(b, deciding, Admit(i)).value;
    assert running.workers == s.workers[i := Running];
    var finished := Step(b, running, Finish(i)).value;
    assert finished.workers == s.workers[i := Finished];
    assert After(b, running, [Finish(i)]) == finished;
    assert [Admit(i), Finish(i)][1..] == [Finish(i)];
    assert After(b, deciding, [Admit(i), Finish(i)]) == finished;
    assert [Look(i), Admit(i), Finish(i)][1..] == [Admit(i), Finish(i)];
    assert After(b, entered, [Look(i), Admit(i), Finish(i)]) == finished;
    assert [Enter(i), Look(i), Admit(i), Finish(i)][1..] == [Look(i), Admit(i), Finish(i)];
  }

  lemma {:induction false} AfterAppends(b: Budget, s: State, run: seq<Action>, more: seq<Action>)
    requires |s.workers| == |b.costs|
    ensures After(b, s, run + more) == After(b, After(b, s, run), more)
    decreases |run|
  {
    if run == [] {
      assert run + more == more;
    } else {
      assert (run + more)[1..] == run[1..] + more;
      AfterAppends(b, match Step(b, s, run[0]) case None => s case Some(next) => next, run[1..], more);
    }
  }

  /** The cost of the first n planned runs. */
  function Spent(costs: seq<real>, n: nat): real
    requires n <= |costs|
  {
    if n == 0 then 0.0 else Spent(costs, n - 1) + costs[n - 1]
  }

  /** _run_serial: runs in order until the spend reaches the ceiling. */
  method RunSerial(ceiling: real, start: real, costs: seq<real>) returns (records: nat, spent: real, halted: bool)
    ensures records <= |costs| && spent == start + Spent(costs, records)
    ensures forall k :: 0 <= k < records ==> start + Spent(costs, k) < ceiling
    ensures halted <==> records < |costs|
    ensures halted ==> spent >= ceiling
    ensures records > 0 ==> spent < ceiling + costs[records - 1]
  {
    records, spent, halted := 0, start, false;
    while records < |costs|
      invariant records <= |costs| && spent == start + Spent(costs, records) && !halted
      invariant forall k :: 0 <= k < records ==> start + Spent(costs, k) < ceiling
    {
      if spent >= ceiling {
        halted := true;
        break;
      }
      spent := spent + costs[records];
      records := records + 1;
    }
  }
}
