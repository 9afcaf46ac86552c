/** One fetch shared by every worktree asking at once: a lock, a timestamp file, and a remote that
    keeps moving. Callers interleave freely, any of them may die at any point, and time only moves
    forward. */
module FetchShare {
  import opened Wrappers

  /** The stamp file: when the fetch it records began, or what an interrupted write leaves behind. */
  datatype Stamp = Missing | Torn | Began(at: int)

  datatype Phase =
    | Asked(maxAge: nat)
    | Waiting
    | Holding
    | Fetching(started: int)
    | Sampled(started: int, at: int)
    | Landed(started: int)
    | Writing(started: int)
    | Returned(ok: bool, fetched: bool)

  /** A caller, and the oldest fetch it accepts: its call time less its allowed age. */
  datatype Caller = Caller(since: int, phase: Phase)

  /** What happened to the stamp, in order: a caller began a fetch, or finished or tore a write. */
  datatype Event = Fetched(caller: nat, since: int) | Recorded(began: int) | Tore

  /** tracking is when the value in the remote-tracking ref was sampled from the remote. */
  datatype State = State(
    clock: int,
    tracking: int,
    stamp: Stamp,
    holder: Option<nat>,
    callers: map<nat, Caller>,
    log: seq<Event>)

  datatype Action =
    | Tick(elapsed: nat)
    | Ask(caller: nat, maxAge: nat)
    | Peek(caller: nat)
    | Acquire(caller: nat)
    | Check(caller: nat)
    | Sample(caller: nat)
    | Land(caller: nat)
    | OpenStamp(caller: nat)
    | CloseStamp(caller: nat)
    | Stop(caller: nat)

  /** sharedFetchCovers: a stamp that parses and is no older than since. */
  predicate Covers(stamp: Stamp, since: int) {
    stamp.Began? && stamp.at >= since
  }

  function Put(s: State, i: nat, phase: Phase): State
    requires i in s.callers
  {
    s.(callers := s.callers[i := s.callers[i].(phase := phase)])
  }

  /** Leaving gives the lock back. */
  function Leave(s: State, i: nat, ok: bool, fetched: bool): State
    requires i in s.callers
  {
    Put(s, i, Returned(ok, fetched)).(holder := if s.holder == Some(i) then None else s.holder)
  }

  predicate Busy(phase: Phase) {
    phase.Holding? || phase.Fetching? || phase.Sampled? || phase.Landed? || phase.Writing?
  }

  /** One step of sharedFetch, or of the world around it; None when the step cannot be taken. Stop is
      every way out with an error: a wait that timed out, a fetch or a write that failed, a crash; it still tells
      of a fetch when that had landed. */
  function Step(s: State, a: Action): Option<State> {
    match a
    case Tick(elapsed) => Some(s.(clock := s.clock + elapsed))
    case Ask(i, maxAge) =>
      if i in s.callers then None
      else Some(s.(callers := s.callers[i := Caller(s.clock - maxAge, Asked(maxAge))]))
    case Peek(i) =>
      if i !in s.callers || !s.callers[i].phase.Asked? then None
      else if s.callers[i].phase.maxAge > 0 && Covers(s.stamp, s.callers[i].since) then Some(Leave(s, i, true, false))
      else Some(Put(s, i, Waiting))
    case Acquire(i) =>
      if i !in s.callers || !s.callers[i].phase.Waiting? || s.holder.Some? then None
      else Some(Put(s, i, Holding).(holder := Some(i)))
    case Check(i) =>
      if i !in s.callers || !s.callers[i].phase.Holding? then None
      else if Covers(s.stamp, s.callers[i].since) then Some(Leave(s, i, true, false))
      else Some(Put(s, i, Fetching(s.clock)).(log := s.log + [Fetched(i, s.callers[i].since)]))
    case Sample(i) =>
      if i !in s.callers || !s.callers[i].phase.Fetching? then None
      else Some(Put(s, i, Sampled(s.callers[i].phase.started, s.clock)))
    case Land(i) =>
      if i !in s.callers || !s.callers[i].phase.Sampled? then None
      else Some(Put(s, i, Landed(s.callers[i].phase.started)).(tracking := s.callers[i].phase.at))
    case OpenStamp(i) =>
      if i !in s.callers || !s.callers[i].phase.Landed? then None
      else Some(Put(s, i, Writing(s.callers[i].phase.started)).(stamp := Torn, log := s.log + [Tore]))
    case CloseStamp(i) =>
      if i !in s.callers || !s.callers[i].phase.Writing? then None
      else
        var started := s.callers[i].phase.started;
        Some(Leave(s, i, true, true).(stamp := Began(started), log := s.log + [Recorded(started)]))
    case Stop(i) =>
      if i !in s.callers || s.callers[i].phase.Returned? then None
      else Some(Leave(s, i, false, s.callers[i].phase.Landed? || s.callers[i].phase.Writing?))
  }

  /** A clone no shared fetch has touched. */
  predicate Initial(s: State) {
    s.tracking <= s.clock && s.stamp == Missing && s.holder == None && s.callers == map[] && s.log == []
  }

  /** One step of a run; a step that cannot be taken changes nothing. */
  function Taken(s: State, a: Action): State {
    match Step(s, a)
    case None => s
    case Some(next) => next
  }

  function After(s: State, run: seq<Action>): State
    decreases |run|
  {
    if run == [] then s else After(Taken(s, run[0]), run[1..])
  }

  /** The last thing to happen to the stamp file. */
  function LastStamp(log: seq<Event>): Stamp {
    if log == [] then Missing
    else
      match log[|log| - 1]
      case Fetched(_, _) => LastStamp(log[..|log| - 1])
      case Recorded(began) => Began(began)
      case Tore => Torn
  }

  /** A fetch is only begun over a stamp that does not cover its caller; and over one whose last write was
      completed, every fetch recorded before it began earlier than what the caller asks for. */
  ghost predicate BegunUncovered(log: seq<Event>, k: nat)
    requires k < |log|
  {
    log[k].Fetched? ==>
      && !Covers(LastStamp(log[..k]), log[k].since)
      && (LastStamp(log[..k]).Began? ==> forall j :: 0 <= j < k && log[j].Recorded? ==> log[j].began < log[k].since)
  }

  /** No fetch recorded so far began after t. */
  ghost predicate RecordedBy(log: seq<Event>, t: int) {
    forall j :: 0 <= j < |log| && log[j].Recorded? ==> log[j].began <= t
  }

  ghost predicate CallerSound(s: State, i: nat)
    requires i in s.callers
  {
    var c := s.callers[i];
    && c.since <= s.clock
    && (Busy(c.phase) <==> s.holder == Some(i))
    && (c.phase.Fetching? ==> c.since <= c.phase.started <= s.clock && s.tracking <= c.phase.started)
    && (c.phase.Sampled? ==> c.since <= c.phase.started <= c.phase.at <= s.clock && s.tracking <= c.phase.started)
    && (c.phase.Landed? || c.phase.Writing? ==>
          c.since <= c.phase.started <= s.tracking && RecordedBy(s.log, c.phase.started))
    && (c.phase.Returned? && c.phase.ok ==> c.since <= s.tracking)
  }

  ghost predicate Invariant(s: State) {
    && s.tracking <= s.clock
    && (s.holder.Some? ==> s.holder.value in s.callers)
    && (forall i :: i in s.callers ==> CallerSound(s, i))
    && (s.stamp.Began? ==> s.stamp.at <= s.tracking && RecordedBy(s.log, s.stamp.at))
    && s.stamp == LastStamp(s.log) && RecordedBy(s.log, s.tracking)
    && (forall k :: 0 <= k < |s.log| ==> BegunUncovered(s.log, k))
  }

  lemma LogGrows(log: seq<Event>, e: Event)
    requires forall k :: 0 <= k < |log| ==> BegunUncovered(log, k)
    requires e.Fetched? ==> !Covers(LastStamp(log), e.since)
    requires LastStamp(log).Began? ==> RecordedBy(log, LastStamp(log).at)
    ensures forall k :: 0 <= k < |log + [e]| ==> BegunUncovered(log + [e], k)
    ensures LastStamp(log + [e]) ==
              match e case Fetched(_, _) => LastStamp(log) case Recorded(b) => Began(b) case Tore => Torn
  {
    var after := log + [e];
    assert after[..|log|] == log;
    forall k | 0 <= k < |after| ensures BegunUncovered(after, k) {
      if k < |log| {
        assert BegunUncovered(log, k);
        assert after[..k] == log[..k] && after[k] == log[k] && forall j :: 0 <= j < k ==> after[j] == log[j];
      }
    }
  }

  /** A step keeps what the log says of the stamp file. */
  lemma StepKeepsLog(s: State, a: Action)
    requires Invariant(s) && Step(s, a).Some?
    ensures var next := Step(s, a).value;
      next.stamp == LastStamp(next.log) && forall k :: 0 <= k < |next.log| ==> BegunUncovered(next.log, k)
  {
    hide BegunUncovered, LastStamp, CallerSound;
    match a {
      case Check(i) =>
        if !Covers(s.stamp, s.callers[i].since) {
          LogGrows(s.log, Fetched(i, s.callers[i].since));
        }
      case OpenStamp(i) =>
        LogGrows(s.log, Tore);
      case CloseStamp(i) =>
        LogGrows(s.log, Recorded(s.callers[i].phase.started));
      case _ =>
    }
  }

  /** A step keeps every recorded fetch behind the tracking ref, an intact stamp, and a fetch just landed. */
  lemma StepKeepsRecords(s: State, a: Action)
    requires Invariant(s) && Step(s, a).Some?
    ensures var next := Step(s, a).value;
            && RecordedBy(next.log, next.tracking)
            && (next.stamp.Began? ==> RecordedBy(next.log, next.stamp.at))
            && forall i :: i in next.callers && (next.callers[i].phase.Landed? || next.callers[i].phase.Writing?) ==>
                 RecordedBy(next.log, next.callers[i].phase.started)
  {
    hide BegunUncovered, LastStamp;
    var next := Step(s, a).value;
    forall i | i in next.callers && (next.callers[i].phase.Landed? || next.callers[i].phase.Writing?)
      ensures RecordedBy(next.log, next.callers[i].phase.started)
    {
      assert i in s.callers && CallerSound(s, i);
    }
    if a.CloseStamp? {
      assert CallerSound(s, a.caller);
    }
    if a.Land? {
      assert CallerSound(s, a.caller);
    }
  }

  lemma StepKeepsInvariant(s: State, a: Action)
    requires Invariant(s) && Step(s, a).Some?
    ensures Invariant(Step(s, a).value)
    ensures s.clock <= Step(s, a).value.clock && s.tracking <= Step(s, a).value.tracking
  {
    hide BegunUncovered, LastStamp, RecordedBy, CallerSound;
    StepKeepsLog(s, a);
    StepKeepsRecords(s, a);
    StepMovesOn(s, a);
    var next := Step(s, a).value;
    forall j | j in next.callers ensures CallerSound(next, j) {
      StepKeepsCaller(s, a, j);
    }
  }

  lemma StepMovesOn(s: State, a: Action)
    requires Invariant(s) && Step(s, a).Some?
    ensures var next := Step(s, a).value;
            && s.clock <= next.clock && s.tracking <= next.tracking <= next.clock
            && (next.holder.Some? ==> next.holder.value in next.callers)
            && (next.stamp.Began? ==> next.stamp.at <= next.tracking)
  {
    hide BegunUncovered, LastStamp, RecordedBy;
    if !a.Tick? && !a.Ask? {
      assert a.caller in s.callers ==> CallerSound(s, a.caller);
    }
  }

  lemma StepKeepsCaller(s: State, a: Action, j: nat)
    requires Invariant(s) && Step(s, a).Some? && j in Step(s, a).value.callers
    ensures CallerSound(Step(s, a).value, j)
  {
    if a.Tick? || j != a.caller {
      OthersStaySound(s, a, j);
    } else {
      hide BegunUncovered, LastStamp, RecordedBy;
      StepKeepsRecords(s, a);
      if !a.Ask? {
        assert CallerSound(s, j);
      }
    }
  }

  lemma OthersStaySound(s: State, a: Action, j: nat)
    requires Invariant(s) && Step(s, a).Some? && j in Step(s, a).value.callers
    requires a.Tick? || j != a.caller
    ensures CallerSound(Step(s, a).value, j)
  {
    hide BegunUncovered, LastStamp, RecordedBy;
    StepKeepsRecords(s, a);
    assert CallerSound(s, j);
    if !a.Tick? && !a.Ask? {
      assert CallerSound(s, a.caller);
    }
  }

  lemma {:induction false} RunKeepsInvariant(s: State, run: seq<Action>)
    requires Invariant(s)
    ensures Invariant(After(s, run)) && s.tracking <= After(s, run).tracking
    decreases |run|
  {
    if run != [] {
      if Step(s, run[0]).Some? {
        StepKeepsInvariant(s, run[0]);
      }
      RunKeepsInvariant(Taken(s, run[0]), run[1..]);
    }
  }

  lemma {:induction false} AfterAppends(s: State, run: seq<Action>, more: seq<Action>)
    ensures After(s, run + more) == After(After(s, run), more)
    decreases |run|
  {
    if run == [] {
      assert run + more == more;
    } else {
      assert (run + more)[1..] == run[1..] + more;
      AfterAppends(Taken(s, run[0]), run[1..], more);
    }
  }

  /** Whatever the interleaving, a caller that returned without error leaves a tracking ref sampled
      from the remote no earlier than its call time less its allowed age. */
  lemma ReturnedFresh(s: State, run: seq<Action>, i: nat)
    requires Initial(s) && i in After(s, run).callers
    requires After(s, run).callers[i].phase.Returned? && After(s, run).callers[i].phase.ok
    ensures After(s, run).callers[i].since <= After(s, run).tracking
  {
    RunKeepsInvariant(s, run);
    assert CallerSound(After(s, run), i);
  }

  /** The tracking ref is never set back, so what a caller was promised stays true. */
  lemma TrackingNeverGoesBack(s: State, run: seq<Action>, more: seq<Action>)
    requires Initial(s)
    ensures After(s, run).tracking <= After(s, run + more).tracking
  {
    AfterAppends(s, run, more);
    RunKeepsInvariant(s, run);
    RunKeepsInvariant(After(s, run), more);
  }

  // ---------------------------------------------------------------------------
  // Who fetched
  // ---------------------------------------------------------------------------

  ghost predicate FetchedBy(log: seq<Event>, i: nat) {
    exists k :: 0 <= k < |log| && log[k].Fetched? && log[k].caller == i
  }

  /** The log holds a fetch of a caller from the moment it began one. */
  ghost predicate FetchShows(s: State, i: nat) {
    if i !in s.callers then !FetchedBy(s.log, i)
    else
      match s.callers[i].phase
      case Asked(_) => !FetchedBy(s.log, i)
      case Waiting => !FetchedBy(s.log, i)
      case Holding => !FetchedBy(s.log, i)
      case Returned(ok, fetched) => (fetched ==> FetchedBy(s.log, i)) && (ok ==> (fetched <==> FetchedBy(s.log, i)))
      case _ => FetchedBy(s.log, i)
  }

  lemma OneMoreFetch(log: seq<Event>, e: Event, i: nat)
    ensures FetchedBy(log + [e], i) <==> FetchedBy(log, i) || (e.Fetched? && e.caller == i)
  {
    assert (log + [e])[|log|] == e && forall k :: 0 <= k < |log| ==> (log + [e])[k] == log[k];
  }

  lemma StepKeepsFetches(s: State, a: Action, i: nat)
    requires Step(s, a).Some? && FetchShows(s, i)
    ensures FetchShows(Step(s, a).value, i)
  {
    var next := Step(s, a).value;
    if |next.log| > |s.log| {
      OneMoreFetch(s.log, next.log[|s.log|], i);
    }
    hide FetchedBy;
  }

  lemma {:induction false} RunKeepsFetches(s: State, run: seq<Action>, i: nat)
    requires FetchShows(s, i)
    ensures FetchShows(After(s, run), i)
    decreases |run|
  {
    if run != [] {
      if Step(s, run[0]).Some? {
        StepKeepsFetches(s, run[0], i);
      }
      RunKeepsFetches(Taken(s, run[0]), run[1..], i);
    }
  }

  /** A caller that returned without error is told it fetched exactly when it began a fetch, and one told so began
      one whatever else failed. */
  lemma FetchedIsTold(s: State, run: seq<Action>, i: nat)
    requires Initial(s) && i in After(s, run).callers && After(s, run).callers[i].phase.Returned?
    ensures var end := After(s, run);
            && (end.callers[i].phase.ok ==> (end.callers[i].phase.fetched <==> FetchedBy(end.log, i)))
            && (end.callers[i].phase.fetched ==> FetchedBy(end.log, i))
  {
    assert FetchShows(s, i);
    RunKeepsFetches(s, run, i);
  }

  lemma StepKeepsSince(s: State, a: Action, i: nat)
    requires Step(s, a).Some? && i in s.callers
    ensures var next := Step(s, a).value; i in next.callers && next.callers[i].since == s.callers[i].since
  {
  }

  lemma {:induction false} RunKeepsSince(s: State, run: seq<Action>, i: nat)
    requires i in s.callers
    ensures i in After(s, run).callers && After(s, run).callers[i].since == s.callers[i].since
    decreases |run|
  {
    if run != [] {
      if Step(s, run[0]).Some? {
        StepKeepsSince(s, run[0], i);
      }
      RunKeepsSince(Taken(s, run[0]), run[1..], i);
    }
  }

  /** A caller accepts nothing older than its call time less the age it allowed, for as long as it is there; so what
      ReturnedFresh and the rest say of since, they say of that. */
  lemma SinceIsCallTimeLessAge(s: State, run: seq<Action>, i: nat, maxAge: nat, more: seq<Action>)
    requires i !in After(s, run).callers
    ensures var end := After(s, run + [Ask(i, maxAge)] + more);
            i in end.callers && end.callers[i].since == After(s, run).clock - maxAge
  {
    OneMore(s, run, Ask(i, maxAge));
    AfterAppends(s, run + [Ask(i, maxAge)], more);
    hide After;
    RunKeepsSince(After(s, run + [Ask(i, maxAge)]), more, i);
  }

  /** At most one fetch is in flight at a time. */
  lemma OneFetchAtATime(s: State, run: seq<Action>, i: nat, j: nat)
    requires Initial(s) && i in After(s, run).callers && j in After(s, run).callers
    requires Busy(After(s, run).callers[i].phase) && Busy(After(s, run).callers[j].phase)
    ensures i == j
  {
    RunKeepsInvariant(s, run);
    assert CallerSound(After(s, run), i) && CallerSound(After(s, run), j);
  }

  /** A caller that fetches over a stamp whose last write was completed asks for something newer than every
      fetch recorded before; with no allowed age, it asked strictly after each of them began. */
  lemma FetchesOnlyForNewer(s: State, run: seq<Action>, j: nat, k: nat)
    requires Initial(s) && j < k < |After(s, run).log|
    requires After(s, run).log[j].Recorded? && After(s, run).log[k].Fetched?
    requires LastStamp(After(s, run).log[..k]).Began?
    ensures After(s, run).log[j].began < After(s, run).log[k].since
  {
    RunKeepsInvariant(s, run);
    assert BegunUncovered(After(s, run).log, k);
  }

  /** Some recorded fetch is as new as since. */
  ghost predicate RecordedSince(log: seq<Event>, since: int) {
    exists j :: 0 <= j < |log| && log[j].Recorded? && log[j].began >= since
  }

  lemma {:induction false} LastStampIsRecorded(log: seq<Event>)
    requires LastStamp(log).Began?
    ensures RecordedSince(log, LastStamp(log).at)
    decreases |log|
  {
    var n := |log| - 1;
    if log[n].Fetched? {
      LastStampIsRecorded(log[..n]);
      var j :| 0 <= j < n && log[..n][j].Recorded? && log[..n][j].began >= LastStamp(log[..n]).at;
      assert log[j].Recorded?;
    } else {
      assert log[n] == Recorded(LastStamp(log).at);
    }
  }

  /** In any state a run reaches, the stamp covers a caller exactly when some recorded fetch is as new as it asks,
      for every caller alike, exactly when the stamp is whole or no fetch was ever recorded. */
  lemma StampTellsExactlyWhenWhole(s: State, run: seq<Action>)
    requires Initial(s)
    ensures var end := After(s, run);
            (forall since :: Covers(end.stamp, since) <==> RecordedSince(end.log, since)) <==>
              end.stamp.Began? || forall j :: 0 <= j < |end.log| ==> !end.log[j].Recorded?
  {
    RunKeepsInvariant(s, run);
    hide After;
    var end := After(s, run);
    if end.stamp.Began? {
      LastStampIsRecorded(end.log);
      assert RecordedBy(end.log, end.stamp.at);
    } else {
      forall j | 0 <= j < |end.log| && end.log[j].Recorded?
        ensures RecordedSince(end.log, end.log[j].began) && !Covers(end.stamp, end.log[j].began)
      {
      }
    }
  }

  lemma OneMore(s: State, run: seq<Action>, a: Action)
    ensures After(s, run + [a]) == Taken(After(s, run), a)
  {
    AfterAppends(s, run, [a]);
  }

  /** An uncontended caller with no allowed age, from its call to an open stamp. */
  lemma RunToOpenStamp(s: State, run: seq<Action>, i: nat) returns (longer: seq<Action>)
    requires var now := After(s, run); i !in now.callers && now.holder.None? && !Covers(now.stamp, now.clock)
    ensures var now := After(s, run);
            After(s, longer) ==
                State(now.clock, now.clock, Torn, Some(i), now.callers[i := Caller(now.clock, Writing(now.clock))],
                                      now.log + [Fetched(i, now.clock), Tore])
  {
    hide After;
    var now := After(s, run);
    OneMore(s, run, Ask(i, 0));
    longer := run + [Ask(i, 0)];
    OneMore(s, longer, Peek(i));
    longer := longer + [Peek(i)];
    OneMore(s, longer, Acquire(i));
    longer := longer + [Acquire(i)];
    OneMore(s, longer, Check(i));
    longer := longer + [Check(i)];
    var fetching := now.(holder := Some(i), callers := now.callers[i := Caller(now.clock, Fetching(now.clock))],
                         log := now.log + [Fetched(i, now.clock)]);
    assert After(s, longer) == fetching;
    OneMore(s, longer, Sample(i));
    longer := longer + [Sample(i)];
    OneMore(s, longer, Land(i));
    longer := longer + [Land(i)];
    OneMore(s, longer, OpenStamp(i));
    longer := longer + [OpenStamp(i)];
    assert After(s, longer).callers == now.callers[i := Caller(now.clock, Writing(now.clock))];
  }

  /** A torn write forgets the fetches recorded before it: a caller that asked before a recorded fetch
      began can then fetch again. */
  lemma TornStampForgets() returns (s: State, run: seq<Action>, recorded: nat, k: nat)
    ensures Initial(s) && recorded < k < |After(s, run).log|
    ensures After(s, run).log[recorded].Recorded? && After(s, run).log[k].Fetched?
    ensures After(s, run).log[k].since <= After(s, run).log[recorded].began
  {
    hide After, Initial, Step;
    s, run := ThirdAsks();
    run := FirstRecords(s, run);
    run := SecondTears(s, run);
    recorded, k := 2, 5;
  }

  lemma ThirdAsks() returns (s: State, run: seq<Action>)
    ensures Initial(s) && After(s, run) == State(1, 0, Missing, None, map[3 := Caller(0, Asked(0))], [])
  {
    s, run := State(0, 0, Missing, None, map[], []), [];
    assert After(s, run) == s;
    hide After;
    OneMore(s, run, Ask(3, 0));
    run := run + [Ask(3, 0)];
    OneMore(s, run, Tick(1));
    run := run + [Tick(1)];
  }

  lemma FirstRecords(s: State, run: seq<Action>) returns (longer: seq<Action>)
    requires After(s, run) == State(1, 0, Missing, None, map[3 := Caller(0, Asked(0))], [])
    ensures var now := After(s, longer);
            && now.clock == 2 && now.stamp == Began(1) && now.holder.None? && now.callers.Keys == {1, 3}
            && now.callers[3] == Caller(0, Asked(0)) && now.log == [Fetched(1, 1), Tore, Recorded(1)]
  {
    hide After;
    longer := RunToOpenStamp(s, run, 1);
    OneMore(s, longer, CloseStamp(1));
    longer := longer + [CloseStamp(1)];
    OneMore(s, longer, Tick(1));
    longer := longer + [Tick(1)];
  }

  lemma SecondTears(s: State, run: seq<Action>) returns (longer: seq<Action>)
    requires var now := After(s, run);
             && now.clock == 2 && now.stamp == Began(1) && now.holder.None? && now.callers.Keys == {1, 3}
             && now.callers[3] == Caller(0, Asked(0)) && now.log == [Fetched(1, 1), Tore, Recorded(1)]
    ensures After(s, longer).log == [Fetched(1, 1), Tore, Recorded(1), Fetched(2, 2), Tore, Fetched(3, 0)]
  {
    hide After;
    longer := RunToOpenStamp(s, run, 2);
    OneMore(s, longer, Stop(2));
    longer := longer + [Stop(2)];
    var torn := After(s, longer);
    assert torn.stamp == Torn && torn.holder.None? && torn.callers[3] == Caller(0, Asked(0));
    OneMore(s, longer, Peek(3));
    longer := longer + [Peek(3)];
    OneMore(s, longer, Acquire(3));
    longer := longer + [Acquire(3)];
    OneMore(s, longer, Check(3));
    longer := longer + [Check(3)];
  }
}
