/** The overlap policy over whole runs: what is counted, what is delivered, and how many
    runs of one schedule can be going at once. */
module ScheduleOverlap {
  import opened Wrappers
  import Grid
  import opened Journal
  import opened Scheduling
  import opened ScheduleStep
  import opened ScheduleLaws
  import opened SchedulePoll
  import opened ScheduleRuns

  // ----- accounting -----

  function Tick(c: Change, d: Decision): nat {
    if c.op.Dispatch? && c.op.decision == d then 1 else 0
  }

  function Drop(s: Option<Schedule>, c: Change): nat {
    if c.op.Delete? && s.Some? && s.value.held.Some? then 1 else 0
  }

  /** The recorded decisions of one kind about one schedule. */
  function Count(log: seq<Change>, id: string, d: Decision): nat {
    if log == [] then 0
    else
      var last := log[|log| - 1];
      Count(log[..|log| - 1], id, d) + if last.id == id then Tick(last, d) else 0
  }

  /** The deletions that threw a held fire away. */
  function Dropped(log: seq<Change>, id: string): nat {
    if log == [] then 0
    else
      var early, last := log[..|log| - 1], log[|log| - 1];
      Dropped(early, id) + if last.id == id then Drop(Lookup(FoldAll(map[], early), id), last) else 0
  }

  /** What was dispatched are the runs and the releases; what was held was released, is
      held now, or was dropped by the one deletion that ends the schedule. */
  predicate Balances(s: Option<Schedule>, runs: nat, held: nat, released: nat, dropped: nat) {
    match s
    case None => runs == held == released == dropped == 0
    case Some(s) =>
      && s.dispatches == runs + released
      && held == released + dropped + (if s.held.Some? then 1 else 0)
      && dropped <= 1
      && (dropped == 1 ==> !s.active && s.held.None?)
  }

  ghost predicate Balanced(log: seq<Change>, id: string) {
    Balances(Lookup(FoldAll(map[], log), id), Count(log, id, Run), Count(log, id, Held),
             Count(log, id, Decision.Released), Dropped(log, id))
  }

  lemma BalanceStep(s: Option<Schedule>, c: Change, runs: nat, held: nat, released: nat, dropped: nat)
    requires Balances(s, runs, held, released, dropped) && Legal1(s, c)
    ensures Balances(Apply(s, c), runs + Tick(c, Run), held + Tick(c, Held),
                     released + Tick(c, Decision.Released), dropped + Drop(s, c))
  {
  }

  lemma {:induction false} AccountLaw(log: seq<Change>, id: string)
    requires Legal(map[], log)
    ensures Balanced(log, id)
  {
    if log != [] {
      var early, last := log[..|log| - 1], log[|log| - 1];
      AccountLaw(early, id);
      FoldLookup(FoldAll(map[], early), last);
      if last.id == id {
        BalanceStep(Lookup(FoldAll(map[], early), id), last, Count(early, id, Run), Count(early, id, Held),
                    Count(early, id, Decision.Released), Dropped(early, id));
      }
    }
  }

  /** In every reachable state a schedule has been dispatched once for each recorded run and
      release, and every fire ever held was released, is held now, or was dropped by the
      one deletion that can drop it. */
  lemma Accounting(c: Codec<Change>, events: seq<Event>, id: string)
    requires Sound(c)
    ensures Balanced(LogOf(c, Runs(c, events).file), id)
  {
    RunsLawful(c, events);
    AccountLaw(LogOf(c, Runs(c, events).file), id);
  }

  /** The fires that tell the caller to run `id`. */
  function Tally(fires: seq<Fire>, id: string): nat {
    if fires == [] then 0
    else
      var last := fires[|fires| - 1];
      Tally(fires[..|fires| - 1], id) + if last.id == id && Delivers(last.decision) then 1 else 0
  }

  lemma {:induction false} TallyAppend(a: seq<Fire>, b: seq<Fire>, id: string)
    ensures Tally(a + b, id) == Tally(a, id) + Tally(b, id)
  {
    if b == [] {
      assert a + b == a;
    } else {
      TallyAppend(a, b[..|b| - 1], id);
      assert (a + b)[..|a + b| - 1] == a + b[..|b| - 1];
    }
  }

  function DispatchesOf(s: Option<Schedule>): nat {
    if s.Some? then s.value.dispatches else 0
  }

  function Dispatched(ss: Schedules, id: string): nat {
    DispatchesOf(Lookup(ss, id))
  }

  lemma FireTally(s: Option<Schedule>, change: Change)
    requires Legal1(s, change)
    ensures DispatchesOf(Apply(s, change)) == DispatchesOf(s) + Tally(FireOf(s, change), change.id)
  {
    TallyOne(FireOf(s, change), change.id);
  }

  lemma {:induction false} TraceTally(ss: Schedules, log: seq<Change>, id: string)
    requires Legal(ss, log)
    ensures Dispatched(FoldAll(ss, log), id) == Dispatched(ss, id) + Tally(Trace(ss, log), id)
  {
    if log != [] {
      var early, last := log[..|log| - 1], log[|log| - 1];
      TraceTally(ss, early, id);
      var before := FoldAll(ss, early);
      TallyAppend(Trace(ss, early), FireOf(Lookup(before, last.id), last), id);
      if last.id == id {
        FireTally(Lookup(before, id), last);
        FoldLookup(before, last);
      } else {
        TallyOne(FireOf(Lookup(before, last.id), last), id);
        OtherLookup(before, last, id);
      }
    }
  }

  lemma OtherLookup(ss: Schedules, change: Change, id: string)
    requires change.id != id
    ensures Lookup(Fold(ss, change), id) == Lookup(ss, id)
  {
  }

  lemma TallyOne(fires: seq<Fire>, id: string)
    requires |fires| <= 1
    ensures Tally(fires, id) == if fires != [] && fires[0].id == id && Delivers(fires[0].decision) then 1 else 0
  {
    if fires != [] {
      assert fires[..0] == [];
    }
  }

  /** Nothing is handed out that the journal does not count, and when no call is cut short
      everything it counts was handed out: at most once always, exactly once without a
      crash. */
  lemma {:induction false} HandedOnce(c: Codec<Change>, events: seq<Event>, id: string)
    requires Sound(c)
    ensures var h := Runs(c, events);
            && Tally(h.handed, id) <= Dispatched(Memory(c, h.file), id)
            && ((forall e :: e in events ==> e.Done?) ==> Tally(h.handed, id) == Dispatched(Memory(c, h.file), id))
  {
    if events == [] {
      assert Lines([]) == [];
    } else {
      var early, e := events[..|events| - 1], events[|events| - 1];
      HandedOnce(c, early, id);
      var h := Runs(c, early);
      RunsLawful(c, early);
      HandedStep(c, h, e, id);
    }
  }

  lemma HandedStep(c: Codec<Change>, h: History, e: Event, id: string)
    requires Sound(c) && Lawful(c, h)
    ensures var next := Step(c, h, e);
            var more := Tally(Trace(Memory(c, h.file), Kept(c, h, e)), id);
            && Dispatched(Memory(c, next.file), id) == Dispatched(Memory(c, h.file), id) + more
            && Tally(next.handed, id) == Tally(h.handed, id) + if e.Done? then more else 0
  {
    StepRecovers(c, h, e);
    MemorySane(c, h);
    KeptLegal(c, h, e);
    TraceTally(Memory(c, h.file), Kept(c, h, e), id);
    if e.Done? {
      TallyAppend(h.handed, Trace(Memory(c, h.file), Kept(c, h, e)), id);
    }
  }

  // ----- two runs from one poll -----

  /** How many fires of a schedule are to be delivered at `now`: the one it holds, if it is
      free to go, and the one that is due, if the policy lets it run. */
  function Delivered(s: Option<Schedule>, id: string, now: nat, running: set<string>): nat {
    if s.None? then 0
    else
      (if s.value.held.Some? && id !in running then 1 else 0)
      + (if IsDue(s.value, now) && (id !in running || s.value.overlap == Concurrent) then 1 else 0)
  }

  /** One poll delivers just those of each schedule. */
  lemma PollTally(ss: Schedules, now: nat, running: set<string>, id: string)
    requires AllSane(ss)
    ensures Tally(PollFires(ss, now, running), id) == Delivered(Lookup(ss, id), id, now, running)
  {
    PollDispatches(ss, now, running, id);
    PollEffect(ss, now, running, id);
    PollCount(Lookup(ss, id), id, now, running);
  }

  lemma PollDispatches(ss: Schedules, now: nat, running: set<string>, id: string)
    requires AllSane(ss)
    ensures Dispatched(AfterPoll(ss, now, running), id) == Dispatched(ss, id) + Tally(PollFires(ss, now, running), id)
  {
    PollLegal(ss, now, running);
    TraceTally(ss, Recorded(PollFires(ss, now, running), now), id);
  }

  lemma PollCount(s: Option<Schedule>, id: string, now: nat, running: set<string>)
    ensures DispatchesOf(Settled(Freed(s, id, now, running), id, now, running)) ==
            DispatchesOf(s) + Delivered(s, id, now, running)
  {
  }

  /** Queueing does not keep runs of one schedule apart. A poll that comes late enough
      releases the held fire and runs the next occurrence in the same answer, exactly when
      the schedule holds a fire, is not reported running, and is due. */
  lemma QueueDoubles(ss: Schedules, now: nat, running: set<string>, id: string)
    requires AllSane(ss) && id in ss
    ensures Tally(PollFires(ss, now, running), id) == 2 <==>
            ss[id].held.Some? && id !in running && IsDue(ss[id], now)
    ensures Tally(PollFires(ss, now, running), id) <= 2
  {
    PollTally(ss, now, running, id);
  }

  // ----- how many runs go at once -----

  /** What the caller does: it calls the store, and its runs end. */
  datatype Turn = Calls(event: Event) | Ends(id: string)

  function EventsOf(turns: seq<Turn>): seq<Event> {
    if turns == [] then []
    else
      var last := turns[|turns| - 1];
      EventsOf(turns[..|turns| - 1]) + if last.Calls? then [last.event] else []
  }

  /** The runs of `id` going after these turns. A crash takes them down with the process. */
  ghost function Live(c: Codec<Change>, turns: seq<Turn>, id: string): nat {
    if turns == [] then 0
    else
      var early, last := turns[..|turns| - 1], turns[|turns| - 1];
      var before := Live(c, early, id);
      match last
      case Ends(ended) => if ended == id && before > 0 then before - 1 else before
      case Calls(Crashed(_, _)) => 0
      case Calls(Done(q)) =>
        var h := Runs(c, EventsOf(early));
        before + Tally(PlanOf(Memory(c, h.file), h.minted, q).fires, id)
  }

  /** `running` is just the schedules with a run going. */
  ghost predicate Reports(c: Codec<Change>, turns: seq<Turn>, running: set<string>) {
    forall id :: id in running <==> Live(c, turns, id) > 0
  }

  /** Every poll is told exactly which schedules have a run going. */
  ghost predicate Faithful(c: Codec<Change>, turns: seq<Turn>) {
    turns == [] ||
    var early, last := turns[..|turns| - 1], turns[|turns| - 1];
    && Faithful(c, early)
    && (last.Calls? && last.event.Done? && last.event.request.Polling? ==>
          Reports(c, early, last.event.request.running))
  }

  /** The schedule was never declared, or has this policy. */
  predicate Plans(ss: Schedules, id: string, o: Overlap) {
    id in ss ==> ss[id].overlap == o
  }

  lemma OverlapFixed(s: Option<Schedule>, change: Change)
    ensures s.Some? ==> Apply(s, change).Some? && Apply(s, change).value.overlap == s.value.overlap
  {
  }

  lemma {:induction false} PlansBefore(ss: Schedules, log: seq<Change>, id: string, o: Overlap)
    requires Plans(FoldAll(ss, log), id, o)
    ensures Plans(ss, id, o)
  {
    if log != [] {
      var early, last := log[..|log| - 1], log[|log| - 1];
      FoldLookup(FoldAll(ss, early), last);
      OverlapFixed(Lookup(FoldAll(ss, early), last.id), last);
      PlansBefore(ss, early, id, o);
    }
  }

  /** How many runs of one schedule the policy lets go at once, when it sets a bound. */
  function AtOnce(o: Overlap): nat
    requires o != Concurrent
  {
    if o == Skip then 1 else 2
  }

  /** With a caller that reports its runs faithfully there is never more than one run of a
      schedule that skips, and never more than two of one that queues, over any run with
      crashes. */
  lemma {:induction false} RunsAtOnce(c: Codec<Change>, turns: seq<Turn>, id: string, o: Overlap)
    requires Sound(c) && Faithful(c, turns) && o != Concurrent
    requires Plans(Memory(c, Runs(c, EventsOf(turns)).file), id, o)
    ensures Live(c, turns, id) <= AtOnce(o)
  {
    if turns != [] {
      var early, last := turns[..|turns| - 1], turns[|turns| - 1];
      var h := Runs(c, EventsOf(early));
      RunsLawful(c, EventsOf(early));
      if last.Calls? {
        var events := EventsOf(turns);
        assert events[..|events| - 1] == EventsOf(early);
        StepRecovers(c, h, last.event);
        PlansBefore(Memory(c, h.file), Kept(c, h, last.event), id, o);
      } else {
        assert EventsOf(turns) == EventsOf(early);
      }
      RunsAtOnce(c, early, id, o);
      if last.Calls? && last.event.Done? {
        PlanDelivers(c, h, last.event.request, id, o);
      }
    }
  }

  lemma PlanDelivers(c: Codec<Change>, h: History, q: Request, id: string, o: Overlap)
    requires Lawful(c, h) && o != Concurrent && Plans(Memory(c, h.file), id, o)
    ensures Tally(PlanOf(Memory(c, h.file), h.minted, q).fires, id) <=
            if q.Polling? && id !in q.running then AtOnce(o) else 0
  {
    MemorySane(c, h);
    var ss := Memory(c, h.file);
    if q.Polling? {
      PollTally(ss, q.now, q.running, id);
      PlanOfPoll(ss, h.minted, q.now, q.running);
      DeliveredBound(Lookup(ss, id), id, q.now, q.running, o);
    }
  }

  lemma PlanOfPoll(ss: Schedules, minted: nat, now: nat, running: set<string>)
    ensures PlanOf(ss, minted, Polling(now, running)).fires == PollFires(ss, now, running)
  {
  }

  lemma DeliveredBound(s: Option<Schedule>, id: string, now: nat, running: set<string>, o: Overlap)
    requires o != Concurrent && (s.Some? ==> Sane(s.value) && s.value.overlap == o)
    ensures Delivered(s, id, now, running) <= if id in running then 0 else AtOnce(o)
  {
  }

  /** Under `Skip` there is one run of a schedule at most. */
  lemma SkipKeepsOneRun(c: Codec<Change>, turns: seq<Turn>, id: string)
    requires Sound(c) && Faithful(c, turns)
    requires Plans(Memory(c, Runs(c, EventsOf(turns)).file), id, Skip)
    ensures Live(c, turns, id) <= 1
  {
    RunsAtOnce(c, turns, id, Skip);
  }

  // ----- runs that show it -----

  /** A store that has recorded one schedule holds that one. */
  lemma Declared(c: Codec<Change>, d: Draft, now: nat, id: string, s: Schedule)
    requires Sound(c) && d.id == Some(id) && Refusal(map[], d, now).None?
    requires Apply(None, Creation(id, d, now)) == Some(s)
    ensures Memory(c, Runs(c, [Done(Creating(d, now))]).file) == map[id := s]
  {
    var e := Done(Creating(d, now));
    assert [e][..0] == [];
    RunsLawful(c, []);
    HoldsNothing(c);
    HoldsRecover(c, [], []);
    StepRecovers(c, Runs(c, []), e);
    assert Kept(c, Runs(c, []), e) == [Creation(id, d, now)];
    FoldOne(map[], Creation(id, d, now));
  }

  /** What a poll makes of one schedule and delivers of it, in a reachable store. */
  lemma Polled(c: Codec<Change>, events: seq<Event>, now: nat, running: set<string>, id: string, s: Option<Schedule>)
    requires Sound(c) && Lookup(Memory(c, Runs(c, events).file), id) == s
    ensures var after := Memory(c, Runs(c, events + [Done(Polling(now, running))]).file);
            Lookup(after, id) == Settled(Freed(s, id, now, running), id, now, running)
    ensures Tally(PollFires(Memory(c, Runs(c, events).file), now, running), id) == Delivered(s, id, now, running)
  {
    var h := Runs(c, events);
    assert (events + [Done(Polling(now, running))])[..|events|] == events;
    RunsLawful(c, events);
    MemorySane(c, h);
    PollMemory(c, h, now, running);
    PollEffect(Memory(c, h.file), now, running, id);
    PollTally(Memory(c, h.file), now, running, id);
  }

  const MINUTE: nat := MIN_INTERVAL_MS

  /** A sweep once a minute that queues. */
  const SWEEP: Draft := Draft(Some("q"), "sweep", "go", Every(MINUTE, 0), Queue, None)

  function Swept(scheduledAt: nat, dispatches: nat, last: Option<nat>, held: Option<nat>): Schedule {
    Schedule("q", "sweep", "go", Every(MINUTE, 0), Queue, None, scheduledAt, 0, dispatches, last, held, true)
  }

  /** The sweep is declared, runs at the first minute, and is held at the second. */
  function SweepEvents(n: nat): seq<Event>
    requires n <= 2
  {
    if n == 0 then [Done(Creating(SWEEP, 0))]
    else if n == 1 then SweepEvents(0) + [Done(Polling(MINUTE, {}))]
    else SweepEvents(1) + [Done(Polling(2 * MINUTE, {"q"}))]
  }

  /** The sweep after those calls. */
  function SweepState(n: nat): Schedule
    requires n <= 2
  {
    if n == 0 then Swept(MINUTE, 0, None, None)
    else if n == 1 then Swept(2 * MINUTE, 1, Some(MINUTE), None)
    else Swept(3 * MINUTE, 1, Some(MINUTE), Some(2 * MINUTE))
  }

  lemma SweepDeclared()
    ensures Refusal(map[], SWEEP, 0).None? && Apply(None, Creation("q", SWEEP, 0)) == Some(SweepState(0))
  {
    Grid.NextDivides(0, MINUTE, 0);
    assert !IsWhitespace(SWEEP.payload[0]);
  }

  lemma SweepRuns()
    ensures Settled(Some(SweepState(0)), "q", MINUTE, {}) == Some(SweepState(1))
  {
    Grid.NextDivides(0, MINUTE, MINUTE);
  }

  lemma SweepHeld()
    ensures Settled(Some(SweepState(1)), "q", 2 * MINUTE, {"q"}) == Some(SweepState(2))
  {
    Grid.NextDivides(0, MINUTE, 2 * MINUTE);
    Grid.LatestDivides(0, MINUTE, 2 * MINUTE);
  }

  function SweepAt(n: nat, id: string): Option<Schedule>
    requires n <= 2
  {
    if id == "q" then Some(SweepState(n)) else None
  }

  ghost predicate SweepStands(c: Codec<Change>, n: nat, id: string)
    requires n <= 2
  {
    Lookup(Memory(c, Runs(c, SweepEvents(n)).file), id) == SweepAt(n, id)
  }

  lemma SweepStep(c: Codec<Change>, n: nat, now: nat, running: set<string>, id: string)
    requires Sound(c) && n < 2 && SweepStands(c, n, id)
    requires SweepEvents(n + 1) == SweepEvents(n) + [Done(Polling(now, running))]
    requires Settled(Freed(SweepAt(n, id), id, now, running), id, now, running) == SweepAt(n + 1, id)
    ensures SweepStands(c, n + 1, id)
  {
    Polled(c, SweepEvents(n), now, running, id, SweepAt(n, id));
  }

  lemma SweepMemory(c: Codec<Change>, n: nat, id: string)
    requires Sound(c) && n <= 2
    ensures SweepStands(c, n, id)
  {
    if n == 0 {
      SweepDeclared();
      Declared(c, SWEEP, 0, "q", SweepState(0));
    } else if n == 1 {
      SweepMemory(c, 0, id);
      SweepRuns();
      SweepStep(c, 0, MINUTE, {}, id);
    } else {
      SweepMemory(c, 1, id);
      SweepHeld();
      SweepStep(c, 1, 2 * MINUTE, {"q"}, id);
    }
  }

  /** The same calls as a caller makes them whose first run ends before the third minute. */
  function SweepTurns(n: nat): seq<Turn>
    requires n <= 4
  {
    if n == 0 then [Calls(Done(Creating(SWEEP, 0)))]
    else if n == 1 then SweepTurns(0) + [Calls(Done(Polling(MINUTE, {})))]
    else if n == 2 then SweepTurns(1) + [Calls(Done(Polling(2 * MINUTE, {"q"})))]
    else if n == 3 then SweepTurns(2) + [Ends("q")]
    else SweepTurns(3) + [Calls(Done(Polling(3 * MINUTE, {})))]
  }

  lemma EventsMore(turns: seq<Turn>, turn: Turn)
    ensures EventsOf(turns + [turn]) == if turn.Calls? then EventsOf(turns) + [turn.event] else EventsOf(turns)
  {
    assert (turns + [turn])[..|turns|] == turns;
  }

  lemma SweepEventsOf(n: nat)
    requires n <= 3
    ensures EventsOf(SweepTurns(n)) == SweepEvents(if n <= 2 then n else 2)
  {
    if n == 0 {
      assert EventsOf([]) == [];
      EventsMore([], Calls(Done(Creating(SWEEP, 0))));
      assert [] + SweepTurns(0) == SweepTurns(0);
    } else {
      SweepEventsOf(n - 1);
      EventsMore(SweepTurns(n - 1), SweepTurns(n)[|SweepTurns(n)| - 1]);
    }
  }

  /** One more poll starts what it delivers. */
  lemma LivePoll(c: Codec<Change>, turns: seq<Turn>, now: nat, running: set<string>, id: string)
    ensures var poll := Calls(Done(Polling(now, running)));
            Live(c, turns + [poll], id) ==
            Live(c, turns, id) + Tally(PollFires(Memory(c, Runs(c, EventsOf(turns)).file), now, running), id)
  {
    assert (turns + [Calls(Done(Polling(now, running)))])[..|turns|] == turns;
  }

  /** A poll after the sweep's turn `n` starts what the sweep then delivers. */
  lemma SweepPoll(c: Codec<Change>, n: nat, now: nat, running: set<string>, id: string)
    requires Sound(c) && n <= 3
    ensures Live(c, SweepTurns(n) + [Calls(Done(Polling(now, running)))], id) ==
            Live(c, SweepTurns(n), id) + Delivered(SweepAt(if n <= 2 then n else 2, id), id, now, running)
  {
    var k := if n <= 2 then n else 2;
    SweepEventsOf(n);
    SweepMemory(c, k, id);
    Polled(c, SweepEvents(k), now, running, id, SweepAt(k, id));
    LivePoll(c, SweepTurns(n), now, running, id);
  }

  lemma SweepDelivers(id: string)
    ensures Delivered(SweepAt(0, id), id, MINUTE, {}) == (if id == "q" then 1 else 0)
    ensures Delivered(SweepAt(1, id), id, 2 * MINUTE, {"q"}) == 0
    ensures Delivered(SweepAt(2, id), id, 3 * MINUTE, {}) == (if id == "q" then 2 else 0)
  {
  }

  /** The runs going after each turn: one after the first poll until it ends, and two at
      once after the last. */
  function SweepLives(n: nat, id: string): nat {
    if id != "q" || n == 0 || n == 3 then 0 else if n == 4 then 2 else 1
  }

  lemma SweepBegins(c: Codec<Change>, id: string)
    ensures Live(c, SweepTurns(0), id) == 0 && Faithful(c, SweepTurns(0))
  {
    assert SweepTurns(0)[..0] == [];
    assert Live(c, [], id) == 0 && Faithful(c, []);
  }

  lemma SweepEnds(c: Codec<Change>, id: string)
    requires Live(c, SweepTurns(2), id) == SweepLives(2, id)
    ensures Live(c, SweepTurns(3), id) == 0
  {
    assert SweepTurns(3)[..|SweepTurns(2)|] == SweepTurns(2);
  }

  lemma SweepLive(c: Codec<Change>, n: nat, id: string)
    requires Sound(c) && n <= 4
    ensures Live(c, SweepTurns(n), id) == SweepLives(n, id)
  {
    SweepDelivers(id);
    if n == 0 {
      SweepBegins(c, id);
    } else {
      SweepLive(c, n - 1, id);
      if n == 1 {
        SweepPoll(c, 0, MINUTE, {}, id);
      } else if n == 2 {
        SweepPoll(c, 1, 2 * MINUTE, {"q"}, id);
      } else if n == 3 {
        SweepEnds(c, id);
      } else {
        SweepPoll(c, 3, 3 * MINUTE, {}, id);
      }
    }
  }

  lemma FaithfulMore(c: Codec<Change>, turns: seq<Turn>, turn: Turn)
    requires Faithful(c, turns)
    requires turn.Calls? && turn.event.Done? && turn.event.request.Polling? ==>
               Reports(c, turns, turn.event.request.running)
    ensures Faithful(c, turns + [turn])
  {
    assert (turns + [turn])[..|turns|] == turns;
  }

  lemma SweepReports(c: Codec<Change>, n: nat)
    requires Sound(c) && n <= 3
    ensures Reports(c, SweepTurns(n), if n == 1 || n == 2 then {"q"} else {})
  {
    forall id ensures Live(c, SweepTurns(n), id) == SweepLives(n, id) {
      SweepLive(c, n, id);
    }
  }

  lemma SweepFaithful(c: Codec<Change>, n: nat)
    requires Sound(c) && n <= 4
    ensures Faithful(c, SweepTurns(n))
  {
    if n == 0 {
      SweepBegins(c, "q");
    } else {
      SweepFaithful(c, n - 1);
      SweepReports(c, n - 1);
      FaithfulMore(c, SweepTurns(n - 1), SweepTurns(n)[|SweepTurns(n)| - 1]);
    }
  }

  /** A run of calls on any sound codec, by a caller that reports its runs faithfully, after
      which two runs of one queueing schedule are going: both were started by one poll. */
  lemma QueueDoublesReachably(c: Codec<Change>)
    requires Sound(c)
    ensures Faithful(c, SweepTurns(4)) && Live(c, SweepTurns(4), "q") == 2 && Live(c, SweepTurns(3), "q") == 0
    ensures Plans(Memory(c, Runs(c, EventsOf(SweepTurns(3))).file), "q", Queue)
  {
    SweepFaithful(c, 4);
    SweepLive(c, 4, "q");
    SweepLive(c, 3, "q");
    SweepEventsOf(3);
    SweepMemory(c, 2, "q");
  }

  // ----- what deleting stops -----

  /** Nothing can come of the schedule any more. */
  predicate Dormant(s: Schedule) {
    !s.active && s.held.None?
  }

  lemma {:induction false} DormantUntouched(ss: Schedules, log: seq<Change>, id: string)
    requires Legal(ss, log) && id in ss && Dormant(ss[id])
    ensures forall k :: 0 <= k < |log| ==> log[k].id != id
  {
    if log != [] {
      DormantUntouched(ss, log[..|log| - 1], id);
      FoldFrame(ss, log[..|log| - 1], id);
    }
  }

  lemma DormantStays(ss: Schedules, log: seq<Change>, id: string)
    requires Legal(ss, log) && id in ss && Dormant(ss[id])
    ensures Tally(Trace(ss, log), id) == 0
  {
    DormantUntouched(ss, log, id);
    FoldFrame(ss, log, id);
    TraceTally(ss, log, id);
  }

  function AfterDelete(ss: Schedules, id: string, now: nat): Schedules {
    if DeleteAnswer(ss, id) == Ok(true) then Fold(ss, Change(id, now, Op.Delete)) else ss
  }

  /** Deleting a schedule that exists stops it for good exactly when it was active or held
      nothing. A one-shot whose only fire is held counts as inactive, so the deletion is
      answered `false`, records nothing, and the held fire still goes out. */
  lemma DeleteStops(ss: Schedules, id: string, now: nat)
    requires AllSane(ss) && id in ss
    ensures (forall log :: Legal(AfterDelete(ss, id, now), log) ==>
               Tally(Trace(AfterDelete(ss, id, now), log), id) == 0)
            <==> ss[id].active || ss[id].held.None?
  {
    var after := AfterDelete(ss, id, now);
    if ss[id].active || ss[id].held.None? {
      forall log | Legal(after, log) ensures Tally(Trace(after, log), id) == 0 {
        DormantStays(after, log, id);
      }
    } else {
      var log := StillFires(ss, id, now);
      assert Legal(after, log) && Tally(Trace(after, log), id) != 0;
    }
  }

  /** What is held goes out with the next poll. */
  lemma StillFires(ss: Schedules, id: string, now: nat) returns (log: seq<Change>)
    requires AllSane(ss) && id in ss && ss[id].held.Some?
    ensures Legal(ss, log) && Tally(Trace(ss, log), id) > 0
  {
    log := Recorded(PollFires(ss, now, {}), now);
    PollLegal(ss, now, {});
    PollTally(ss, now, {}, id);
  }

  /** A reminder for one instant that queues. */
  const REMINDER: Draft := Draft(Some("q"), "reminder", "go", At(5), Queue, None)

  function Reminded(held: Option<nat>, active: bool): Schedule {
    Schedule("q", "reminder", "go", At(5), Queue, None, 5, 0, 0, None, held, active)
  }

  lemma ReminderDeclared()
    ensures Refusal(map[], REMINDER, 0).None? && Apply(None, Creation("q", REMINDER, 0)) == Some(Reminded(None, true))
  {
    assert !IsWhitespace(REMINDER.payload[0]);
  }

  lemma ReminderHeld()
    ensures Settled(Freed(Some(Reminded(None, true)), "q", 5, {"q"}), "q", 5, {"q"}) == Some(Reminded(Some(5), false))
    ensures Delivered(Some(Reminded(Some(5), false)), "q", 6, {}) == 1
  {
  }

  /** A run on any sound codec in which a deletion is answered `false`, writes nothing, and
      the deleted schedule is delivered by the next poll. */
  lemma DeletedStillFires(c: Codec<Change>) returns (events: seq<Event>)
    requires Sound(c)
    ensures var deleted := events + [Done(Deleting("q", 6))];
            && DeleteAnswer(Memory(c, Runs(c, events).file), "q") == Ok(false)
            && Runs(c, deleted) == Runs(c, events)
            && Tally(PollFires(Memory(c, Runs(c, deleted).file), 6, {}), "q") == 1
  {
    events := ReminderEvents(c);
    ReminderHeld();
    Polled(c, events, 6, {}, "q", Some(Reminded(Some(5), false)));
    DeleteNothing(c, events, "q", 6);
  }

  lemma ReminderEvents(c: Codec<Change>) returns (events: seq<Event>)
    requires Sound(c)
    ensures Lookup(Memory(c, Runs(c, events).file), "q") == Some(Reminded(Some(5), false))
  {
    var early := [Done(Creating(REMINDER, 0))];
    ReminderDeclared();
    Declared(c, REMINDER, 0, "q", Reminded(None, true));
    ReminderHeld();
    Polled(c, early, 5, {"q"}, "q", Some(Reminded(None, true)));
    events := early + [Done(Polling(5, {"q"}))];
  }

  lemma DeleteNothing(c: Codec<Change>, events: seq<Event>, id: string, now: nat)
    requires DeleteAnswer(Memory(c, Runs(c, events).file), id) != Ok(true)
    ensures Runs(c, events + [Done(Deleting(id, now))]) == Runs(c, events)
  {
    var h := Runs(c, events);
    assert (events + [Done(Deleting(id, now))])[..|events|] == events;
    assert h.file + Encode(c, []) == h.file && h.handed + [] == h.handed;
  }
}
