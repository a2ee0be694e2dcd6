/** Whole runs of the schedule store over the bytes of its file: calls that return, and
    crashes that keep any prefix of what a call was writing. */
module ScheduleRuns {
  import opened Wrappers
  import Grid
  import opened Journal
  import opened Scheduling
  import opened ScheduleStep
  import opened ScheduleLaws
  import opened SchedulePoll

  /** A call that returned, or one that a crash cut short after `kept` bytes of what it was
      writing; the store is then opened again. */
  datatype Event = Done(request: Request) | Crashed(request: Request, kept: nat)

  /** The file, the id counter in memory, and every fire a poll has answered. */
  datatype History = History(file: seq<byte>, minted: nat, handed: seq<Fire>)

  function LogOf(c: Codec<Change>, file: seq<byte>): seq<Change> {
    match Recover(c, file)
    case Found(log, _) => log
    case Corrupt(_) => []
  }

  /** The schedules a store over this file holds in memory. */
  function Memory(c: Codec<Change>, file: seq<byte>): Schedules {
    FoldAll(map[], LogOf(c, file))
  }

  ghost function Step(c: Codec<Change>, h: History, e: Event): History {
    var p := PlanOf(Memory(c, h.file), h.minted, e.request);
    var written := Encode(c, p.changes);
    match e
    case Done(_) => History(h.file + written, p.minted, h.handed + p.fires)
    case Crashed(_, kept) =>
      var left := h.file + written[..if kept <= |written| then kept else |written|];
      History(left[..Boundary(left)], 0, h.handed)
  }

  /** The store created on an empty file and put through `events`. */
  ghost function Runs(c: Codec<Change>, events: seq<Event>): History {
    if events == [] then History([], 0, [])
    else Step(c, Runs(c, events[..|events| - 1]), events[|events| - 1])
  }

  // ----- every call is lawful -----

  lemma LegalOne(ss: Schedules, change: Change)
    requires Legal1(Lookup(ss, change.id), change)
    ensures Legal(ss, [change])
    ensures Trace(ss, [change]) == FireOf(Lookup(ss, change.id), change)
  {
    assert [change][..0] == [];
    assert FoldAll(ss, []) == ss && Trace(ss, []) == [];
  }

  lemma PlanLegal(ss: Schedules, minted: nat, q: Request)
    requires AllSane(ss)
    ensures var p := PlanOf(ss, minted, q);
            Legal(ss, p.changes) && Trace(ss, p.changes) == p.fires
  {
    match q
    case Creating(d, now) =>
      if Refusal(ss, d, now).None? {
        LegalOne(ss, PlanOf(ss, minted, q).changes[0]);
      }
    case Deleting(id, now) =>
      if DeleteAnswer(ss, id) == Ok(true) {
        LegalOne(ss, Change(id, now, Op.Delete));
      }
    case Polling(now, running) =>
      PollLegal(ss, now, running);
  }

  // ----- every run is lawful -----

  /** The file is whole, the records on it are lawful from nothing, and everything handed
      out lies in each schedule's past. */
  ghost predicate Lawful(c: Codec<Change>, h: History) {
    var log := LogOf(c, h.file);
    && Holds(c, h.file, log) && Legal(map[], log)
    && Rising(h.handed) && AllPast(Memory(c, h.file), h.handed)
  }

  /** The records a call leaves on the file: all of them, or those whose newline survived
      the crash. */
  ghost function Kept(c: Codec<Change>, h: History, e: Event): seq<Change> {
    var changes := PlanOf(Memory(c, h.file), h.minted, e.request).changes;
    match e
    case Done(_) => changes
    case Crashed(_, kept) =>
      changes[..Survivors(c, changes, if kept <= |Encode(c, changes)| then kept else |Encode(c, changes)|)]
  }

  /** One event adds exactly the kept records to the journal. */
  lemma StepRecovers(c: Codec<Change>, h: History, e: Event)
    requires Sound(c) && Holds(c, h.file, LogOf(c, h.file))
    ensures var next := Step(c, h, e);
            && Holds(c, next.file, LogOf(c, next.file))
            && LogOf(c, next.file) == LogOf(c, h.file) + Kept(c, h, e)
            && Memory(c, next.file) == FoldAll(Memory(c, h.file), Kept(c, h, e))
  {
    FoldAppend(map[], LogOf(c, h.file), Kept(c, h, e));
    var log := LogOf(c, h.file);
    var changes := PlanOf(Memory(c, h.file), h.minted, e.request).changes;
    var next := Step(c, h, e);
    match e
    case Done(_) =>
      AppendHolds(c, h.file, log, changes);
      HoldsRecover(c, next.file, log + changes);
    case Crashed(_, kept) =>
      var n := if kept <= |Encode(c, changes)| then kept else |Encode(c, changes)|;
      CutRecovers(c, h.file, log, changes, n);
      HoldsRecover(c, next.file, log + Kept(c, h, e));
  }

  lemma NothingSane()
    ensures AllSane(map[])
  {
  }

  lemma KeptLegal(c: Codec<Change>, h: History, e: Event)
    requires AllSane(Memory(c, h.file))
    ensures Legal(Memory(c, h.file), Kept(c, h, e))
    ensures e.Done? ==> Trace(Memory(c, h.file), Kept(c, h, e)) == PlanOf(Memory(c, h.file), h.minted, e.request).fires
  {
    var changes := PlanOf(Memory(c, h.file), h.minted, e.request).changes;
    PlanLegal(Memory(c, h.file), h.minted, e.request);
    LegalPrefix(Memory(c, h.file), changes, |Kept(c, h, e)|);
  }

  lemma MemorySane(c: Codec<Change>, h: History)
    requires Lawful(c, h)
    ensures AllSane(Memory(c, h.file))
  {
    NothingSane();
    LegalSane(map[], LogOf(c, h.file));
  }

  lemma StepLawful(c: Codec<Change>, h: History, e: Event)
    requires Sound(c) && Lawful(c, h)
    ensures Lawful(c, Step(c, h, e))
  {
    var ss, kept := Memory(c, h.file), Kept(c, h, e);
    StepRecovers(c, h, e);
    MemorySane(c, h);
    KeptLegal(c, h, e);
    LegalAppend(map[], LogOf(c, h.file), kept);
    TraceRising(ss, h.handed, kept);
    StillRising(FoldAll(ss, kept), h.handed, Trace(ss, kept));
  }

  /** Fires a crash swallowed are simply not handed out. */
  lemma StillRising(ss: Schedules, fires: seq<Fire>, lost: seq<Fire>)
    requires Rising(fires + lost) && AllPast(ss, fires + lost)
    ensures Rising(fires) && AllPast(ss, fires)
  {
    var both := fires + lost;
    assert forall i :: 0 <= i < |fires| ==> both[i] == fires[i];
    assert forall f :: f in fires ==> f in both;
  }

  lemma {:induction false} RunsLawful(c: Codec<Change>, events: seq<Event>)
    requires Sound(c)
    ensures Lawful(c, Runs(c, events))
  {
    if events == [] {
      HoldsNothing(c);
      HoldsRecover(c, [], []);
    } else {
      RunsLawful(c, events[..|events| - 1]);
      StepLawful(c, Runs(c, events[..|events| - 1]), events[|events| - 1]);
    }
  }

  /** No occurrence is ever handed out twice, whatever the clocks, the running sets and the
      crashes: for one schedule the instants delivered rise strictly over the whole run. */
  lemma NeverTwice(c: Codec<Change>, events: seq<Event>)
    requires Sound(c)
    ensures Rising(Runs(c, events).handed)
  {
    RunsLawful(c, events);
  }

  // ----- the grid never drifts -----

  /** The change settles when its schedule is next due. */
  predicate Decides(change: Change) {
    change.op.Create? || (change.op.Dispatch? && change.op.decision != Decision.Released)
  }

  /** The clock of the last change that settled when `id` is next due. */
  function Clock(log: seq<Change>, id: string): nat {
    if log == [] then 0
    else
      var last := log[|log| - 1];
      if last.id == id && Decides(last) then last.at else Clock(log[..|log| - 1], id)
  }

  /** The schedule is next due where its rule puts the first occurrence after `clock`. */
  predicate OnClock(s: Schedule, clock: nat) {
    && s.createdAt <= clock
    && match s.rule
       case At(atMs) => s.scheduledAt == atMs && (s.active ==> clock < atMs)
       case Every(interval, anchor) => s.scheduledAt == Grid.Next(anchor, interval, clock)
  }

  lemma ClockStep(s: Option<Schedule>, change: Change, clock: nat)
    requires Legal1(s, change) && (s.Some? ==> OnClock(s.value, clock))
    ensures Apply(s, change).Some? && (s.Some? ==> Apply(s, change).value.id == s.value.id)
    ensures OnClock(Apply(s, change).value, if Decides(change) then change.at else clock)
    ensures s.Some? && Decides(change) ==> clock <= change.at
  {
    if s.Some? && s.value.rule.Every? {
      Grid.NextIsLeast(s.value.rule.anchorMs, s.value.rule.intervalMs, clock);
    }
  }

  /** Every decision about the schedule came at or before `clock`. */
  predicate DecidedBy(log: seq<Change>, id: string, clock: nat) {
    forall k :: 0 <= k < |log| && log[k].id == id && Decides(log[k]) ==> log[k].at <= clock
  }

  lemma {:induction false} GridLaw(log: seq<Change>, id: string)
    requires Legal(map[], log)
    ensures var s := Lookup(FoldAll(map[], log), id);
            && DecidedBy(log, id, Clock(log, id))
            && (s.None? ==> forall k :: 0 <= k < |log| ==> log[k].id != id)
            && (s.Some? ==> s.value.id == id && OnClock(s.value, Clock(log, id)))
  {
    if log != [] {
      var early, last := log[..|log| - 1], log[|log| - 1];
      GridLaw(early, id);
      assert log == early + [last];
      if last.id == id {
        ClockStep(Lookup(FoldAll(map[], early), id), last, Clock(early, id));
      }
    }
  }

  /** The recurrence is due at its anchor plus a whole number of intervals, the least such
      after its creation clock and every clock at which an occurrence was decided, so it is
      never more than one interval past the latest of those once the grid has started. */
  ghost predicate OnItsGrid(s: Schedule, log: seq<Change>)
    requires s.rule.Every?
  {
    var anchor, interval, latest := s.rule.anchorMs, s.rule.intervalMs, Clock(log, s.id);
    && s.createdAt <= latest && DecidedBy(log, s.id, latest)
    && Grid.IsLeastAfter(anchor, interval, latest, s.scheduledAt)
    && (anchor <= latest ==> s.scheduledAt <= latest + interval)
  }

  /** In every reachable state every recurrence keeps to its grid. */
  lemma GridNeverDrifts(c: Codec<Change>, events: seq<Event>, id: string)
    requires Sound(c)
    ensures var log := LogOf(c, Runs(c, events).file);
            var s := Lookup(Memory(c, Runs(c, events).file), id);
            s.Some? && s.value.rule.Every? ==> s.value.id == id && OnItsGrid(s.value, log)
  {
    RunsLawful(c, events);
    var log := LogOf(c, Runs(c, events).file);
    var s := Lookup(FoldAll(map[], log), id);
    GridLaw(log, id);
    if s.Some? && s.value.rule.Every? {
      Grid.LeastWhole(s.value.rule.anchorMs, s.value.rule.intervalMs, Clock(log, id));
    }
  }

  /** After a poll that returned, nothing is due at its clock, and the same poll again
      answers nothing and leaves the file as it is. */
  lemma PollAgain(c: Codec<Change>, events: seq<Event>, now: nat, running: set<string>)
    requires Sound(c)
    ensures var once := Step(c, Runs(c, events), Done(Polling(now, running)));
            && NothingDue(Memory(c, once.file), now)
            && Step(c, once, Done(Polling(now, running))) == once
  {
    var h := Runs(c, events);
    RunsLawful(c, events);
    MemorySane(c, h);
    PollMemory(c, h, now, running);
    PollSettles(Memory(c, h.file), now, running);
    QuietStep(c, Step(c, h, Done(Polling(now, running))), now, running);
  }

  lemma PollMemory(c: Codec<Change>, h: History, now: nat, running: set<string>)
    requires Sound(c) && Lawful(c, h)
    ensures Memory(c, Step(c, h, Done(Polling(now, running))).file) == AfterPoll(Memory(c, h.file), now, running)
  {
    StepRecovers(c, h, Done(Polling(now, running)));
    PollKept(c, h, now, running);
  }

  lemma PollKept(c: Codec<Change>, h: History, now: nat, running: set<string>)
    ensures Kept(c, h, Done(Polling(now, running))) == Recorded(PollFires(Memory(c, h.file), now, running), now)
  {
  }

  lemma QuietStep(c: Codec<Change>, h: History, now: nat, running: set<string>)
    requires PollFires(Memory(c, h.file), now, running) == []
    ensures Step(c, h, Done(Polling(now, running))) == h
  {
    assert Recorded([], now) == [];
    assert h.file + Encode(c, []) == h.file;
    assert h.handed + [] == h.handed;
  }
}
