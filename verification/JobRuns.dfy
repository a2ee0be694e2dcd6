/** Whole runs of the job store over the bytes of its file: calls that return, crashes that
    keep any prefix of what a call was writing, and opens that may themselves be cut short. */
module JobRuns {
  import opened Wrappers
  import opened Journal
  import opened Jobs
  import Minting

  datatype Error =
    | BadName(what: string, value: string)
    | Duplicate(id: string)
    | NoSuchJob(id: string)
    | NotStartable(id: string, status: Status)
    | AlreadyEnded(id: string, status: Status)
    | CorruptLine(line: nat)

  datatype Request =
    | Opening(at: nat)
    | Queueing(name: Option<string>, kind: string, title: string, session: Option<string>, at: nat)
    | Starting(id: string, at: nat)
    | Finishing(id: string, status: Status, detail: Option<string>, output: Option<string>, at: nat)

  /** Why a call is refused, in the order the store looks. */
  function Refusal(jobs: Table, q: Request): Option<Error> {
    match q
    case Opening(_) => None
    case Queueing(id, kind, _, _, _) =>
      if !Minting.IsShaped(kind) then Some(BadName("kind", kind))
      else if id.None? then None
      else if !Minting.IsShaped(id.value) then Some(BadName("job id", id.value))
      else if id.value in jobs then Some(Duplicate(id.value))
      else None
    case Starting(id, _) =>
      if id !in jobs then Some(NoSuchJob(id))
      else if jobs[id].status != Queued then Some(NotStartable(id, jobs[id].status))
      else None
    case Finishing(id, _, _, _, _) =>
      if id !in jobs then Some(NoSuchJob(id))
      else if jobs[id].status.IsTerminal() then Some(AlreadyEnded(id, jobs[id].status))
      else None
  }

  /** The transitions a call appends, in order, and the id counter it leaves. */
  datatype Plan = Plan(changes: seq<Transition>, minted: nat)

  ghost function PlanOf(jobs: Table, minted: nat, q: Request): Plan {
    if Refusal(jobs, q).Some? then Plan([], minted)
    else
      match q
      case Opening(at) => Plan(Repairs(jobs, at), 0)
      case Queueing(id, kind, title, session, at) =>
        var n := if id.Some? then minted else Minting.Fresh(kind, jobs.Keys, minted);
        var name := if id.Some? then id.value else Minting.Name(kind, n);
        Plan([Transition(name, at, Queue(kind, title, session))], n)
      case Starting(id, at) => Plan([Transition(id, at, Start)], minted)
      case Finishing(id, status, detail, output, at) =>
        Plan([Transition(id, at, Finish(status, detail, output))], minted)
  }

  // ----- runs -----

  datatype Event = Done(request: Request) | Crashed(request: Request, kept: nat)

  /** The file, the id counter, and whether a process has the store open. */
  datatype History = History(file: seq<byte>, minted: nat, open: bool)

  function LogOf(c: Codec<Transition>, file: seq<byte>): seq<Transition> {
    match Recover(c, file)
    case Found(log, _) => log
    case Corrupt(_) => []
  }

  function Memory(c: Codec<Transition>, file: seq<byte>): Table {
    FoldAll(map[], LogOf(c, file))
  }

  /** The file a call starts writing on: an open first drops the tail with no newline. */
  function Base(h: History, q: Request): seq<byte> {
    if q.Opening? then h.file[..Boundary(h.file)] else h.file
  }

  /** A store that is not open answers nothing but an open. */
  predicate Answers(h: History, q: Request) {
    h.open || q.Opening?
  }

  ghost function Step(c: Codec<Transition>, h: History, e: Event): History {
    if !Answers(h, e.request) then h
    else
      var p := PlanOf(Memory(c, h.file), h.minted, e.request);
      var written := Encode(c, p.changes);
      match e
      case Done(q) => History(Base(h, q) + written, p.minted, true)
      case Crashed(q, kept) =>
        History(Base(h, q) + written[..if kept <= |written| then kept else |written|], 0, false)
  }

  /** A path with no file, and what `events` make of it. */
  ghost function Runs(c: Codec<Transition>, events: seq<Event>): History {
    if events == [] then History([], 0, false)
    else Step(c, Runs(c, events[..|events| - 1]), events[|events| - 1])
  }

  /** The journal reads as lawful transitions from nothing, and the file is whole while a
      process has it open. */
  ghost predicate Lawful(c: Codec<Transition>, h: History) {
    var log := LogOf(c, h.file);
    && Recover(c, h.file).Found?
    && Legal(map[], log)
    && (h.open ==> Holds(c, h.file, log))
  }

  ghost function Kept(c: Codec<Transition>, h: History, e: Event): seq<Transition> {
    if !Answers(h, e.request) then []
    else
      var changes := PlanOf(Memory(c, h.file), h.minted, e.request).changes;
      match e
      case Done(_) => changes
      case Crashed(_, kept) =>
        changes[..Survivors(c, changes, if kept <= |Encode(c, changes)| then kept else |Encode(c, changes)|)]
  }

  lemma BaseHolds(c: Codec<Transition>, h: History, q: Request)
    requires Lawful(c, h) && Answers(h, q)
    ensures Holds(c, Base(h, q), LogOf(c, h.file))
  {
    TruncateHolds(c, h.file);
  }

  /** One event adds exactly the kept transitions to what the journal reads as. */
  lemma StepRecovers(c: Codec<Transition>, h: History, e: Event)
    requires Sound(c) && Lawful(c, h)
    ensures var next, log := Step(c, h, e), LogOf(c, h.file) + Kept(c, h, e);
            && Recover(c, next.file).Found? && LogOf(c, next.file) == log
            && (next.open ==> Holds(c, next.file, log))
            && Memory(c, next.file) == FoldAll(Memory(c, h.file), Kept(c, h, e))
  {
    var log := LogOf(c, h.file);
    FoldAppend(map[], log, Kept(c, h, e));
    if !Answers(h, e.request) {
      assert log + [] == log;
    } else {
      var changes := PlanOf(Memory(c, h.file), h.minted, e.request).changes;
      var base := Base(h, e.request);
      BaseHolds(c, h, e.request);
      match e
      case Done(q) =>
        AppendHolds(c, base, log, changes);
        HoldsRecover(c, base + Encode(c, changes), log + changes);
      case Crashed(q, kept) =>
        CutRecovers(c, base, log, changes, if kept <= |Encode(c, changes)| then kept else |Encode(c, changes)|);
    }
  }

  lemma LegalOne(jobs: Table, t: Transition)
    requires Legal1(Lookup(jobs, t.id), t)
    ensures Legal(jobs, [t])
  {
    assert [t][..0] == [];
    assert FoldAll(jobs, []) == jobs;
  }

  lemma PlanLegal(jobs: Table, minted: nat, q: Request)
    ensures Legal(jobs, PlanOf(jobs, minted, q).changes)
  {
    var p := PlanOf(jobs, minted, q);
    if Refusal(jobs, q).None? {
      if q.Opening? {
        RepairCloses(jobs, q.at);
      } else {
        LegalOne(jobs, p.changes[0]);
      }
    }
  }

  lemma StepLawful(c: Codec<Transition>, h: History, e: Event)
    requires Sound(c) && Lawful(c, h)
    ensures Lawful(c, Step(c, h, e))
    ensures Legal(Memory(c, h.file), Kept(c, h, e))
  {
    var jobs := Memory(c, h.file);
    var changes := PlanOf(jobs, h.minted, e.request).changes;
    StepRecovers(c, h, e);
    PlanLegal(jobs, h.minted, e.request);
    LegalPrefix(jobs, changes, |Kept(c, h, e)|);
    LegalAppend(map[], LogOf(c, h.file), Kept(c, h, e));
  }

  /** Every reachable file reads as a lawful journal, whatever the calls, the crashes and
      the opens cut short. */
  lemma {:induction false} RunsLawful(c: Codec<Transition>, events: seq<Event>)
    requires Sound(c)
    ensures Lawful(c, Runs(c, events))
  {
    if events == [] {
      HoldsNothing(c);
      HoldsRecover(c, [], []);
    } else {
      RunsLawful(c, events[..|events| - 1]);
      StepLawful(c, Runs(c, events[..|events| - 1]), events[|events| - 1]);
    }
  }

  // ----- the life of a job -----

  /** Over every run with crashes at any byte and opens cut short, each job was queued once,
      nothing of it follows its end, every start found it queued, and it stands where its
      story leaves it. */
  lemma JobStory(c: Codec<Transition>, events: seq<Event>, id: string)
    requires Sound(c)
    ensures IsStory(Story(LogOf(c, Runs(c, events).file), id), Lookup(Memory(c, Runs(c, events).file), id))
  {
    RunsLawful(c, events);
    LegalStory(LogOf(c, Runs(c, events).file), id);
  }

  /** A call that settles this job asks for an end. The store does not check it. */
  predicate AsksProperly(e: Event, id: string) {
    e.request.Finishing? && e.request.id == id ==> e.request.status.IsTerminal()
  }

  lemma PlanProperly(jobs: Table, minted: nat, e: Event, id: string)
    requires AsksProperly(e, id)
    ensures EndsProperly(PlanOf(jobs, minted, e.request).changes, id)
  {
  }

  lemma ProperPrefix(log: seq<Transition>, k: nat, id: string)
    requires k <= |log| && EndsProperly(log, id)
    ensures EndsProperly(log[..k], id)
  {
  }

  lemma KeptProperly(c: Codec<Transition>, h: History, e: Event, id: string)
    requires AsksProperly(e, id)
    ensures EndsProperly(Kept(c, h, e), id)
  {
    var changes := PlanOf(Memory(c, h.file), h.minted, e.request).changes;
    PlanProperly(Memory(c, h.file), h.minted, e, id);
    ProperPrefix(changes, |Kept(c, h, e)|, id);
    assert e.Done? && Answers(h, e.request) ==> changes[..|changes|] == changes;
  }

  lemma {:induction false} RunsProperly(c: Codec<Transition>, events: seq<Event>, id: string)
    requires Sound(c) && forall e :: e in events ==> AsksProperly(e, id)
    ensures EndsProperly(LogOf(c, Runs(c, events).file), id)
  {
    if events == [] {
      HoldsNothing(c);
      HoldsRecover(c, [], []);
    } else {
      var early, e := events[..|events| - 1], events[|events| - 1];
      RunsProperly(c, early, id);
      RunsLawful(c, early);
      StepRecovers(c, Runs(c, early), e);
      KeptProperly(c, Runs(c, early), e, id);
    }
  }

  /** When those who settle this job ask for an end, it was queued once, started at most once
      and ended at most once, in that order, whatever is asked of the other jobs. */
  lemma JobLife(c: Codec<Transition>, events: seq<Event>, id: string)
    requires Sound(c) && forall e :: e in events ==> AsksProperly(e, id)
    ensures IsLife(Story(LogOf(c, Runs(c, events).file), id), Lookup(Memory(c, Runs(c, events).file), id))
  {
    RunsLawful(c, events);
    RunsProperly(c, events, id);
    LegalLife(LogOf(c, Runs(c, events).file), id);
  }

  /** A job that has ended is the same job for ever after, whatever else happens. */
  lemma {:induction false} EndedForever(c: Codec<Transition>, events: seq<Event>, more: seq<Event>, id: string)
    requires Sound(c)
    ensures var j := Lookup(Memory(c, Runs(c, events).file), id);
            j.Some? && !IsLive(j.value) ==> Lookup(Memory(c, Runs(c, events + more).file), id) == j
    decreases |more|
  {
    if more == [] {
      assert events + more == events;
    } else {
      var early, e := more[..|more| - 1], more[|more| - 1];
      assert (events + more)[..|events + more| - 1] == events + early;
      EndedForever(c, events, early, id);
      RunsLawful(c, events + early);
      EndedStep(c, Runs(c, events + early), e, id);
    }
  }

  lemma EndedStep(c: Codec<Transition>, h: History, e: Event, id: string)
    requires Sound(c)
    ensures var j := Lookup(Memory(c, h.file), id);
            Lawful(c, h) && j.Some? && !IsLive(j.value) ==> Lookup(Memory(c, Step(c, h, e).file), id) == j
  {
    if Lawful(c, h) && id in Memory(c, h.file) && !IsLive(Memory(c, h.file)[id]) {
      StepRecovers(c, h, e);
      StepLawful(c, h, e);
      EndedStays(Memory(c, h.file), Kept(c, h, e), id);
    }
  }

  /** After an open that returned, whatever crash came before it, no job is live, the jobs
      that had ended are as they were, and opening again appends nothing. */
  lemma OpenCloses(c: Codec<Transition>, events: seq<Event>, at: nat, again: nat)
    requires Sound(c)
    ensures var before := Memory(c, Runs(c, events).file);
            var reopened := Step(c, Runs(c, events), Done(Opening(at)));
            var after := Memory(c, reopened.file);
            && before.Keys == after.Keys
            && NothingLive(after)
            && (forall id :: id in before && !IsLive(before[id]) ==> after[id] == before[id])
            && Step(c, reopened, Done(Opening(again))) == reopened
  {
    var h := Runs(c, events);
    var reopened := Step(c, h, Done(Opening(at)));
    RunsLawful(c, events);
    StepRecovers(c, h, Done(Opening(at)));
    RepairKeeps(Memory(c, h.file), at);
    OpenAgain(c, reopened, again);
  }

  lemma RepairKeeps(before: Table, at: nat)
    ensures var after := FoldAll(before, Repairs(before, at));
            && before.Keys == after.Keys
            && NothingLive(after)
            && (forall id :: id in before && !IsLive(before[id]) ==> after[id] == before[id])
            && forall again :: Repairs(after, again) == []
  {
    RepairCloses(before, at);
    RepairedKeeps(before, FoldAll(before, Repairs(before, at)), at);
  }

  lemma RepairedKeeps(before: Table, after: Table, at: nat)
    requires AllRepaired(before, after, at)
    ensures before.Keys == after.Keys
    ensures forall id :: id in before && !IsLive(before[id]) ==> after[id] == before[id]
  {
    forall id
      ensures id in before <==> id in after
      ensures id in before && !IsLive(before[id]) ==> after[id] == before[id]
    {
      assert Lookup(after, id) == Repaired(Lookup(before, id), at);
    }
  }

  lemma OpenAgain(c: Codec<Transition>, h: History, again: nat)
    requires Holds(c, h.file, LogOf(c, h.file)) && h.open && h.minted == 0
    requires Repairs(Memory(c, h.file), again) == []
    ensures Step(c, h, Done(Opening(again))) == h
  {
    BoundaryUnique(h.file, |h.file|);
    assert h.file[..|h.file|] == h.file;
    assert h.file + Encode(c, []) == h.file;
  }

  // ----- whether a `finish` is the last word -----

  /** Whatever happens after `events`, every further `finish` of the job is refused. */
  ghost predicate IsSettled(c: Codec<Transition>, events: seq<Event>, id: string) {
    forall more: seq<Event>, later: Request :: later.Finishing? && later.id == id ==>
      Refusal(Memory(c, Runs(c, events + more).file), later).Some?
  }

  /** A call of one transition that was accepted leaves its job as the transition says. */
  lemma OneChange(c: Codec<Transition>, events: seq<Event>, q: Request, t: Transition)
    requires Sound(c) && Runs(c, events).open
    requires PlanOf(Memory(c, Runs(c, events).file), Runs(c, events).minted, q).changes == [t]
    ensures var before, after := Runs(c, events), Runs(c, events + [Done(q)]);
            after.open && Lookup(Memory(c, after.file), t.id) == Apply(Lookup(Memory(c, before.file), t.id), t)
  {
    var h := Runs(c, events);
    assert (events + [Done(q)])[..|events|] == events;
    RunsLawful(c, events);
    StepRecovers(c, h, Done(q));
    assert Kept(c, h, Done(q)) == [t];
    FoldOne(Memory(c, h.file), t);
    FoldAt(Memory(c, h.file), t, t.id);
  }

  /** The store is open and would record this `finish`. */
  predicate Accepts(c: Codec<Transition>, h: History, q: Request) {
    h.open && q.Finishing? && Refusal(Memory(c, h.file), q).None?
  }

  lemma FinishLeaves(c: Codec<Transition>, events: seq<Event>, q: Request)
    requires Sound(c) && q.Finishing?
    ensures var after := Memory(c, Runs(c, events + [Done(q)]).file);
            Accepts(c, Runs(c, events), q) ==> q.id in after && after[q.id].status == q.status
  {
    if Accepts(c, Runs(c, events), q) {
      OneChange(c, events, q, Transition(q.id, q.at, Finish(q.status, q.detail, q.output)));
    }
  }

  /** A `finish` that is accepted is the last one ever accepted for its job, over every run
      that may follow with its crashes and reopens, exactly when it asks for an end. */
  lemma FinishIsFinal(c: Codec<Transition>, events: seq<Event>, q: Request)
    requires Sound(c) && q.Finishing?
    ensures Accepts(c, Runs(c, events), q) ==>
              (IsSettled(c, events + [Done(q)], q.id) <==> q.status.IsTerminal())
  {
    if Accepts(c, Runs(c, events), q) {
      var done := events + [Done(q)];
      FinishLeaves(c, events, q);
      if q.status.IsTerminal() {
        forall more: seq<Event>, later: Request | later.Finishing? && later.id == q.id
          ensures Refusal(Memory(c, Runs(c, done + more).file), later).Some?
        {
          EndedForever(c, done, more, q.id);
          assert Lookup(Memory(c, Runs(c, done + more).file), q.id).Some?;
        }
      } else {
        assert done + [] == done;
        assert Refusal(Memory(c, Runs(c, done + []).file), q).None?;
      }
    }
  }

  /** A run in which a queued job is finished as running and then finished again. */
  lemma FinishTwice(c: Codec<Transition>) returns (events: seq<Event>, first: Request, second: Request)
    requires Sound(c)
    ensures first.Finishing? && second.Finishing? && first.id == second.id
    ensures Runs(c, events).open && Refusal(Memory(c, Runs(c, events).file), first).None?
    ensures Refusal(Memory(c, Runs(c, events + [Done(first)]).file), second).None?
  {
    first, second := Finishing("j", Running, None, None, 2), Finishing("j", Completed, None, None, 3);
    events := QueuedJob(c);
    FinishLeaves(c, events, first);
  }

  lemma QueuedJob(c: Codec<Transition>) returns (events: seq<Event>)
    requires Sound(c)
    ensures var h := Runs(c, events);
            h.open && "j" in Memory(c, h.file) && Memory(c, h.file)["j"].status == Queued
  {
    var queueing := Queueing(Some("j"), "k", "a job", None, 1);
    OpensEmpty(c);
    OneChange(c, [Done(Opening(0))], queueing, Transition("j", 1, Queue("k", "a job", None)));
    events := [Done(Opening(0))] + [Done(queueing)];
  }

  lemma OpensEmpty(c: Codec<Transition>)
    requires Sound(c)
    ensures var h := Runs(c, [Done(Opening(0))]); h.open && Memory(c, h.file) == map[]
  {
    assert [Done(Opening(0))][..0] == [];
    RunsLawful(c, []);
    StepRecovers(c, Runs(c, []), Done(Opening(0)));
    HoldsNothing(c);
    HoldsRecover(c, [], []);
    NothingToRepair(map[]);
  }
}
