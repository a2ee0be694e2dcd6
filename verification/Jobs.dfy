/** Jobs, the transitions their journal records, and the fold of one into the other. */
module Jobs {
  import opened Wrappers
  import Ordering

  datatype Status = Queued | Running | Completed | Cancelled | Failed | Interrupted {
    predicate IsTerminal() {
      this != Queued && this != Running
    }
  }

  datatype Job = Job(
    id: string,
    kind: string,
    title: string,
    session: Option<string>,
    status: Status,
    detail: Option<string>,
    output: Option<string>,
    queuedAt: nat,
    startedAt: Option<nat>,
    finishedAt: Option<nat>)

  type Table = map<string, Job>

  datatype Change =
    | Queue(kind: string, title: string, session: Option<string>)
    | Start
    | Finish(status: Status, detail: Option<string>, output: Option<string>)

  datatype Transition = Transition(id: string, at: nat, change: Change)

  predicate IsLive(j: Job) {
    !j.status.IsTerminal()
  }

  // ----- the fold -----

  /** What one transition does to the job it names. One that names no job is dropped. */
  function Apply(j: Option<Job>, t: Transition): Option<Job> {
    match t.change
    case Queue(kind, title, session) =>
      if j.Some? then j else Some(Job(t.id, kind, title, session, Queued, None, None, t.at, None, None))
    case Start =>
      if j.None? then None else Some(j.value.(status := Running, startedAt := Some(t.at)))
    case Finish(status, detail, output) =>
      if j.None? then None
      else Some(j.value.(
                  status := status,
                  finishedAt := Some(t.at),
                  detail := if detail.Some? then detail else j.value.detail,
                  output := if output.Some? then output else j.value.output))
  }

  function Lookup(jobs: Table, id: string): Option<Job> {
    if id in jobs then Some(jobs[id]) else None
  }

  function Fold(jobs: Table, t: Transition): Table {
    match Apply(Lookup(jobs, t.id), t)
    case Some(j) => jobs[t.id := j]
    case None => jobs
  }

  function FoldAll(jobs: Table, log: seq<Transition>): Table {
    if log == [] then jobs else Fold(FoldAll(jobs, log[..|log| - 1]), log[|log| - 1])
  }

  lemma {:induction false} FoldAppend(jobs: Table, a: seq<Transition>, b: seq<Transition>)
    ensures FoldAll(jobs, a + b) == FoldAll(FoldAll(jobs, a), b)
  {
    if b == [] {
      assert a + b == a;
    } else {
      FoldAppend(jobs, a, b[..|b| - 1]);
      assert (a + b)[..|a + b| - 1] == a + b[..|b| - 1];
    }
  }

  lemma {:induction false} FoldFrame(jobs: Table, log: seq<Transition>, id: string)
    requires forall i :: 0 <= i < |log| ==> log[i].id != id
    ensures Lookup(FoldAll(jobs, log), id) == Lookup(jobs, id)
  {
    if log != [] {
      FoldFrame(jobs, log[..|log| - 1], id);
    }
  }

  lemma FoldOne(jobs: Table, t: Transition)
    ensures FoldAll(jobs, [t]) == Fold(jobs, t)
  {
    assert [t][..0] == [];
    assert FoldAll(jobs, []) == jobs;
  }

  lemma FoldAt(jobs: Table, t: Transition, id: string)
    ensures Lookup(Fold(jobs, t), id) == if t.id == id then Apply(Lookup(jobs, id), t) else Lookup(jobs, id)
  {
  }

  // ----- lawful transitions -----

  /** A job is queued once, starts only while queued, and is settled only while live. What
      it is settled as is the caller's word. */
  predicate Legal1(j: Option<Job>, t: Transition) {
    match t.change
    case Queue(_, _, _) => j.None?
    case Start => j.Some? && j.value.status == Queued
    case Finish(_, _, _) => j.Some? && IsLive(j.value)
  }

  predicate Legal(jobs: Table, log: seq<Transition>) {
    log == [] ||
    var early, last := log[..|log| - 1], log[|log| - 1];
    Legal(jobs, early) && Legal1(Lookup(FoldAll(jobs, early), last.id), last)
  }

  lemma {:induction false} LegalAppend(jobs: Table, a: seq<Transition>, b: seq<Transition>)
    ensures Legal(jobs, a + b) <==> Legal(jobs, a) && Legal(FoldAll(jobs, a), b)
  {
    if b == [] {
      assert a + b == a;
    } else {
      var early := b[..|b| - 1];
      assert (a + b)[..|a + b| - 1] == a + early;
      LegalAppend(jobs, a, early);
      FoldAppend(jobs, a, early);
    }
  }

  lemma LegalPrefix(jobs: Table, log: seq<Transition>, k: nat)
    requires Legal(jobs, log) && k <= |log|
    ensures Legal(jobs, log[..k])
    ensures k == |log| ==> log[..k] == log
  {
    assert log == log[..k] + log[k..];
    LegalAppend(jobs, log[..k], log[k..]);
  }

  // ----- the life of one job -----

  /** The transitions of one job, in order. */
  function Story(log: seq<Transition>, id: string): seq<Change> {
    if log == [] then []
    else
      var last := log[|log| - 1];
      Story(log[..|log| - 1], id) + if last.id == id then [last.change] else []
  }

  /** The status a transition leaves. */
  function Leaves(change: Change): Status {
    match change
    case Queue(_, _, _) => Queued
    case Start => Running
    case Finish(status, _, _) => status
  }

  /** `next` may come straight after `change`: nothing follows an end, nothing is queued
      again, and a start finds the job queued. */
  predicate MayFollow(change: Change, next: Change) {
    && !Leaves(change).IsTerminal() && !next.Queue?
    && (next.Start? ==> Leaves(change) == Queued)
  }

  /** Queued first, and each transition one that may follow the one before it. */
  predicate IsChain(story: seq<Change>) {
    && story != []
    && if |story| == 1 then story[0].Queue?
       else IsChain(story[..|story| - 1]) && MayFollow(story[|story| - 2], story[|story| - 1])
  }

  /** The job stands where its story leaves it. */
  predicate IsStory(story: seq<Change>, j: Option<Job>) {
    match j
    case None => story == []
    case Some(job) => IsChain(story) && job.status == Leaves(story[|story| - 1])
  }

  /** Queued, then started at most once, then ended at most once, and the job stands where
      its story leaves it. */
  predicate IsLife(story: seq<Change>, j: Option<Job>) {
    match j
    case None => story == []
    case Some(job) =>
      && |story| > 0 && story[0].Queue?
      && match job.status
         case Queued => |story| == 1
         case Running => |story| == 2 && story[1].Start?
         case ended =>
           || (|story| == 2 && story[1].Finish? && story[1].status == ended)
           || (|story| == 3 && story[1].Start? && story[2].Finish? && story[2].status == ended)
  }

  /** Every time this job was settled, it was as an end. */
  predicate EndsProperly(log: seq<Transition>, id: string) {
    forall k :: 0 <= k < |log| && log[k].id == id && log[k].change.Finish? ==> log[k].change.status.IsTerminal()
  }

  lemma {:induction false} LegalStory(log: seq<Transition>, id: string)
    requires Legal(map[], log)
    ensures IsStory(Story(log, id), Lookup(FoldAll(map[], log), id))
  {
    if log != [] {
      var early, last := log[..|log| - 1], log[|log| - 1];
      LegalStory(early, id);
      FoldAt(FoldAll(map[], early), last, id);
      if last.id == id {
        StoryMore(Story(early, id), Lookup(FoldAll(map[], early), id), last);
      } else {
        assert Story(log, id) == Story(early, id);
      }
    }
  }

  lemma StoryMore(story: seq<Change>, j: Option<Job>, t: Transition)
    requires IsStory(story, j) && Legal1(j, t)
    ensures IsStory(story + [t.change], Apply(j, t))
  {
    assert (story + [t.change])[..|story|] == story;
  }

  lemma {:induction false} LegalLife(log: seq<Transition>, id: string)
    requires Legal(map[], log) && EndsProperly(log, id)
    ensures IsLife(Story(log, id), Lookup(FoldAll(map[], log), id))
  {
    if log != [] {
      var early, last := log[..|log| - 1], log[|log| - 1];
      assert log == early + [last];
      LegalLife(early, id);
    }
  }

  /** An ended job is not touched by anything lawful. */
  lemma {:induction false} EndedStays(jobs: Table, log: seq<Transition>, id: string)
    requires Legal(jobs, log) && id in jobs && !IsLive(jobs[id])
    ensures Lookup(FoldAll(jobs, log), id) == Some(jobs[id])
  {
    if log != [] {
      EndedStays(jobs, log[..|log| - 1], id);
    }
  }

  // ----- what an open repairs -----

  const REASON := "the harness stopped while this job was live"

  function LiveIds(jobs: Table): (ids: seq<string>)
    ensures forall i :: 0 <= i < |ids| ==> ids[i] in jobs && IsLive(jobs[ids[i]])
    ensures forall id :: id in ids <==> id in jobs && IsLive(jobs[id])
    ensures forall i, j :: 0 <= i < j < |ids| ==> ids[i] != ids[j]
  {
    var live := set id | id in jobs && IsLive(jobs[id]);
    Ordering.Enumerate(live, Ordering.BY_KEY)
  }

  function Closing(id: string, at: nat): Transition {
    Transition(id, at, Finish(Interrupted, Some(REASON), None))
  }

  function Closings(ids: seq<string>, at: nat): (log: seq<Transition>)
    ensures |log| == |ids|
    ensures forall i :: 0 <= i < |ids| ==> log[i] == Closing(ids[i], at)
  {
    if ids == [] then [] else Closings(ids[..|ids| - 1], at) + [Closing(ids[|ids| - 1], at)]
  }

  /** The transitions an open appends: one end for every job left live. */
  function Repairs(jobs: Table, at: nat): seq<Transition> {
    Closings(LiveIds(jobs), at)
  }

  lemma {:induction false} ClosingsClose(jobs: Table, ids: seq<string>, at: nat)
    requires forall i :: 0 <= i < |ids| ==> ids[i] in jobs && IsLive(jobs[ids[i]])
    requires forall i, j :: 0 <= i < j < |ids| ==> ids[i] != ids[j]
    ensures Legal(jobs, Closings(ids, at))
    ensures forall id :: id in ids ==>
              Lookup(FoldAll(jobs, Closings(ids, at)), id) == Apply(Lookup(jobs, id), Closing(id, at))
  {
    if ids != [] {
      var early, last := ids[..|ids| - 1], ids[|ids| - 1];
      ClosingsClose(jobs, early, at);
      FoldFrame(jobs, Closings(early, at), last);
      assert Closings(ids, at)[..|ids| - 1] == Closings(early, at);
      assert ids == early + [last] && last !in early;
    }
  }

  /** A job as a repair leaves it: closed as interrupted, if it was live, with everything
      else about it kept. */
  function Repaired(j: Option<Job>, at: nat): Option<Job> {
    if j.Some? && IsLive(j.value)
    then Some(j.value.(status := Interrupted, finishedAt := Some(at), detail := Some(REASON)))
    else j
  }

  predicate NothingLive(jobs: Table) {
    forall id :: id in jobs ==> !IsLive(jobs[id])
  }

  lemma RepairOne(jobs: Table, at: nat, id: string)
    ensures Lookup(FoldAll(jobs, Repairs(jobs, at)), id) == Repaired(Lookup(jobs, id), at)
  {
    var ids := LiveIds(jobs);
    ClosingsClose(jobs, ids, at);
    if id in ids {
      ClosingRepairs(jobs[id], id, at);
    } else {
      FoldFrame(jobs, Repairs(jobs, at), id);
    }
  }

  lemma ClosingRepairs(j: Job, id: string, at: nat)
    requires IsLive(j)
    ensures Apply(Some(j), Closing(id, at)) == Repaired(Some(j), at)
  {
  }

  ghost predicate AllRepaired(before: Table, after: Table, at: nat) {
    forall id :: Lookup(after, id) == Repaired(Lookup(before, id), at)
  }

  /** A repair is lawful, leaves no job live, closes exactly the live ones as interrupted
      with everything else about them kept, and has nothing to do a second time. */
  lemma RepairCloses(jobs: Table, at: nat)
    ensures Legal(jobs, Repairs(jobs, at))
    ensures var after := FoldAll(jobs, Repairs(jobs, at));
            && AllRepaired(jobs, after, at) && NothingLive(after)
            && forall again :: Repairs(after, again) == []
  {
    var after := FoldAll(jobs, Repairs(jobs, at));
    ClosingsClose(jobs, LiveIds(jobs), at);
    forall id ensures Lookup(after, id) == Repaired(Lookup(jobs, id), at) {
      RepairOne(jobs, at, id);
    }
    RepairedIsEnded(jobs, after, at);
    NothingToRepair(after);
  }

  lemma RepairedIsEnded(before: Table, after: Table, at: nat)
    requires AllRepaired(before, after, at)
    ensures NothingLive(after)
  {
    forall id | id in after ensures !IsLive(after[id]) {
      assert Lookup(after, id) == Repaired(Lookup(before, id), at);
    }
  }

  lemma NothingToRepair(jobs: Table)
    requires NothingLive(jobs)
    ensures forall at :: Repairs(jobs, at) == []
  {
    assert (set id | id in jobs && IsLive(jobs[id])) == {};
  }
}
