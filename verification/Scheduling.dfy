/** Schedules, the changes their journal records, and the fold that turns one into the
    other. Everything here is a function of a clock its caller supplies. */
module Scheduling {
  import opened Wrappers
  import Grid

  const MIN_INTERVAL_MS: nat := 60_000

  /** A rule as a caller may write it. */
  datatype RawRule = At(atMs: nat) | Every(intervalMs: nat, anchorMs: nat)

  /** A rule a journal can hold: dividing by its interval is defined. */
  type Rule = r: RawRule | r.Every? ==> r.intervalMs > 0 witness At(0)

  datatype Overlap = Skip | Queue | Concurrent

  datatype Decision = Run | Skipped | Held | Released

  datatype Schedule = Schedule(
    id: string,
    title: string,
    payload: string,
    rule: Rule,
    overlap: Overlap,
    session: Option<string>,
    scheduledAt: nat,
    createdAt: nat,
    dispatches: nat,
    lastDispatch: Option<nat>,
    held: Option<nat>,
    active: bool)

  type Schedules = map<string, Schedule>

  datatype Op =
    | Create(title: string, payload: string, rule: Rule, overlap: Overlap, session: Option<string>, scheduledAt: nat)
    | Dispatch(acceptedAt: nat, decision: Decision)
    | Delete

  datatype Change = Change(id: string, at: nat, op: Op)

  datatype Fire = Fire(id: string, occurrenceAt: nat, decision: Decision)

  /** The caller is told to do the work: a run, or a held fire let go. */
  predicate Delivers(d: Decision) {
    d == Run || d == Released
  }

  // ----- the fold -----

  /** Which occurrence is decided by a fire at `now`, however late that is. */
  function OccurrenceOf(s: Schedule, now: nat): nat {
    match s.rule
    case At(atMs) => atMs
    case Every(interval, anchor) =>
      match Grid.Latest(anchor, interval, now)
      case Some(t) => t
      case None => s.scheduledAt
  }

  /** A schedule past a decided occurrence. */
  function Advance(s: Schedule, acceptedAt: nat): Schedule {
    match s.rule
    case At(_) => s.(active := false)
    case Every(interval, anchor) => s.(scheduledAt := Grid.Next(anchor, interval, acceptedAt))
  }

  /** What one recorded change does to the schedule it names. */
  function Apply(s: Option<Schedule>, c: Change): Option<Schedule> {
    match c.op
    case Create(title, payload, rule, overlap, session, scheduledAt) =>
      if s.Some? then s
      else Some(Schedule(c.id, title, payload, rule, overlap, session, scheduledAt, c.at, 0, None, None, true))
    case Delete =>
      if s.None? then None else Some(s.value.(active := false, held := None))
    case Dispatch(acceptedAt, decision) =>
      if s.None? then None
      else
        var t := s.value;
        match decision
        case Released => Some(t.(held := None, dispatches := t.dispatches + 1, lastDispatch := Some(acceptedAt)))
        case Held => Some(Advance(t.(held := Some(OccurrenceOf(t, acceptedAt))), acceptedAt))
        case Run => Some(Advance(t.(dispatches := t.dispatches + 1, lastDispatch := Some(acceptedAt)), acceptedAt))
        case Skipped => Some(Advance(t, acceptedAt))
  }

  function Lookup(ss: Schedules, id: string): Option<Schedule> {
    if id in ss then Some(ss[id]) else None
  }

  function Fold(ss: Schedules, c: Change): Schedules {
    match Apply(Lookup(ss, c.id), c)
    case Some(s) => ss[c.id := s]
    case None => ss
  }

  function FoldAll(ss: Schedules, log: seq<Change>): Schedules {
    if log == [] then ss else Fold(FoldAll(ss, log[..|log| - 1]), log[|log| - 1])
  }

  lemma {:induction false} FoldAppend(ss: Schedules, a: seq<Change>, b: seq<Change>)
    ensures FoldAll(ss, a + b) == FoldAll(FoldAll(ss, a), b)
  {
    if b == [] {
      assert a + b == a;
    } else {
      FoldAppend(ss, a, b[..|b| - 1]);
      assert (a + b)[..|a + b| - 1] == a + b[..|b| - 1];
    }
  }

  lemma FoldOne(ss: Schedules, c: Change)
    ensures FoldAll(ss, [c]) == Fold(ss, c)
  {
    assert [c][..0] == [];
    assert FoldAll(ss, []) == ss;
  }

  /** A change only touches the schedule it names. */
  lemma {:induction false} FoldFrame(ss: Schedules, log: seq<Change>, id: string)
    requires forall i :: 0 <= i < |log| ==> log[i].id != id
    ensures Lookup(FoldAll(ss, log), id) == Lookup(ss, id)
  {
    if log != [] {
      FoldFrame(ss, log[..|log| - 1], id);
    }
  }

  lemma FoldLookup(ss: Schedules, c: Change)
    ensures Lookup(Fold(ss, c), c.id) == Apply(Lookup(ss, c.id), c)
  {
  }

  /** Among changes to other schedules, the one to `log[i].id` acts alone. */
  lemma FoldAlone(ss: Schedules, log: seq<Change>, i: nat)
    requires i < |log|
    requires forall j :: 0 <= j < |log| && j != i ==> log[j].id != log[i].id
    ensures Lookup(FoldAll(ss, log), log[i].id) == Apply(Lookup(ss, log[i].id), log[i])
  {
    var before, after := log[..i], log[i + 1..];
    var id := log[i].id;
    FoldFrame(ss, before, id);
    FoldLookup(FoldAll(ss, before), log[i]);
    FoldOne(FoldAll(ss, before), log[i]);
    FoldAppend(ss, before, [log[i]]);
    FoldFrame(FoldAll(ss, before + [log[i]]), after, id);
    FoldAppend(ss, before + [log[i]], after);
    assert log == before + [log[i]] + after;
  }
}
