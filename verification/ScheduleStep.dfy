/** What each store call decides from the schedules it finds: the changes it records and
    what it answers. */
module ScheduleStep {
  import opened Wrappers
  import Grid
  import opened Scheduling
  import Ordering
  import Minting

  datatype Error =
    | EmptyPayload
    | NotFuture(atMs: nat, nowMs: nat)
    | IntervalTooShort(intervalMs: nat)
    | BadId(id: string)
    | Duplicate(id: string)
    | NoSuchSchedule(id: string)
    | CorruptLine(line: nat)

  // ----- create and delete -----

  /** `char::is_whitespace`, the Unicode White_Space property. */
  predicate IsWhitespace(c: char) {
    var n := c as int;
    || 0x9 <= n <= 0xD || n == 0x20 || n == 0x85 || n == 0xA0 || n == 0x1680
    || 0x2000 <= n <= 0x200A || n == 0x2028 || n == 0x2029 || n == 0x202F || n == 0x205F || n == 0x3000
  }

  /** Nothing is left once the text is trimmed. */
  predicate IsBlank(text: string) {
    forall i :: 0 <= i < |text| ==> IsWhitespace(text[i])
  }

  /** The first instant a new schedule is due, judged against the creation clock. */
  function FirstDue(rule: RawRule, now: nat): Result<nat, Error> {
    match rule
    case At(atMs) => if atMs <= now then Err(NotFuture(atMs, now)) else Ok(atMs)
    case Every(interval, anchor) =>
      if interval < MIN_INTERVAL_MS then Err(IntervalTooShort(interval))
      else Ok(Grid.Next(anchor, interval, now))
  }

  /** A request to record a schedule. */
  datatype Draft = Draft(
    id: Option<string>, title: string, payload: string, rule: RawRule, overlap: Overlap, session: Option<string>)

  /** The record a creation appends under the id it settled on. */
  function Creation(id: string, d: Draft, now: nat): Change
    requires FirstDue(d.rule, now).Ok?
  {
    Change(id, now, Create(d.title, d.payload, d.rule, d.overlap, d.session, FirstDue(d.rule, now).value))
  }

  /** Why a draft is refused, in the order the store looks. */
  function Refusal(ss: Schedules, d: Draft, now: nat): Option<Error> {
    if IsBlank(d.payload) then Some(EmptyPayload)
    else if FirstDue(d.rule, now).Err? then Some(FirstDue(d.rule, now).error)
    else if d.id.None? then None
    else if !Minting.IsShaped(d.id.value) then Some(BadId(d.id.value))
    else if d.id.value in ss then Some(Duplicate(d.id.value))
    else None
  }

  /** `Ok(true)` records a deletion; an inactive schedule is left as it is. */
  function DeleteAnswer(ss: Schedules, id: string): Result<bool, Error> {
    if id !in ss then Err(NoSuchSchedule(id)) else Ok(ss[id].active)
  }

  // ----- poll -----

  predicate IsDue(s: Schedule, now: nat) {
    s.active && s.scheduledAt <= now
  }

  function Rank(ss: Schedules): string -> nat {
    id => if id in ss then ss[id].scheduledAt else 0
  }

  /** Every id the store holds, in key order. */
  function Ids(ss: Schedules): seq<string> {
    Ordering.Enumerate(ss.Keys, Ordering.BY_KEY)
  }

  /** The due ids, oldest occurrence first and then by id. */
  function DueIds(ss: Schedules, now: nat): (ids: seq<string>)
    ensures forall i :: 0 <= i < |ids| ==> ids[i] in ss && IsDue(ss[ids[i]], now)
  {
    var due := set id | id in ss && IsDue(ss[id], now);
    Ordering.Enumerate(due, Rank(ss))
  }

  predicate Releasable(ss: Schedules, id: string, running: set<string>) {
    id in ss && ss[id].held.Some? && id !in running
  }

  /** The held fires among `ids` whose run has ended. */
  function Releases(ss: Schedules, ids: seq<string>, running: set<string>): seq<Fire> {
    if ids == [] then []
    else
      var early, id := Releases(ss, ids[..|ids| - 1], running), ids[|ids| - 1];
      if Releasable(ss, id, running) then early + [Fire(id, ss[id].held.value, Released)] else early
  }

  /** What the overlap policy says about a due schedule. */
  function Decide(s: Schedule, busy: bool): Decision {
    if !busy || s.overlap == Concurrent then Run
    else if s.overlap == Skip || s.held.Some? then Skipped
    else Held
  }

  /** What the policy makes of a run of due ids. */
  function Dispatches(ss: Schedules, ids: seq<string>, now: nat, running: set<string>): (fires: seq<Fire>)
    requires forall i :: 0 <= i < |ids| ==> ids[i] in ss
    ensures |fires| == |ids|
    ensures forall i :: 0 <= i < |ids| ==>
              fires[i] == Fire(ids[i], OccurrenceOf(ss[ids[i]], now), Decide(ss[ids[i]], ids[i] in running))
  {
    if ids == [] then []
    else
      var id := ids[|ids| - 1];
      Dispatches(ss, ids[..|ids| - 1], now, running)
      + [Fire(id, OccurrenceOf(ss[id], now), Decide(ss[id], id in running))]
  }

  /** The record a decided fire leaves in the journal. */
  function RecordOf(f: Fire, now: nat): Change {
    Change(f.id, now, Dispatch(now, f.decision))
  }

  function Recorded(fires: seq<Fire>, now: nat): (log: seq<Change>)
    ensures |log| == |fires|
    ensures forall i :: 0 <= i < |fires| ==> log[i] == RecordOf(fires[i], now)
  {
    if fires == [] then [] else Recorded(fires[..|fires| - 1], now) + [RecordOf(fires[|fires| - 1], now)]
  }

  function AfterReleases(ss: Schedules, now: nat, running: set<string>): Schedules {
    FoldAll(ss, Recorded(Releases(ss, Ids(ss), running), now))
  }

  /** Held fires first, and then everything due once they are let go. */
  function PollFires(ss: Schedules, now: nat, running: set<string>): seq<Fire> {
    var freed := AfterReleases(ss, now, running);
    Releases(ss, Ids(ss), running) + Dispatches(freed, DueIds(freed, now), now, running)
  }

  // ----- one call -----

  datatype Request =
    | Creating(draft: Draft, now: nat)
    | Deleting(id: string, now: nat)
    | Polling(now: nat, running: set<string>)

  /** The changes a call records in order, the fires it answers, and the id counter. */
  datatype Plan = Plan(changes: seq<Change>, fires: seq<Fire>, minted: nat)

  ghost function PlanOf(ss: Schedules, minted: nat, q: Request): Plan {
    match q
    case Creating(d, now) =>
      if Refusal(ss, d, now).Some? then Plan([], [], minted)
      else if d.id.Some? then Plan([Creation(d.id.value, d, now)], [], minted)
      else
        var n := Minting.Fresh("schedule", ss.Keys, minted);
        Plan([Creation(Minting.Name("schedule", n), d, now)], [], n)
    case Deleting(id, now) =>
      if DeleteAnswer(ss, id) == Ok(true) then Plan([Change(id, now, Delete)], [], minted)
      else Plan([], [], minted)
    case Polling(now, running) =>
      var fires := PollFires(ss, now, running);
      Plan(Recorded(fires, now), fires, minted)
  }
}
