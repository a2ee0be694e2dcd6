/** What one poll decides: every recorded decision is lawful, the fires are what the
    journal says they are, and nothing is left due. */
module SchedulePoll {
  import opened Wrappers
  import Grid
  import opened Scheduling
  import opened ScheduleStep
  import opened ScheduleLaws

  predicate Distinct(fires: seq<Fire>) {
    forall i, j :: 0 <= i < j < |fires| ==> fires[i].id != fires[j].id
  }

  predicate Names(fires: seq<Fire>, id: string) {
    exists i :: 0 <= i < |fires| && fires[i].id == id
  }

  lemma RecordedAppend(a: seq<Fire>, b: seq<Fire>, now: nat)
    ensures Recorded(a + b, now) == Recorded(a, now) + Recorded(b, now)
  {
  }

  // ----- decisions about different schedules -----

  /** The fire is lawful as its schedule stands, and is the one its record stands for. */
  predicate Decided1(ss: Schedules, f: Fire, now: nat) {
    && Legal1(Lookup(ss, f.id), RecordOf(f, now))
    && FireOf(Lookup(ss, f.id), RecordOf(f, now)) == [f]
  }

  predicate Decided(ss: Schedules, fires: seq<Fire>, now: nat) {
    Distinct(fires) && forall i :: 0 <= i < |fires| ==> Decided1(ss, fires[i], now)
  }

  lemma {:induction false} DecidedLegal(ss: Schedules, fires: seq<Fire>, now: nat)
    requires Decided(ss, fires, now)
    ensures Legal(ss, Recorded(fires, now)) && Trace(ss, Recorded(fires, now)) == fires
  {
    if fires != [] {
      var early, last := fires[..|fires| - 1], fires[|fires| - 1];
      DecidedLegal(ss, early, now);
      FoldFrame(ss, Recorded(early, now), last.id);
      assert Decided1(ss, last, now);
      assert Recorded(fires, now)[..|fires| - 1] == Recorded(early, now);
      assert fires == early + [last];
    }
  }

  lemma DecidedFrame(ss: Schedules, fires: seq<Fire>, now: nat, id: string)
    requires !Names(fires, id)
    ensures Lookup(FoldAll(ss, Recorded(fires, now)), id) == Lookup(ss, id)
  {
    FoldFrame(ss, Recorded(fires, now), id);
  }

  lemma DecidedEffect(ss: Schedules, fires: seq<Fire>, now: nat, i: nat)
    requires Distinct(fires) && i < |fires|
    ensures Lookup(FoldAll(ss, Recorded(fires, now)), fires[i].id) ==
            Apply(Lookup(ss, fires[i].id), RecordOf(fires[i], now))
  {
    FoldAlone(ss, Recorded(fires, now), i);
  }

  // ----- the two phases -----

  lemma {:induction false} ReleasesAre(ss: Schedules, ids: seq<string>, running: set<string>)
    requires forall i, j :: 0 <= i < j < |ids| ==> ids[i] != ids[j]
    ensures Distinct(Releases(ss, ids, running))
    ensures forall f :: f in Releases(ss, ids, running) ==>
              && f.id in ids && Releasable(ss, f.id, running)
              && f == Fire(f.id, ss[f.id].held.value, Decision.Released)
    ensures forall id :: id in ids && Releasable(ss, id, running) ==>
              Fire(id, ss[id].held.value, Decision.Released) in Releases(ss, ids, running)
  {
    if ids != [] {
      var early, last := ids[..|ids| - 1], ids[|ids| - 1];
      ReleasesAre(ss, early, running);
      assert last !in early;
      assert ids == early + [last];
    }
  }

  function HeldFire(ss: Schedules, id: string): Fire
    requires id in ss && ss[id].held.Some?
  {
    Fire(id, ss[id].held.value, Decision.Released)
  }

  lemma ReleasesSnoc(ss: Schedules, ids: seq<string>, i: nat, running: set<string>)
    requires i < |ids|
    ensures Releases(ss, ids[..i + 1], running) ==
            if Releasable(ss, ids[i], running)
            then Releases(ss, ids[..i], running) + [HeldFire(ss, ids[i])]
            else Releases(ss, ids[..i], running)
  {
    assert ids[..i + 1][..i] == ids[..i];
  }

  /** The fires that let go of what is held: lawful, and one for each free holder. */
  lemma ReleasePhase(ss: Schedules, now: nat, running: set<string>)
    ensures var fires := Releases(ss, Ids(ss), running);
            && Decided(ss, fires, now)
            && forall id :: Names(fires, id) <==> Releasable(ss, id, running)
  {
    var fires := Releases(ss, Ids(ss), running);
    ReleasesAre(ss, Ids(ss), running);
    forall i | 0 <= i < |fires| ensures Decided1(ss, fires[i], now) {
      assert fires[i] in fires;
      ReleaseLegal(ss, fires[i].id, now, running);
    }
    forall id ensures Names(fires, id) <==> Releasable(ss, id, running) {
      if Releasable(ss, id, running) {
        assert id in Ids(ss);
      }
    }
  }

  lemma ReleaseLegal(ss: Schedules, id: string, now: nat, running: set<string>)
    requires Releasable(ss, id, running)
    ensures Decided1(ss, Fire(id, ss[id].held.value, Decision.Released), now)
  {
  }

  /** The schedule once its held fire is let go, if it held one and is free. */
  function Freed(s: Option<Schedule>, id: string, now: nat, running: set<string>): Option<Schedule> {
    if s.Some? && s.value.held.Some? && id !in running
    then Apply(s, Change(id, now, Dispatch(now, Decision.Released)))
    else s
  }

  lemma ReleaseEffect(ss: Schedules, now: nat, running: set<string>, id: string)
    ensures Lookup(AfterReleases(ss, now, running), id) == Freed(Lookup(ss, id), id, now, running)
  {
    var fires := Releases(ss, Ids(ss), running);
    ReleasePhase(ss, now, running);
    if Names(fires, id) {
      var i :| 0 <= i < |fires| && fires[i].id == id;
      ReleasesAre(ss, Ids(ss), running);
      assert fires[i] in fires;
      DecidedEffect(ss, fires, now, i);
    } else {
      DecidedFrame(ss, fires, now, id);
    }
  }

  ghost predicate OnlyBusyHold(ss: Schedules, running: set<string>) {
    forall id :: FreeHoldsNothing(ss, id, running)
  }

  lemma ReleasesFree(ss: Schedules, now: nat, running: set<string>)
    ensures OnlyBusyHold(AfterReleases(ss, now, running), running)
  {
    forall id ensures FreeHoldsNothing(AfterReleases(ss, now, running), id, running) {
      ReleaseEffect(ss, now, running, id);
      FreedHoldsNothing(Lookup(ss, id), id, now, running);
    }
  }

  lemma FreedHoldsNothing(s: Option<Schedule>, id: string, now: nat, running: set<string>)
    ensures var freed := Freed(s, id, now, running);
            freed.Some? && freed.value.held.Some? ==> id in running
  {
  }

  lemma ReleasesSane(ss: Schedules, now: nat, running: set<string>)
    requires AllSane(ss)
    ensures AllSane(AfterReleases(ss, now, running))
  {
    var fires := Releases(ss, Ids(ss), running);
    ReleasePhase(ss, now, running);
    DecidedLegal(ss, fires, now);
    LegalSane(ss, Recorded(fires, now));
  }

  predicate FreeHoldsNothing(ss: Schedules, id: string, running: set<string>) {
    id in ss && ss[id].held.Some? ==> id in running
  }

  /** The fires for what is due once no free schedule holds one: lawful, and one for each
      due schedule. */
  lemma DispatchPhase(freed: Schedules, now: nat, running: set<string>)
    requires AllSane(freed) && OnlyBusyHold(freed, running)
    ensures var fires := Dispatches(freed, DueIds(freed, now), now, running);
            && Decided(freed, fires, now)
            && forall id :: Names(fires, id) <==> id in freed && IsDue(freed[id], now)
  {
    var ids := DueIds(freed, now);
    var fires := Dispatches(freed, ids, now, running);
    forall i | 0 <= i < |fires| ensures Decided1(freed, fires[i], now) {
      DecideLegal(freed, ids[i], now, running);
    }
    DispatchesName(freed, ids, now, running);
    assert forall id :: id in ids <==> id in freed && IsDue(freed[id], now);
  }

  lemma DispatchesName(ss: Schedules, ids: seq<string>, now: nat, running: set<string>)
    requires forall k :: 0 <= k < |ids| ==> ids[k] in ss
    requires forall j, k :: 0 <= j < k < |ids| ==> ids[j] != ids[k]
    ensures Distinct(Dispatches(ss, ids, now, running))
    ensures forall id :: Names(Dispatches(ss, ids, now, running), id) <==> id in ids
  {
    var fires := Dispatches(ss, ids, now, running);
    forall id | id in ids ensures Names(fires, id) {
      var i :| 0 <= i < |ids| && ids[i] == id;
      assert fires[i].id == id;
    }
  }

  lemma DecideLegal(freed: Schedules, id: string, now: nat, running: set<string>)
    requires id in freed && IsDue(freed[id], now) && Sane(freed[id]) && FreeHoldsNothing(freed, id, running)
    ensures Decided1(freed, Fire(id, OccurrenceOf(freed[id], now), Decide(freed[id], id in running)), now)
  {
  }

  // ----- the whole poll -----

  function AfterPoll(ss: Schedules, now: nat, running: set<string>): Schedules {
    FoldAll(ss, Recorded(PollFires(ss, now, running), now))
  }

  /** Every decision a poll records is lawful, and the fires it answers are exactly those
      its records stand for. */
  lemma PollLegal(ss: Schedules, now: nat, running: set<string>)
    requires AllSane(ss)
    ensures Legal(ss, Recorded(PollFires(ss, now, running), now))
    ensures Trace(ss, Recorded(PollFires(ss, now, running), now)) == PollFires(ss, now, running)
  {
    var first := Releases(ss, Ids(ss), running);
    var freed := AfterReleases(ss, now, running);
    var second := Dispatches(freed, DueIds(freed, now), now, running);
    ReleasePhase(ss, now, running);
    DecidedLegal(ss, first, now);
    ReleasesFree(ss, now, running);
    ReleasesSane(ss, now, running);
    DispatchPhase(freed, now, running);
    DecidedLegal(freed, second, now);
    RecordedAppend(first, second, now);
    LegalAppend(ss, Recorded(first, now), Recorded(second, now));
    TraceAppend(ss, Recorded(first, now), Recorded(second, now));
  }

  /** The schedule after a poll that found it due, or did not. */
  function Settled(s: Option<Schedule>, id: string, now: nat, running: set<string>): Option<Schedule> {
    if s.Some? && IsDue(s.value, now)
    then Apply(s, Change(id, now, Dispatch(now, Decide(s.value, id in running))))
    else s
  }

  /** A poll lets each schedule go if it was held and free, and then decides it if it was
      due; nothing else about it depends on the others. */
  lemma PollEffect(ss: Schedules, now: nat, running: set<string>, id: string)
    ensures Lookup(AfterPoll(ss, now, running), id) ==
            Settled(Freed(Lookup(ss, id), id, now, running), id, now, running)
  {
    var first := Releases(ss, Ids(ss), running);
    var freed := AfterReleases(ss, now, running);
    var second := Dispatches(freed, DueIds(freed, now), now, running);
    ReleaseEffect(ss, now, running, id);
    DispatchEffect(freed, now, running, id);
    RecordedAppend(first, second, now);
    FoldAppend(ss, Recorded(first, now), Recorded(second, now));
  }

  lemma DispatchEffect(freed: Schedules, now: nat, running: set<string>, id: string)
    ensures Lookup(FoldAll(freed, Recorded(Dispatches(freed, DueIds(freed, now), now, running), now)), id) ==
            Settled(Lookup(freed, id), id, now, running)
  {
    var ids := DueIds(freed, now);
    if id in freed && IsDue(freed[id], now) {
      assert id in ids;
      var i :| 0 <= i < |ids| && ids[i] == id;
      DispatchedAlone(freed, ids, now, running, i);
    } else {
      DispatchesName(freed, ids, now, running);
      DecidedFrame(freed, Dispatches(freed, ids, now, running), now, id);
    }
  }

  lemma DispatchedAlone(ss: Schedules, ids: seq<string>, now: nat, running: set<string>, i: nat)
    requires i < |ids| && forall k :: 0 <= k < |ids| ==> ids[k] in ss
    requires forall j, k :: 0 <= j < k < |ids| ==> ids[j] != ids[k]
    ensures Lookup(FoldAll(ss, Recorded(Dispatches(ss, ids, now, running), now)), ids[i]) ==
            Apply(Lookup(ss, ids[i]), Change(ids[i], now, Dispatch(now, Decide(ss[ids[i]], ids[i] in running))))
  {
    DecidedEffect(ss, Dispatches(ss, ids, now, running), now, i);
  }

  predicate NothingDue(ss: Schedules, now: nat) {
    forall id :: id in ss ==> !IsDue(ss[id], now)
  }

  lemma SettledNotDue(s: Schedule, id: string, now: nat, running: set<string>)
    ensures var after := Settled(Some(s), id, now, running);
            && after.Some? && !IsDue(after.value, now)
            && (after.value.held.Some? ==> s.held.Some? || id in running)
  {
    if IsDue(s, now) && s.rule.Every? {
      Grid.NextIsLeast(s.rule.anchorMs, s.rule.intervalMs, now);
    }
  }

  lemma PollSettlesOne(ss: Schedules, now: nat, running: set<string>, id: string)
    ensures var after := AfterPoll(ss, now, running);
            id in after ==> !IsDue(after[id], now) && (after[id].held.Some? ==> id in running)
  {
    PollEffect(ss, now, running, id);
    var freed := Freed(Lookup(ss, id), id, now, running);
    FreedHoldsNothing(Lookup(ss, id), id, now, running);
    if freed.Some? {
      SettledNotDue(freed.value, id, now, running);
    }
  }

  /** After a poll nothing is due at its clock and no free schedule holds a fire, so the
      same poll again answers nothing and records nothing. */
  lemma PollSettles(ss: Schedules, now: nat, running: set<string>)
    ensures var after := AfterPoll(ss, now, running);
            && NothingDue(after, now) && OnlyBusyHold(after, running)
            && PollFires(after, now, running) == []
            && AfterPoll(after, now, running) == after
  {
    var after := AfterPoll(ss, now, running);
    forall id ensures id in after ==> !IsDue(after[id], now) && FreeHoldsNothing(after, id, running) {
      PollSettlesOne(ss, now, running, id);
    }
    assert NothingDue(after, now) && OnlyBusyHold(after, running);
    NothingToDo(after, now, running);
  }

  lemma NothingToDo(ss: Schedules, now: nat, running: set<string>)
    requires NothingDue(ss, now) && OnlyBusyHold(ss, running)
    ensures PollFires(ss, now, running) == [] && AfterPoll(ss, now, running) == ss
  {
    forall id ensures !Releasable(ss, id, running) {
      assert FreeHoldsNothing(ss, id, running);
    }
    NoReleases(ss, Ids(ss), running);
    assert (set id | id in ss && IsDue(ss[id], now)) == {};
  }

  lemma NoReleases(ss: Schedules, ids: seq<string>, running: set<string>)
    requires forall id :: !Releasable(ss, id, running)
    ensures Releases(ss, ids, running) == []
  {
  }
}
