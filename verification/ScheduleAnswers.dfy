/** What a poll answers and what it leaves, read from the schedules it found and nothing
    else: which fires, for which instants, decided how, in which order. */
module ScheduleAnswers {
  import opened Wrappers
  import Grid
  import opened Scheduling
  import opened ScheduleStep
  import opened SchedulePoll
  import Ordering

  // ----- the instant a fire is for -----

  /** The instant owed at `now`: the one a one-shot names, and for a recurrence the instant
      of its grid whose interval `now` falls in. A grid that has not started owes what the
      schedule says. */
  predicate Owed(s: Schedule, now: nat, t: nat) {
    match s.rule
    case At(atMs) => t == atMs
    case Every(interval, anchor) =>
      if anchor <= now then Grid.IsCurrent(anchor, interval, now, t) else t == s.scheduledAt
  }

  lemma OccurrenceIsOwed(s: Schedule, now: nat)
    ensures Owed(s, now, OccurrenceOf(s, now))
  {
    match s.rule
    case At(_) =>
    case Every(interval, anchor) =>
      if anchor <= now {
        Grid.LatestIsCurrent(anchor, interval, now);
      }
  }

  // ----- one fire -----

  /** How a due schedule is decided: it runs when it is free or lets runs overlap, is held
      when it queues and holds nothing, and is skipped otherwise. */
  predicate DecidedAs(s: Schedule, free: bool, d: Decision) {
    match d
    case Run => free || s.overlap == Concurrent
    case Held => !free && s.overlap == Queue && s.held.None?
    case Skipped => !free && (s.overlap == Skip || (s.overlap == Queue && s.held.Some?))
    case Released => false
  }

  /** The fire is one the poll owes: what a free schedule held, or what a due one is decided
      as, for the instant owed. */
  predicate IsRight(ss: Schedules, f: Fire, now: nat, running: set<string>) {
    && f.id in ss
    && var s := ss[f.id];
       if f.decision == Released then f.id !in running && s.held == Some(f.occurrenceAt)
       else
         && s.active && s.scheduledAt <= now
         && DecidedAs(s, f.id !in running, f.decision) && Owed(s, now, f.occurrenceAt)
  }

  /** Held fires come first, in key order; then what is due, oldest first and by key. */
  predicate Earlier(ss: Schedules, f: Fire, g: Fire) {
    if f.decision == Released then g.decision == Released ==> f.id != g.id && Ordering.AtMost(f.id, g.id)
    else
      && g.decision != Released && f.id in ss && g.id in ss
      && (|| ss[f.id].scheduledAt < ss[g.id].scheduledAt
          || (ss[f.id].scheduledAt == ss[g.id].scheduledAt && f.id != g.id && Ordering.AtMost(f.id, g.id)))
  }

  predicate Answered(fires: seq<Fire>, id: string, released: bool) {
    exists i :: 0 <= i < |fires| && fires[i].id == id && (fires[i].decision == Released) == released
  }

  /** The fires are those the poll owes, every one of them, in the order they are owed. */
  ghost predicate IsAnswer(ss: Schedules, now: nat, running: set<string>, fires: seq<Fire>) {
    && (forall i :: 0 <= i < |fires| ==> IsRight(ss, fires[i], now, running))
    && (forall i, j :: 0 <= i < j < |fires| ==> Earlier(ss, fires[i], fires[j]))
    && AllReleased(ss, running, fires) && AllDecided(ss, now, fires)
  }

  lemma DecideIsDecided(s: Schedule, free: bool)
    ensures DecidedAs(s, free, Decide(s, !free))
  {
  }

  // ----- the two halves -----

  /** Letting go changes nothing a due schedule is decided by. */
  predicate SameButHeld(s: Schedule, t: Schedule, free: bool) {
    && t.rule == s.rule && t.active == s.active && t.scheduledAt == s.scheduledAt && t.overlap == s.overlap
    && (!free ==> t.held == s.held)
  }

  lemma FreedSame(s: Schedule, id: string, now: nat, running: set<string>)
    ensures var t := Freed(Some(s), id, now, running);
            t.Some? && SameButHeld(s, t.value, id !in running)
  {
  }

  lemma FreedIsSame(ss: Schedules, now: nat, running: set<string>, id: string)
    ensures var freed := AfterReleases(ss, now, running);
            && (id in freed <==> id in ss)
            && (id in ss ==> SameButHeld(ss[id], freed[id], id !in running))
  {
    ReleaseEffect(ss, now, running, id);
    var freed := AfterReleases(ss, now, running);
    if id in ss {
      FreedSame(ss[id], id, now, running);
      assert Lookup(freed, id).Some?;
    } else {
      assert Lookup(freed, id).None?;
    }
  }

  lemma DueIsRight(ss: Schedules, now: nat, running: set<string>, id: string)
    requires var freed := AfterReleases(ss, now, running); id in freed && IsDue(freed[id], now)
    ensures var s := AfterReleases(ss, now, running)[id];
            IsRight(ss, Fire(id, OccurrenceOf(s, now), Decide(s, id in running)), now, running)
  {
    var s := AfterReleases(ss, now, running)[id];
    FreedIsSame(ss, now, running, id);
    OccurrenceIsOwed(s, now);
    DecideIsDecided(s, id !in running);
  }

  predicate KeyOrdered(fires: seq<Fire>) {
    forall i, j :: 0 <= i < j < |fires| ==> IsBefore(fires[i].id, fires[j].id)
  }

  predicate IsBefore(a: string, b: string) {
    a != b && Ordering.AtMost(a, b)
  }

  lemma OneMoreOrdered(fires: seq<Fire>, f: Fire)
    requires KeyOrdered(fires) && forall i :: 0 <= i < |fires| ==> IsBefore(fires[i].id, f.id)
    ensures KeyOrdered(fires + [f])
  {
  }

  lemma {:induction false} ReleasesInOrder(ss: Schedules, ids: seq<string>, running: set<string>)
    requires forall i, j :: 0 <= i < j < |ids| ==> ids[i] != ids[j] && Ordering.Before(Ordering.BY_KEY, ids[i], ids[j])
    ensures KeyOrdered(Releases(ss, ids, running))
  {
    if ids != [] {
      var early, last := ids[..|ids| - 1], ids[|ids| - 1];
      ReleasesInOrder(ss, early, running);
      ReleasesAre(ss, early, running);
      var fires := Releases(ss, early, running);
      forall i | 0 <= i < |fires| ensures IsBefore(fires[i].id, last) {
        assert fires[i] in fires;
        var k :| 0 <= k < |early| && early[k] == fires[i].id;
        assert Ordering.Before(Ordering.BY_KEY, ids[k], last);
      }
      if Releasable(ss, last, running) {
        OneMoreOrdered(fires, HeldFire(ss, last));
      }
    }
  }

  /** The fires of one half of the answer: all right, in order, and of one kind. */
  ghost predicate IsHalf(ss: Schedules, now: nat, running: set<string>, fires: seq<Fire>, released: bool) {
    && (forall i :: 0 <= i < |fires| ==> HalfRight(ss, fires[i], now, running, released))
    && (forall i, j :: 0 <= i < j < |fires| ==> Earlier(ss, fires[i], fires[j]))
  }

  predicate HalfRight(ss: Schedules, f: Fire, now: nat, running: set<string>, released: bool) {
    (f.decision == Released) == released && IsRight(ss, f, now, running)
  }

  ghost predicate AllReleased(ss: Schedules, running: set<string>, fires: seq<Fire>) {
    forall id :: id in ss && ss[id].held.Some? && id !in running ==> Answered(fires, id, true)
  }

  ghost predicate AllDecided(ss: Schedules, now: nat, fires: seq<Fire>) {
    forall id :: id in ss && ss[id].active && ss[id].scheduledAt <= now ==> Answered(fires, id, false)
  }

  /** The first half of the answer. */
  lemma FirstHalf(ss: Schedules, now: nat, running: set<string>)
    ensures var fires := Releases(ss, Ids(ss), running);
            IsHalf(ss, now, running, fires, true) && AllReleased(ss, running, fires)
  {
    var fires := Releases(ss, Ids(ss), running);
    ReleasesAre(ss, Ids(ss), running);
    ReleasesInOrder(ss, Ids(ss), running);
    forall i | 0 <= i < |fires| ensures HalfRight(ss, fires[i], now, running, true) {
      assert fires[i] in fires;
    }
    forall i, j | 0 <= i < j < |fires| ensures Earlier(ss, fires[i], fires[j]) {
      assert IsBefore(fires[i].id, fires[j].id);
      assert HalfRight(ss, fires[i], now, running, true) && HalfRight(ss, fires[j], now, running, true);
    }
    forall id | id in ss && ss[id].held.Some? && id !in running ensures Answered(fires, id, true) {
      assert id in Ids(ss) && Releasable(ss, id, running);
      var i :| 0 <= i < |fires| && fires[i] == Fire(id, ss[id].held.value, Released);
    }
  }

  lemma RankedEarlier(ss: Schedules, freed: Schedules, f: Fire, g: Fire)
    requires f.id in ss && g.id in ss && f.id in freed && g.id in freed && f.id != g.id
    requires ss[f.id].scheduledAt == freed[f.id].scheduledAt && ss[g.id].scheduledAt == freed[g.id].scheduledAt
    requires f.decision != Released && g.decision != Released && Ordering.Before(Rank(freed), f.id, g.id)
    ensures Earlier(ss, f, g)
  {
  }

  /** The second half, read from the schedules the poll found. */
  lemma SecondHalf(ss: Schedules, now: nat, running: set<string>)
    ensures var freed := AfterReleases(ss, now, running);
            var fires := Dispatches(freed, DueIds(freed, now), now, running);
            IsHalf(ss, now, running, fires, false) && AllDecided(ss, now, fires)
  {
    var freed := AfterReleases(ss, now, running);
    var ids := DueIds(freed, now);
    var fires := Dispatches(freed, ids, now, running);
    forall i | 0 <= i < |fires| ensures HalfRight(ss, fires[i], now, running, false) {
      DueIsRight(ss, now, running, ids[i]);
    }
    forall i, j | 0 <= i < j < |fires| ensures Earlier(ss, fires[i], fires[j]) {
      FreedIsSame(ss, now, running, ids[i]);
      FreedIsSame(ss, now, running, ids[j]);
      assert HalfRight(ss, fires[i], now, running, false) && HalfRight(ss, fires[j], now, running, false);
      assert Ordering.Before(Rank(freed), ids[i], ids[j]);
      RankedEarlier(ss, freed, fires[i], fires[j]);
    }
    forall id | id in ss && ss[id].active && ss[id].scheduledAt <= now ensures Answered(fires, id, false) {
      FreedIsSame(ss, now, running, id);
      assert id in ids;
      var i :| 0 <= i < |ids| && ids[i] == id;
      assert fires[i].id == id && HalfRight(ss, fires[i], now, running, false);
    }
  }

  /** A poll of any store answers just what it owes. */
  lemma PollAnswers(ss: Schedules, now: nat, running: set<string>)
    ensures IsAnswer(ss, now, running, PollFires(ss, now, running))
  {
    var freed := AfterReleases(ss, now, running);
    FirstHalf(ss, now, running);
    SecondHalf(ss, now, running);
    Halves(ss, now, running, Releases(ss, Ids(ss), running), Dispatches(freed, DueIds(freed, now), now, running));
  }

  lemma Halves(ss: Schedules, now: nat, running: set<string>, first: seq<Fire>, second: seq<Fire>)
    requires IsHalf(ss, now, running, first, true) && AllReleased(ss, running, first)
    requires IsHalf(ss, now, running, second, false) && AllDecided(ss, now, second)
    ensures IsAnswer(ss, now, running, first + second)
  {
    var fires := first + second;
    forall i | 0 <= i < |fires| ensures IsRight(ss, fires[i], now, running) {
      if i < |first| {
        assert HalfRight(ss, first[i], now, running, true);
      } else {
        assert HalfRight(ss, second[i - |first|], now, running, false);
      }
    }
    forall i, j | 0 <= i < j < |fires| ensures Earlier(ss, fires[i], fires[j]) {
      if i < |first| <= j {
        assert HalfRight(ss, first[i], now, running, true) && HalfRight(ss, second[j - |first|], now, running, false);
      }
    }
    forall id | id in ss && ss[id].held.Some? && id !in running ensures Answered(fires, id, true) {
      var i :| 0 <= i < |first| && first[i].id == id && (first[i].decision == Released) == true;
      assert fires[i] == first[i];
    }
    forall id | id in ss && ss[id].active && ss[id].scheduledAt <= now ensures Answered(fires, id, false) {
      var i :| 0 <= i < |second| && second[i].id == id && (second[i].decision == Released) == false;
      assert fires[|first| + i] == second[i];
    }
  }

  // ----- what a poll leaves -----

  /** One schedule after a poll, field by field from the schedule before it. */
  ghost predicate Leaves(s: Schedule, t: Schedule, free: bool, now: nat) {
    var due := s.active && s.scheduledAt <= now;
    var released, runs := s.held.Some? && free, due && (free || s.overlap == Concurrent);
    var holds := due && !free && s.overlap == Queue && s.held.None?;
    && t.dispatches == s.dispatches + (if released then 1 else 0) + (if runs then 1 else 0)
    && t.lastDispatch == (if released || runs then Some(now) else s.lastDispatch)
    && (if holds then t.held.Some? && Owed(s, now, t.held.value)
        else t.held == if released then None else s.held)
    && t.active == (s.active && !(due && s.rule.At?))
    && (if due && s.rule.Every? then Grid.IsLeastAfter(s.rule.anchorMs, s.rule.intervalMs, now, t.scheduledAt)
        else t.scheduledAt == s.scheduledAt)
    && t == s.(dispatches := t.dispatches, lastDispatch := t.lastDispatch, held := t.held, active := t.active,
               scheduledAt := t.scheduledAt)
  }

  ghost predicate AllLeft(ss: Schedules, after: Schedules, now: nat, running: set<string>) {
    && ss.Keys == after.Keys
    && forall id :: id in ss ==> Leaves(ss[id], after[id], id !in running, now)
  }

  lemma SettledLeaves(s: Schedule, id: string, now: nat, running: set<string>)
    ensures var t := Settled(Freed(Some(s), id, now, running), id, now, running);
            t.Some? && Leaves(s, t.value, id !in running, now)
  {
    OccurrenceIsOwed(s, now);
    if s.rule.Every? {
      Grid.LeastWhole(s.rule.anchorMs, s.rule.intervalMs, now);
    }
  }

  lemma PollLeavesOne(ss: Schedules, now: nat, running: set<string>, id: string)
    ensures var after := AfterPoll(ss, now, running);
            (id in ss <==> id in after) && (id in ss ==> Leaves(ss[id], after[id], id !in running, now))
  {
    var t := Lookup(AfterPoll(ss, now, running), id);
    PollEffect(ss, now, running, id);
    if id in ss {
      SettledLeaves(ss[id], id, now, running);
      assert t.Some?;
    } else {
      assert t.None?;
    }
  }

  /** A poll leaves every schedule so, and keeps no other. */
  lemma PollLeaves(ss: Schedules, now: nat, running: set<string>)
    ensures AllLeft(ss, AfterPoll(ss, now, running), now, running)
  {
    forall id
      ensures id in ss <==> id in AfterPoll(ss, now, running)
      ensures id in ss ==> Leaves(ss[id], AfterPoll(ss, now, running)[id], id !in running, now)
    {
      PollLeavesOne(ss, now, running, id);
    }
  }

  /** The instant owed is one only, so what a `Held` fire answers is what is stored. */
  lemma OwedOnce(s: Schedule, now: nat, t: nat, u: nat)
    requires Owed(s, now, t) && Owed(s, now, u)
    ensures t == u
  {
    if s.rule.Every? && s.rule.anchorMs <= now {
      Grid.CurrentIsUnique(s.rule.anchorMs, s.rule.intervalMs, now, t, u);
    }
  }

  lemma HeldIsStored(ss: Schedules, now: nat, running: set<string>, f: Fire)
    requires f in PollFires(ss, now, running) && f.decision == Held
    ensures f.id in AfterPoll(ss, now, running) && AfterPoll(ss, now, running)[f.id].held == Some(f.occurrenceAt)
  {
    PollAnswers(ss, now, running);
    PollLeaves(ss, now, running);
    assert IsRight(ss, f, now, running);
    OwedOnce(ss[f.id], now, f.occurrenceAt, AfterPoll(ss, now, running)[f.id].held.value);
  }
}
