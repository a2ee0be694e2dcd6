/** What every change a store records keeps true, and what that says about the fires. */
module ScheduleLaws {
  import opened Wrappers
  import opened Sequences
  import Grid
  import opened Scheduling
  import opened ScheduleStep

  // ----- the changes a store records -----

  /** The store records `c` only when the schedule it names stands like this. */
  predicate Legal1(s: Option<Schedule>, c: Change) {
    match c.op
    case Create(_, _, rule, _, _, scheduledAt) =>
      && s.None? && FirstDue(rule, c.at) == Ok(scheduledAt)
    case Delete => s.Some? && s.value.active
    case Dispatch(acceptedAt, decision) =>
      && s.Some? && c.at == acceptedAt
      && match decision
         case Released => s.value.held.Some?
         case Held => IsDue(s.value, acceptedAt) && s.value.held.None? && s.value.overlap == Queue
         case Run => IsDue(s.value, acceptedAt) && s.value.held.None?
         case Skipped => IsDue(s.value, acceptedAt)
  }

  predicate Legal(ss: Schedules, log: seq<Change>) {
    log == [] ||
    var early, last := log[..|log| - 1], log[|log| - 1];
    Legal(ss, early) && Legal1(Lookup(FoldAll(ss, early), last.id), last)
  }

  lemma {:induction false} LegalAppend(ss: Schedules, a: seq<Change>, b: seq<Change>)
    ensures Legal(ss, a + b) <==> Legal(ss, a) && Legal(FoldAll(ss, a), b)
  {
    if b == [] {
      assert a + b == a;
    } else {
      var early := b[..|b| - 1];
      assert (a + b)[..|a + b| - 1] == a + early;
      LegalAppend(ss, a, early);
      FoldAppend(ss, a, early);
    }
  }

  lemma LegalPrefix(ss: Schedules, log: seq<Change>, k: nat)
    requires Legal(ss, log) && k <= |log|
    ensures Legal(ss, log[..k])
    ensures k == |log| ==> log[..k] == log
  {
    assert log == log[..k] + log[k..];
    LegalAppend(ss, log[..k], log[k..]);
  }

  /** The fire a recorded decision stands for. */
  function FireOf(s: Option<Schedule>, c: Change): seq<Fire> {
    if s.None? || !c.op.Dispatch? then []
    else if c.op.decision == Released then
      if s.value.held.None? then [] else [Fire(c.id, s.value.held.value, Released)]
    else [Fire(c.id, OccurrenceOf(s.value, c.op.acceptedAt), c.op.decision)]
  }

  /** The fires a run of changes stands for, in order. */
  function Trace(ss: Schedules, log: seq<Change>): seq<Fire> {
    if log == [] then []
    else
      var early, last := log[..|log| - 1], log[|log| - 1];
      Trace(ss, early) + FireOf(Lookup(FoldAll(ss, early), last.id), last)
  }

  lemma TraceSnoc(ss: Schedules, log: seq<Change>, c: Change)
    ensures Trace(ss, log + [c]) == Trace(ss, log) + FireOf(Lookup(FoldAll(ss, log), c.id), c)
  {
    assert (log + [c])[..|log|] == log;
  }

  lemma {:induction false} TraceAppend(ss: Schedules, a: seq<Change>, b: seq<Change>)
    ensures Trace(ss, a + b) == Trace(ss, a) + Trace(FoldAll(ss, a), b)
  {
    if b == [] {
      assert a + b == a;
    } else {
      var early, last := b[..|b| - 1], b[|b| - 1];
      var fire := FireOf(Lookup(FoldAll(ss, a + early), last.id), last);
      assert b == early + [last];
      Associative(a, early, [last]);
      TraceAppend(ss, a, early);
      FoldAppend(ss, a, early);
      TraceSnoc(ss, a + early, last);
      TraceSnoc(FoldAll(ss, a), early, last);
      Associative(Trace(ss, a), Trace(FoldAll(ss, a), early), fire);
    }
  }

  // ----- what every change keeps -----

  /** A held fire belongs to a queueing schedule and lies before the next occurrence, and a
      recurrence is due on its own grid. */
  ghost predicate Sane(s: Schedule) {
    && (s.held.Some? ==> s.overlap == Queue)
    && (s.held.Some? && s.active ==> s.held.value < s.scheduledAt)
    && match s.rule
       case At(atMs) => s.scheduledAt == atMs
       case Every(interval, anchor) => Grid.OnGrid(anchor, interval, s.scheduledAt)
  }

  ghost predicate AllSane(ss: Schedules) {
    forall id :: id in ss ==> Sane(ss[id])
  }

  /** Everything the schedule can still hand out lies after `b`. */
  predicate Past(s: Schedule, b: nat) {
    && (s.active ==> b < s.scheduledAt)
    && (s.held.Some? ==> b < s.held.value)
  }

  /** An occurrence decided at `now` was owed no earlier than the schedule said and is over
      when it moves on. */
  lemma DueOccurrence(s: Schedule, now: nat)
    requires Sane(s) && IsDue(s, now)
    ensures s.scheduledAt <= OccurrenceOf(s, now) <= now
    ensures s.rule.Every? ==> OccurrenceOf(s, now) < Advance(s, now).scheduledAt
  {
    match s.rule
    case At(_) =>
    case Every(interval, anchor) =>
      Grid.LatestIsGreatest(anchor, interval, now);
      Grid.NextIsLeast(anchor, interval, now);
  }

  lemma StepSane(s: Option<Schedule>, c: Change)
    requires s.Some? ==> Sane(s.value)
    requires Legal1(s, c)
    ensures Apply(s, c).Some? && Sane(Apply(s, c).value)
  {
    match c.op
    case Create(_, _, rule, _, _, _) =>
      if rule.Every? {
        Grid.NextIsLeast(rule.anchorMs, rule.intervalMs, c.at);
      }
    case Delete =>
    case Dispatch(acceptedAt, decision) =>
      if decision != Released {
        DueOccurrence(s.value, acceptedAt);
        if s.value.rule.Every? {
          Grid.NextIsLeast(s.value.rule.anchorMs, s.value.rule.intervalMs, acceptedAt);
        }
      }
  }

  /** What is past stays past, a delivered fire is later than everything past, and is
      itself past from then on. */
  lemma StepPast(s: Schedule, c: Change, b: nat)
    requires Sane(s) && Legal1(Some(s), c)
    ensures Past(s, b) ==> Past(Apply(Some(s), c).value, b)
    ensures var f := FireOf(Some(s), c);
            f != [] && Delivers(f[0].decision) ==>
              && (Past(s, b) ==> b < f[0].occurrenceAt)
              && Past(Apply(Some(s), c).value, f[0].occurrenceAt)
  {
    if c.op.Dispatch? && c.op.decision != Released {
      DueOccurrence(s, c.op.acceptedAt);
    }
  }

  lemma {:induction false} LegalSane(ss: Schedules, log: seq<Change>)
    requires AllSane(ss) && Legal(ss, log)
    ensures AllSane(FoldAll(ss, log))
  {
    if log != [] {
      var early, last := log[..|log| - 1], log[|log| - 1];
      LegalSane(ss, early);
      StepSane(Lookup(FoldAll(ss, early), last.id), last);
    }
  }

  /** Delivered occurrences of one schedule rise strictly. */
  predicate Rising(fires: seq<Fire>) {
    forall i, j :: 0 <= i < j < |fires| && fires[i].id == fires[j].id
      && Delivers(fires[i].decision) && Delivers(fires[j].decision)
      ==> fires[i].occurrenceAt < fires[j].occurrenceAt
  }

  /** Every delivered fire is over and done with. */
  predicate AllPast(ss: Schedules, fires: seq<Fire>) {
    forall f :: f in fires && Delivers(f.decision) ==> f.id in ss && Past(ss[f.id], f.occurrenceAt)
  }

  /** A lawful run of changes goes on rising above everything delivered before it. */
  lemma {:induction false} TraceRising(ss: Schedules, fires: seq<Fire>, log: seq<Change>)
    requires AllSane(ss) && Legal(ss, log)
    requires Rising(fires) && AllPast(ss, fires)
    ensures Rising(fires + Trace(ss, log))
    ensures AllPast(FoldAll(ss, log), fires + Trace(ss, log))
  {
    if log == [] {
      assert fires + Trace(ss, log) == fires;
    } else {
      var early, last := log[..|log| - 1], log[|log| - 1];
      TraceRising(ss, fires, early);
      LegalSane(ss, early);
      StepRising(FoldAll(ss, early), fires + Trace(ss, early), last);
      var f := FireOf(Lookup(FoldAll(ss, early), last.id), last);
      assert fires + (Trace(ss, early) + f) == fires + Trace(ss, early) + f;
    }
  }

  lemma StepRising(ss: Schedules, fires: seq<Fire>, c: Change)
    requires AllSane(ss) && Legal1(Lookup(ss, c.id), c)
    requires Rising(fires) && AllPast(ss, fires)
    ensures Rising(fires + FireOf(Lookup(ss, c.id), c))
    ensures AllPast(Fold(ss, c), fires + FireOf(Lookup(ss, c.id), c))
  {
    var s := Lookup(ss, c.id);
    var next := fires + FireOf(s, c);
    StepSane(s, c);
    forall f | f in fires && Delivers(f.decision) && f.id == c.id
      ensures Past(Fold(ss, c)[c.id], f.occurrenceAt)
      ensures FireOf(s, c) != [] && Delivers(FireOf(s, c)[0].decision) ==>
                f.occurrenceAt < FireOf(s, c)[0].occurrenceAt
    {
      StepPast(s.value, c, f.occurrenceAt);
    }
    if s.Some? {
      StepPast(s.value, c, 0);
    }
    forall f | f in next && Delivers(f.decision)
      ensures f.id in Fold(ss, c) && Past(Fold(ss, c)[f.id], f.occurrenceAt)
    {
      if f in fires {
      } else {
        assert f == FireOf(s, c)[0];
      }
    }
  }
}
