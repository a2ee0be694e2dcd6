/** The durable set of schedules: a file that is only ever appended to, and the fold of it
    held in memory. */
module ScheduleStore {
  import opened Wrappers
  import opened Journal
  import opened Scheduling
  import opened ScheduleStep
  import opened SchedulePoll
  import opened ScheduleAnswers
  import opened ScheduleRuns
  import Decimal
  import Grid
  import Minting
  import Ordering

  lemma {:induction false} ReplayFolds(log: seq<Change>)
    ensures Replay(Fold, map[], log) == FoldAll(map[], log)
  {
    if log != [] {
      ReplayFolds(log[..|log| - 1]);
    }
  }

  lemma RecordedSnoc(fired: seq<Fire>, f: Fire, now: nat)
    ensures Recorded(fired + [f], now) == Recorded(fired, now) + [RecordOf(f, now)]
  {
    assert (fired + [f])[..|fired|] == fired;
  }

  lemma RecordMore(c: Codec<Change>, base: seq<byte>, listed: Schedules, log: seq<Change>, change: Change)
    ensures base + Encode(c, log + [change]) == base + Encode(c, log) + Encode(c, [change])
    ensures FoldAll(listed, log + [change]) == Fold(FoldAll(listed, log), change)
  {
    assert (log + [change])[..|log|] == log;
    EncodeAppend(c, log, [change]);
  }

  lemma TakeOneMore<T>(a: seq<T>, b: seq<T>, i: nat)
    requires i < |b|
    ensures a + b[..i + 1] == a + b[..i] + [b[i]]
  {
  }

  /** A draft the store takes, whatever id it names. */
  predicate IsDraft(d: Draft, now: nat) {
    && !IsBlank(d.payload)
    && match d.rule
       case At(atMs) => atMs > now
       case Every(interval, _) => interval >= 60_000
  }

  /** The first instant the rule owes after the clock. */
  ghost predicate IsFirstDue(rule: Rule, now: nat, t: nat) {
    match rule
    case At(atMs) => t == atMs
    case Every(interval, anchor) => Grid.IsLeastAfter(anchor, interval, now, t)
  }

  /** The first fault of the draft, in the order the store looks. */
  predicate IsFault(d: Draft, now: nat, ss: Schedules, e: Error) {
    match e
    case EmptyPayload => IsBlank(d.payload)
    case NotFuture(atMs, nowMs) => !IsBlank(d.payload) && nowMs == now && d.rule == At(atMs) && atMs <= now
    case IntervalTooShort(interval) =>
      !IsBlank(d.payload) && d.rule.Every? && d.rule.intervalMs == interval && interval < 60_000
    case BadId(id) => IsDraft(d, now) && d.id == Some(id) && !Minting.IsShaped(id)
    case Duplicate(id) => IsDraft(d, now) && d.id == Some(id) && Minting.IsShaped(id) && id in ss
    case _ => false
  }

  class Store {
    const codec: Codec<Change>
    var file: seq<byte>
    var schedules: Schedules
    var minted: nat

    /** The file is whole and memory is the fold of it. */
    ghost predicate Valid()
      reads this
    {
      && Sound(codec)
      && Holds(codec, file, LogOf(codec, file))
      && schedules == Memory(codec, file)
    }

    constructor (codec: Codec<Change>, file: seq<byte>, schedules: Schedules)
      requires Sound(codec) && Holds(codec, file, LogOf(codec, file))
      requires schedules == Memory(codec, file)
      ensures Valid()
      ensures this.codec == codec && this.file == file && minted == 0
    {
      this.codec := codec;
      this.file := file;
      this.schedules := schedules;
      this.minted := 0;
    }

    /** Open the store on the bytes a path holds: refused when a committed line is damaged,
        and otherwise truncated to the last record boundary. */
    static method Open(codec: Codec<Change>, bytes: seq<byte>) returns (r: Result<Store, Error>)
      requires Sound(codec)
      ensures match Recover(codec, bytes)
              case Corrupt(line) => r == Err(CorruptLine(line))
              case Found(log, committed) =>
                && r.Ok? && fresh(r.value) && r.value.Valid()
                && r.value.codec == codec && r.value.minted == 0
                && r.value.file == bytes[..committed]
                && r.value.schedules == FoldAll(map[], log)
    {
      var scan := ScanInto(codec, Fold, map[], bytes);
      if scan.Err? {
        return Err(CorruptLine(scan.error));
      }
      ReplayFolds(Recover(codec, bytes).records);
      var file := bytes;
      if scan.value.committed < |bytes| {
        file := bytes[..scan.value.committed];
      }
      assert file == bytes[..scan.value.committed];
      TruncateHolds(codec, bytes);
      HoldsRecover(codec, file, Recover(codec, bytes).records);
      var store := new Store(codec, file, scan.value.state);
      r := Ok(store);
    }

    /** Write one line and fold it into memory. */
    method Append(change: Change)
      requires Valid()
      modifies this`file, this`schedules
      ensures Valid()
      ensures file == old(file) + Encode(codec, [change])
      ensures schedules == Fold(old(schedules), change)
    {
      ghost var log := LogOf(codec, file);
      assert [change][..0] == [] && Encode(codec, [change][..0]) == [];
      AppendHolds(codec, file, log, [change]);
      file := file + codec.encode(change) + [NEWLINE];
      assert file == old(file) + Encode(codec, [change]);
      HoldsRecover(codec, file, log + [change]);
      assert (log + [change])[..|log|] == log;
      schedules := Fold(schedules, change);
    }

    /** Record a schedule: active and never dispatched, with just what the draft says, due at
        the instant it names or at the first of its grid after the clock. */
    method Create(d: Draft, now: nat) returns (r: Result<Schedule, Error>)
      requires Valid()
      modifies this
      ensures Valid()
      ensures var p := PlanOf(old(schedules), old(minted), Creating(d, now));
              && file == old(file) + Encode(codec, p.changes)
              && schedules == FoldAll(old(schedules), p.changes) && minted == p.minted
      ensures r.Ok? ==>
                && IsDraft(d, now) && r.value.id !in old(schedules)
                && (d.id.Some? ==> r.value.id == d.id.value && minted == old(minted))
                && (d.id.None? ==> r.value.id == "schedule-" + Decimal.Show(minted)
                                   && Minting.FirstFree("schedule", old(schedules).Keys, old(minted), minted))
                && IsFirstDue(d.rule, now, r.value.scheduledAt)
                && r.value == Schedule(r.value.id, d.title, d.payload, d.rule, d.overlap, d.session,
                                       r.value.scheduledAt, now, 0, None, None, true)
                && schedules == old(schedules)[r.value.id := r.value]
      ensures r.Err? ==>
                && schedules == old(schedules) && file == old(file) && minted == old(minted)
                && IsFault(d, now, old(schedules), r.error)
    {
      if IsBlank(d.payload) {
        assert file == old(file) + Encode(codec, []);
        return Err(EmptyPayload);
      }
      var due := FirstDue(d.rule, now);
      if due.Err? {
        assert file == old(file) + Encode(codec, []);
        return Err(due.error);
      }
      var id;
      match d.id {
        case Some(given) =>
          if !Minting.IsShaped(given) {
            assert file == old(file) + Encode(codec, []);
            return Err(BadId(given));
          }
          if given in schedules {
            assert file == old(file) + Encode(codec, []);
            return Err(Duplicate(given));
          }
          id := given;
        case None =>
          var n := Minting.Mint("schedule", schedules.Keys, minted);
          Minting.FirstFreeUnique("schedule", schedules.Keys, minted, n,
                                  Minting.Fresh("schedule", schedules.Keys, minted));
          minted := n;
          id := Minting.Name("schedule", n);
      }
      FirstDueIsFirst(d.rule, now);
      FoldOne(schedules, Creation(id, d, now));
      Append(Creation(id, d, now));
      return Ok(schedules[id]);
    }

    /** Stop a schedule and throw away what it holds. An inactive one is left alone. */
    method Delete(id: string, now: nat) returns (r: Result<bool, Error>)
      requires Valid()
      modifies this`file, this`schedules
      ensures Valid()
      ensures var p := PlanOf(old(schedules), minted, Deleting(id, now));
              && file == old(file) + Encode(codec, p.changes)
              && schedules == FoldAll(old(schedules), p.changes)
      ensures r == if id in old(schedules) then Ok(old(schedules)[id].active) else Err(NoSuchSchedule(id))
      ensures r == Ok(true) ==> schedules == old(schedules)[id := old(schedules)[id].(active := false, held := None)]
      ensures r != Ok(true) ==> schedules == old(schedules) && file == old(file)
    {
      if id !in schedules || !schedules[id].active {
        assert file == old(file) + Encode(codec, []);
        return if id in schedules then Ok(false) else Err(NoSuchSchedule(id));
      }
      FoldOne(schedules, Change(id, now, Op.Delete));
      Append(Change(id, now, Op.Delete));
      return Ok(true);
    }

    /** Decide everything due at `now`, recording each decision before the next. Held fires
        whose run has ended go first. */
    method Poll(now: nat, running: set<string>) returns (fired: seq<Fire>)
      requires Valid()
      modifies this`file, this`schedules
      ensures Valid()
      ensures IsAnswer(old(schedules), now, running, fired)
      ensures AllLeft(old(schedules), schedules, now, running)
      ensures fired == PollFires(old(schedules), now, running)
      ensures file == old(file) + Encode(codec, Recorded(fired, now))
      ensures schedules == AfterPoll(old(schedules), now, running)
    {
      fired := ReleaseHeld(now, running);
      fired := DispatchDue(old(file), old(schedules), fired, now, running);
      PollAnswers(old(schedules), now, running);
      PollLeaves(old(schedules), now, running);
    }

    /** The fires recorded since the file read `base` and memory read `listed`. */
    ghost predicate Journalled(base: seq<byte>, listed: Schedules, fired: seq<Fire>, now: nat)
      reads this
    {
      && file == base + Encode(codec, Recorded(fired, now))
      && schedules == FoldAll(listed, Recorded(fired, now))
    }

    /** Append the record of one more decided fire. */
    method Record(ghost base: seq<byte>, ghost listed: Schedules, ghost fired: seq<Fire>, f: Fire, now: nat)
      requires Valid() && Journalled(base, listed, fired, now)
      modifies this`file, this`schedules
      ensures Valid() && Journalled(base, listed, fired + [f], now)
    {
      RecordedSnoc(fired, f, now);
      RecordMore(codec, base, listed, Recorded(fired, now), RecordOf(f, now));
      Append(RecordOf(f, now));
    }

    /** The first half of a poll: let go of what is held and free. */
    method ReleaseHeld(now: nat, running: set<string>) returns (fired: seq<Fire>)
      requires Valid()
      modifies this`file, this`schedules
      ensures Valid() && Journalled(old(file), old(schedules), fired, now)
      ensures fired == Releases(old(schedules), Ids(old(schedules)), running)
    {
      fired := [];
      var listed := schedules;
      var ids := Ids(listed);
      assert file + Encode(codec, Recorded(fired, now)) == file;
      for i := 0 to |ids|
        invariant Valid() && Journalled(old(file), listed, fired, now)
        invariant fired == Releases(listed, ids[..i], running)
      {
        ReleasesSnoc(listed, ids, i, running);
        if Releasable(listed, ids[i], running) {
          var f := HeldFire(listed, ids[i]);
          Record(old(file), listed, fired, f, now);
          fired := fired + [f];
        }
      }
      assert ids[..|ids|] == ids;
    }

    /** The second half: decide what is due now, oldest first. */
    method DispatchDue(ghost base: seq<byte>, ghost listed: Schedules, first: seq<Fire>, now: nat, running: set<string>)
      returns (fired: seq<Fire>)
      requires Valid() && Journalled(base, listed, first, now)
      modifies this`file, this`schedules
      ensures Valid() && Journalled(base, listed, fired, now)
      ensures fired == first + Dispatches(old(schedules), DueIds(old(schedules), now), now, running)
    {
      var due := Dispatches(schedules, DueIds(schedules, now), now, running);
      fired := RecordAll(base, listed, first, due, now);
    }

    /** Record the decided fires one after the other. */
    method RecordAll(ghost base: seq<byte>, ghost listed: Schedules, first: seq<Fire>, due: seq<Fire>, now: nat)
      returns (fired: seq<Fire>)
      requires Valid() && Journalled(base, listed, first, now)
      modifies this`file, this`schedules
      ensures Valid() && Journalled(base, listed, fired, now)
      ensures fired == first + due
    {
      fired := first;
      for i := 0 to |due|
        invariant Valid() && Journalled(base, listed, fired, now)
        invariant fired == first + due[..i]
      {
        TakeOneMore(first, due, i);
        Record(base, listed, fired, due[i], now);
        fired := fired + [due[i]];
      }
      assert due[..|due|] == due;
    }

    /** Which schedules are due, in key order, deciding nothing. */
    method Due(now: nat) returns (due: seq<Schedule>)
      ensures due == DueAmong(schedules, Ids(schedules), now)
    {
      due := KeepDue(schedules, Ids(schedules), now);
    }
  }

  lemma FirstDueIsFirst(rule: RawRule, now: nat)
    requires FirstDue(rule, now).Ok?
    ensures rule.Every? ==> rule.intervalMs > 0
    ensures IsFirstDue(rule, now, FirstDue(rule, now).value)
  {
    if rule.Every? {
      Grid.LeastWhole(rule.anchorMs, rule.intervalMs, now);
    }
  }

  // ----- the read that decides nothing -----

  function DueAmong(ss: Schedules, ids: seq<string>, now: nat): seq<Schedule>
    requires forall i :: 0 <= i < |ids| ==> ids[i] in ss
  {
    if ids == [] then []
    else
      var last := ids[|ids| - 1];
      DueAmong(ss, ids[..|ids| - 1], now) + if IsDue(ss[last], now) then [ss[last]] else []
  }

  method KeepDue(ss: Schedules, ids: seq<string>, now: nat) returns (due: seq<Schedule>)
    requires forall i :: 0 <= i < |ids| ==> ids[i] in ss
    ensures due == DueAmong(ss, ids, now)
  {
    due := [];
    for i := 0 to |ids|
      invariant due == DueAmong(ss, ids[..i], now)
    {
      DueOneMore(ss, ids, i, now);
      if IsDue(ss[ids[i]], now) {
        due := due + [ss[ids[i]]];
      }
    }
    assert ids[..|ids|] == ids;
  }

  lemma DueOneMore(ss: Schedules, ids: seq<string>, i: nat, now: nat)
    requires i < |ids| && forall k :: 0 <= k < |ids| ==> ids[k] in ss
    ensures DueAmong(ss, ids[..i + 1], now) ==
            if IsDue(ss[ids[i]], now) then DueAmong(ss, ids[..i], now) + [ss[ids[i]]] else DueAmong(ss, ids[..i], now)
  {
    assert ids[..i + 1][..i] == ids[..i];
  }

  predicate InKeyOrder(ids: seq<string>) {
    forall i, j :: 0 <= i < j < |ids| ==> ids[i] != ids[j] && Ordering.Before(Ordering.BY_KEY, ids[i], ids[j])
  }

  /** The schedules of a run of ids. */
  ghost predicate AreOf(due: seq<Schedule>, ss: Schedules, ids: seq<string>) {
    && |due| == |ids|
    && forall i :: 0 <= i < |ids| ==> ids[i] in ss && due[i] == ss[ids[i]]
  }

  /** The due ones among the ids, in the order the ids come. */
  lemma {:induction false} DueAre(ss: Schedules, ids: seq<string>, now: nat) returns (due: seq<string>)
    requires InKeyOrder(ids) && forall i :: 0 <= i < |ids| ==> ids[i] in ss
    ensures AreOf(DueAmong(ss, ids, now), ss, due) && InKeyOrder(due)
    ensures forall id :: id in due <==> id in ids && IsDue(ss[id], now)
  {
    due := [];
    if ids != [] {
      var early, last := ids[..|ids| - 1], ids[|ids| - 1];
      assert ids == early + [last];
      due := DueAre(ss, early, now);
      if IsDue(ss[last], now) {
        forall k | 0 <= k < |due| ensures due[k] != last && Ordering.Before(Ordering.BY_KEY, due[k], last) {
          assert due[k] in early;
          var j :| 0 <= j < |early| && early[j] == due[k];
          assert ids[j] == due[k];
        }
        due := due + [last];
      }
    }
  }

  /** The read answers the schedule of every id that is due, once each and in key order. */
  lemma DueMeaning(ss: Schedules, now: nat) returns (due: seq<string>)
    ensures AreOf(DueAmong(ss, Ids(ss), now), ss, due) && InKeyOrder(due)
    ensures forall id :: id in due <==> id in ss && IsDue(ss[id], now)
  {
    due := DueAre(ss, Ids(ss), now);
  }
}
