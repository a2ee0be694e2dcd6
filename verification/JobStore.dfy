/** The durable registry of jobs: a file that is only ever appended to, and the fold of it
    held in memory. */
module JobStore {
  import opened Wrappers
  import opened Journal
  import opened Jobs
  import opened JobRuns
  import Decimal
  import Minting

  lemma {:induction false} ReplayFolds(log: seq<Transition>)
    ensures Replay(Fold, map[], log) == FoldAll(map[], log)
  {
    if log != [] {
      ReplayFolds(log[..|log| - 1]);
    }
  }

  lemma ClosingsMore(ids: seq<string>, i: nat, at: nat)
    requires i < |ids|
    ensures Closings(ids[..i + 1], at) == Closings(ids[..i], at) + [Closing(ids[i], at)]
  {
    assert ids[..i + 1][..i] == ids[..i];
  }

  lemma EncodeMore(c: Codec<Transition>, base: seq<byte>, jobs: Table, log: seq<Transition>, t: Transition)
    ensures base + Encode(c, log + [t]) == base + Encode(c, log) + Encode(c, [t])
    ensures FoldAll(jobs, log + [t]) == Fold(FoldAll(jobs, log), t)
  {
    assert (log + [t])[..|log|] == log;
    EncodeAppend(c, log, [t]);
  }

  /** The jobs an open finds queued or running are interrupted at its clock, with the reason,
      and everything else is as it was. */
  ghost predicate AllClosed(before: Table, after: Table, at: nat) {
    before.Keys == after.Keys && forall id :: id in before ==> IsClosed(before[id], after[id], at)
  }

  predicate IsClosed(j: Job, t: Job, at: nat) {
    t == if j.status in {Queued, Running}
         then j.(status := Interrupted, finishedAt := Some(at),
                 detail := Some("the harness stopped while this job was live"))
         else j
  }

  lemma RepairedIsClosed(j: Job, at: nat)
    ensures Repaired(Some(j), at).Some? && IsClosed(j, Repaired(Some(j), at).value, at)
  {
  }

  lemma RepairedAreClosed(before: Table, after: Table, at: nat)
    requires AllRepaired(before, after, at)
    ensures AllClosed(before, after, at)
  {
    RepairedKeeps(before, after, at);
    forall id | id in before ensures id in after && IsClosed(before[id], after[id], at) {
      assert Lookup(after, id) == Repaired(Lookup(before, id), at);
      RepairedIsClosed(before[id], at);
    }
  }

  lemma RepairsClose(jobs: Table, at: nat)
    ensures AllClosed(jobs, FoldAll(jobs, Repairs(jobs, at)), at)
  {
    RepairCloses(jobs, at);
    RepairedAreClosed(jobs, FoldAll(jobs, Repairs(jobs, at)), at);
  }

  class Store {
    const codec: Codec<Transition>
    var file: seq<byte>
    var jobs: Table
    var minted: nat

    /** The file is whole and memory is the fold of it. */
    ghost predicate Valid()
      reads this
    {
      && Sound(codec)
      && Holds(codec, file, LogOf(codec, file))
      && jobs == Memory(codec, file)
    }

    constructor (codec: Codec<Transition>, file: seq<byte>, jobs: Table)
      requires Sound(codec) && Holds(codec, file, LogOf(codec, file))
      requires jobs == Memory(codec, file)
      ensures Valid()
      ensures this.codec == codec && this.file == file && this.jobs == jobs && minted == 0
    {
      this.codec := codec;
      this.file := file;
      this.jobs := jobs;
      this.minted := 0;
    }

    /** Open the store on the bytes a path holds: refused when a committed line is damaged,
        and otherwise truncated to the last record boundary and repaired. */
    static method Open(codec: Codec<Transition>, bytes: seq<byte>, at: nat) returns (r: Result<Store, Error>)
      requires Sound(codec)
      ensures match Recover(codec, bytes)
              case Corrupt(line) => r == Err(CorruptLine(line))
              case Found(log, committed) =>
                var left := FoldAll(map[], log);
                && r.Ok? && fresh(r.value) && r.value.Valid()
                && r.value.codec == codec && r.value.minted == 0
                && r.value.file == bytes[..committed] + Encode(codec, Repairs(left, at))
                && r.value.jobs == FoldAll(left, Repairs(left, at))
                && AllClosed(left, r.value.jobs, at)
    {
      var scan := ScanInto(codec, Fold, map[], bytes);
      if scan.Err? {
        return Err(CorruptLine(scan.error));
      }
      ReplayFolds(Recover(codec, bytes).records);
      var file := bytes;
      if scan.value.committed < |bytes| {
        file := bytes[..scan.value.committed];
      }
      assert file == bytes[..scan.value.committed];
      TruncateHolds(codec, bytes);
      HoldsRecover(codec, file, Recover(codec, bytes).records);
      var store := new Store(codec, file, scan.value.state);
      store.Repair(at);
      r := Ok(store);
    }

    /** Close everything the journal left live, recording each end before the next. */
    method Repair(at: nat)
      requires Valid()
      modifies this`file, this`jobs
      ensures Valid()
      ensures file == old(file) + Encode(codec, Repairs(old(jobs), at))
      ensures jobs == FoldAll(old(jobs), Repairs(old(jobs), at))
      ensures AllClosed(old(jobs), jobs, at)
    {
      RepairsClose(jobs, at);
      CloseAll(LiveIds(jobs), at);
    }

    method CloseAll(ids: seq<string>, at: nat)
      requires Valid()
      modifies this`file, this`jobs
      ensures Valid()
      ensures file == old(file) + Encode(codec, Closings(ids, at))
      ensures jobs == FoldAll(old(jobs), Closings(ids, at))
    {
      assert file + Encode(codec, Closings([], at)) == file;
      for i := 0 to |ids|
        invariant Valid()
        invariant file == old(file) + Encode(codec, Closings(ids[..i], at))
        invariant jobs == FoldAll(old(jobs), Closings(ids[..i], at))
      {
        ClosingsMore(ids, i, at);
        EncodeMore(codec, old(file), old(jobs), Closings(ids[..i], at), Closing(ids[i], at));
        Append(Closing(ids[i], at));
      }
      assert ids[..|ids|] == ids;
    }

    /** Write one line and fold it into memory. */
    method Append(t: Transition)
      requires Valid()
      modifies this`file, this`jobs
      ensures Valid()
      ensures file == old(file) + Encode(codec, [t])
      ensures jobs == Fold(old(jobs), t)
    {
      ghost var log := LogOf(codec, file);
      assert [t][..0] == [] && Encode(codec, [t][..0]) == [];
      AppendHolds(codec, file, log, [t]);
      file := file + codec.encode(t) + [NEWLINE];
      assert file == old(file) + Encode(codec, [t]);
      HoldsRecover(codec, file, log + [t]);
      assert (log + [t])[..|log|] == log;
      jobs := Fold(jobs, t);
    }

    /** Record a new job under the caller's id, or one the store makes up: it is queued, with
        just the fields it was handed. */
    method Enqueue(id: Option<string>, kind: string, title: string, session: Option<string>, at: nat)
      returns (r: Result<Job, Error>)
      requires Valid()
      modifies this
      ensures Valid()
      ensures var p := PlanOf(old(jobs), old(minted), Queueing(id, kind, title, session, at));
              && file == old(file) + Encode(codec, p.changes)
              && jobs == FoldAll(old(jobs), p.changes) && minted == p.minted
      ensures r.Ok? ==>
                && Minting.IsShaped(kind) && r.value.id !in old(jobs)
                && (id.Some? ==> r.value.id == id.value && Minting.IsShaped(id.value) && minted == old(minted))
                && (id.None? ==> r.value.id == kind + "-" + Decimal.Show(minted)
                                 && Minting.FirstFree(kind, old(jobs).Keys, old(minted), minted))
                && r.value == Job(r.value.id, kind, title, session, Queued, None, None, at, None, None)
                && jobs == old(jobs)[r.value.id := r.value]
      ensures r.Err? ==>
                && jobs == old(jobs) && file == old(file) && minted == old(minted)
                && (|| (!Minting.IsShaped(kind) && r.error == BadName("kind", kind))
                    || (Minting.IsShaped(kind) && id.Some?
                        && if Minting.IsShaped(id.value) then id.value in old(jobs) && r.error == Duplicate(id.value)
                           else r.error == BadName("job id", id.value)))
    {
      assert file + Encode(codec, []) == file;
      if !Minting.IsShaped(kind) {
        return Err(BadName("kind", kind));
      }
      var name;
      if id.Some? {
        if !Minting.IsShaped(id.value) {
          return Err(BadName("job id", id.value));
        }
        if id.value in jobs {
          return Err(Duplicate(id.value));
        }
        name := id.value;
      } else {
        var n := Minting.Mint(kind, jobs.Keys, minted);
        Minting.FirstFreeUnique(kind, jobs.Keys, minted, n, Minting.Fresh(kind, jobs.Keys, minted));
        minted := n;
        name := Minting.Name(kind, n);
      }
      FoldOne(jobs, Transition(name, at, Queue(kind, title, session)));
      Append(Transition(name, at, Queue(kind, title, session)));
      return Ok(jobs[name]);
    }

    /** Mark a queued job started, and nothing else about it. */
    method Begin(id: string, at: nat) returns (r: Result<Job, Error>)
      requires Valid()
      modifies this`file, this`jobs
      ensures Valid()
      ensures var p := PlanOf(old(jobs), minted, Starting(id, at));
              file == old(file) + Encode(codec, p.changes) && jobs == FoldAll(old(jobs), p.changes)
      ensures r.Ok? ==>
                && id in old(jobs) && old(jobs)[id].status == Queued
                && r.value == old(jobs)[id].(status := Running, startedAt := Some(at))
                && jobs == old(jobs)[id := r.value]
      ensures r.Err? ==>
                && jobs == old(jobs) && file == old(file)
                && (if id !in old(jobs) then r.error == NoSuchJob(id)
                    else old(jobs)[id].status != Queued && r.error == NotStartable(id, old(jobs)[id].status))
    {
      assert file + Encode(codec, []) == file;
      if id !in jobs {
        return Err(NoSuchJob(id));
      }
      if jobs[id].status != Queued {
        return Err(NotStartable(id, jobs[id].status));
      }
      FoldOne(jobs, Transition(id, at, Start));
      Append(Transition(id, at, Start));
      return Ok(jobs[id]);
    }

    /** Give a live job the status asked for, with the detail and output handed over; what is
        not handed over stays as it was. An ended job is refused. */
    method Settle(id: string, status: Status, detail: Option<string>, output: Option<string>, at: nat)
      returns (r: Result<Job, Error>)
      requires Valid()
      modifies this`file, this`jobs
      ensures Valid()
      ensures var p := PlanOf(old(jobs), minted, Finishing(id, status, detail, output, at));
              file == old(file) + Encode(codec, p.changes) && jobs == FoldAll(old(jobs), p.changes)
      ensures r.Ok? ==>
                && id in old(jobs) && old(jobs)[id].status in {Queued, Running}
                && r.value.detail == (if detail.Some? then detail else old(jobs)[id].detail)
                && r.value.output == (if output.Some? then output else old(jobs)[id].output)
                && r.value == old(jobs)[id].(status := status, finishedAt := Some(at),
                                             detail := r.value.detail, output := r.value.output)
                && jobs == old(jobs)[id := r.value]
      ensures r.Err? ==>
                && jobs == old(jobs) && file == old(file)
                && (if id !in old(jobs) then r.error == NoSuchJob(id)
                    else
                      && old(jobs)[id].status !in {Queued, Running}
                      && r.error == AlreadyEnded(id, old(jobs)[id].status))
    {
      assert file + Encode(codec, []) == file;
      if id !in jobs {
        return Err(NoSuchJob(id));
      }
      if jobs[id].status.IsTerminal() {
        return Err(AlreadyEnded(id, jobs[id].status));
      }
      FoldOne(jobs, Transition(id, at, Finish(status, detail, output)));
      Append(Transition(id, at, Finish(status, detail, output)));
      return Ok(jobs[id]);
    }
  }
}
