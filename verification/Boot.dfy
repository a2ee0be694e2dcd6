/** Starting every plugin, undoing a boot that fails half way, and stopping them all. What a
    plugin's own start or stop answers is given; what is proved is which calls are made. */
module Boot {
  import opened Sequences
  import opened Wrappers
  import opened Registry

  /** One call the registry makes on a plugin. */
  datatype Call = Start(id: string) | Stop(id: string)

  /** What each plugin's start and stop answer: a fault, or none. */
  datatype Plugins = Plugins(start: string -> Option<string>, stop: string -> Option<string>)

  function Starts(ids: seq<string>): (calls: seq<Call>)
    ensures |calls| == |ids| && forall i :: 0 <= i < |ids| ==> calls[i] == Start(ids[i])
  {
    if ids == [] then [] else Starts(ids[..|ids| - 1]) + [Start(ids[|ids| - 1])]
  }

  function Stops(ids: seq<string>): (calls: seq<Call>)
    ensures |calls| == |ids| && forall i :: 0 <= i < |ids| ==> calls[i] == Stop(ids[i])
  {
    if ids == [] then [] else Stops(ids[..|ids| - 1]) + [Stop(ids[|ids| - 1])]
  }

  /** The stop faults met along `ids`, in that order. */
  function StopFaults(p: Plugins, ids: seq<string>): seq<(string, string)> {
    if ids == [] then []
    else
      var last := ids[|ids| - 1];
      StopFaults(p, ids[..|ids| - 1]) + if p.stop(last).Some? then [(last, p.stop(last).value)] else []
  }

  /** `faults` are those of the stops at the places `at`, which are all that failed, in the
      order of the names. */
  ghost predicate FailedAt(p: Plugins, ids: seq<string>, faults: seq<(string, string)>, at: seq<nat>) {
    && |at| == |faults|
    && (forall i :: 0 <= i < |at| ==>
          at[i] < |ids| && faults[i].0 == ids[at[i]] && p.stop(ids[at[i]]) == Some(faults[i].1))
    && (forall i, j :: 0 <= i < j < |at| ==> at[i] < at[j])
    && (forall k :: 0 <= k < |ids| && p.stop(ids[k]).Some? ==> k in at)
  }

  lemma {:induction false} StopFaultsAre(p: Plugins, ids: seq<string>) returns (at: seq<nat>)
    ensures FailedAt(p, ids, StopFaults(p, ids), at)
  {
    at := [];
    if ids != [] {
      var early, last := ids[..|ids| - 1], ids[|ids| - 1];
      at := StopFaultsAre(p, early);
      if p.stop(last).Some? {
        at := at + [|ids| - 1];
      }
    }
  }

  /** One stop for each name, whatever the others answer. */
  method StopEach(p: Plugins, ids: seq<string>) returns (faults: seq<(string, string)>, calls: seq<Call>)
    ensures calls == Stops(ids)
    ensures faults == StopFaults(p, ids) && exists at :: FailedAt(p, ids, faults, at)
  {
    ghost var at := StopFaultsAre(p, ids);
    faults, calls := [], [];
    for i := 0 to |ids|
      invariant calls == Stops(ids[..i]) && faults == StopFaults(p, ids[..i])
    {
      assert ids[..i + 1][..i] == ids[..i];
      calls := calls + [Stop(ids[i])];
      var answer := p.stop(ids[i]);
      if answer.Some? {
        faults := faults + [(ids[i], answer.value)];
      }
    }
    assert ids[..|ids|] == ids;
    assert FailedAt(p, ids, faults, at);
  }

  /** How many plugins along `order` start before the first that fails. */
  function Mounted(p: Plugins, order: seq<string>): (k: nat)
    ensures k <= |order|
    ensures forall i :: 0 <= i < k ==> p.start(order[i]).None?
    ensures k < |order| ==> p.start(order[k]).Some?
  {
    if order == [] then 0
    else
      var k := Mounted(p, order[..|order| - 1]);
      if k == |order| - 1 && p.start(order[k]).None? then |order| else k
  }

  /** The calls of a boot whose plugin at place `k` fails. */
  function FailedBoot(order: seq<string>, k: nat): seq<Call>
    requires k < |order|
  {
    Starts(order[..k + 1]) + Stops(Reverse(order[..k]))
  }

  /** What a boot along `order` answers: the first failure, if there is one. */
  function BootAnswer(p: Plugins, order: seq<string>): Result<seq<string>, Error> {
    var k := Mounted(p, order);
    if k == |order| then Ok(order) else Err(StartFailed(order[k], p.start(order[k]).value))
  }

  function BootCalls(p: Plugins, order: seq<string>): seq<Call> {
    var k := Mounted(p, order);
    if k == |order| then Starts(order) else FailedBoot(order, k)
  }

  /** The plugin at place `k` is the first along `order` that does not start. */
  ghost predicate FirstToFail(p: Plugins, order: seq<string>, k: nat) {
    && k < |order| && p.start(order[k]).Some?
    && forall i :: 0 <= i < k ==> p.start(order[i]).None?
  }

  /** Everything up to place `k` is asked to start and everything before it to stop, each
      once, and nothing is asked to start after a stop. */
  ghost predicate IsUndone(order: seq<string>, k: nat, calls: seq<Call>)
    requires k < |order|
  {
    && (forall id :: Start(id) in calls <==> id in order[..k + 1])
    && (forall id :: Stop(id) in calls <==> id in order[..k])
    && (forall i, j :: 0 <= i < j < |calls| ==> calls[i] != calls[j])
    && (forall i, j :: 0 <= i < j < |calls| && calls[i].Stop? ==> calls[j].Stop?)
  }

  /** No plugin is started before all it depends on, and none is stopped after. */
  ghost predicate KeepsOrder(g: Graph, calls: seq<Call>) {
    forall id, d :: id in g && d in g[id] ==> Keeps(calls, id, d)
  }

  ghost predicate Keeps(calls: seq<Call>, id: string, d: string) {
    && (Start(id) in calls ==> Precedes(calls, Start(d), Start(id)))
    && (Stop(id) in calls ==> Precedes(calls, Stop(id), Stop(d)))
  }

  /** What a boot along `order` is to answer and to call: every plugin started, or the first
      that fails named and what started before it undone. */
  ghost predicate IsBoot(
    g: Graph, p: Plugins, order: seq<string>, r: Result<seq<string>, Error>, calls: seq<Call>)
  {
    && KeepsOrder(g, calls)
    && ((forall i :: 0 <= i < |order| ==> p.start(order[i]).None?) ==>
          && r == Ok(order) && |calls| == |order|
          && forall i :: 0 <= i < |order| ==> calls[i] == Start(order[i]))
    && forall k: nat :: FirstToFail(p, order, k) ==>
         r == Err(StartFailed(order[k], p.start(order[k]).value)) && IsUndone(order, k, calls)
  }

  /** Start every plugin in the registry's order; when one fails, stop those already
      started, dependents first, and answer the failure. */
  method StartAll(g: Graph, p: Plugins) returns (r: Result<seq<string>, Error>, calls: seq<Call>)
    ensures OrderOf(g).Err? ==> r == Err(OrderOf(g).error) && calls == []
    ensures OrderOf(g).Ok? ==> IsBoot(g, p, OrderOf(g).value, r, calls)
  {
    calls := [];
    var sorted := StartOrder(g);
    if sorted.Err? {
      return Err(sorted.error), calls;
    }
    r, calls := StartInOrder(sorted.value, p);
    OrderSound(g);
    BootIsBoot(g, p, sorted.value);
  }

  method StartInOrder(order: seq<string>, p: Plugins) returns (r: Result<seq<string>, Error>, calls: seq<Call>)
    ensures r == BootAnswer(p, order) && calls == BootCalls(p, order)
  {
    calls := [];
    for i := 0 to |order|
      invariant calls == Starts(order[..i])
      invariant forall j :: 0 <= j < i ==> p.start(order[j]).None?
    {
      assert order[..i + 1][..i] == order[..i];
      calls := calls + [Start(order[i])];
      var answer := p.start(order[i]);
      if answer.Some? {
        var faults, undone := StopEach(p, Reverse(order[..i]));
        calls := calls + undone;
        assert Mounted(p, order) == i;
        return Err(StartFailed(order[i], answer.value)), calls;
      }
    }
    assert order[..|order|] == order;
    return Ok(order), calls;
  }

  /** Stop every plugin, dependents first, and answer what failed. */
  method StopAll(g: Graph, p: Plugins) returns (r: Result<seq<(string, string)>, Error>, calls: seq<Call>)
    ensures OrderOf(g).Err? ==> r == Err(OrderOf(g).error) && calls == []
    ensures OrderOf(g).Ok? ==>
              && calls == Stops(Reverse(OrderOf(g).value))
              && r.Ok? && exists at :: FailedAt(p, Reverse(OrderOf(g).value), r.value, at)
  {
    calls := [];
    var sorted := StartOrder(g);
    if sorted.Err? {
      return Err(sorted.error), calls;
    }
    var faults;
    faults, calls := StopEach(p, Reverse(sorted.value));
    return Ok(faults), calls;
  }

  // ----- what those calls mean -----

  /** `first` is called, and called before `second`. */
  ghost predicate Precedes(calls: seq<Call>, first: Call, second: Call) {
    exists i, j :: 0 <= i < j < |calls| && calls[i] == first && calls[j] == second
  }

  lemma StartsBefore(g: Graph, order: seq<string>, rest: seq<Call>, i: nat, d: string)
    requires DepsFirst(g, order) && i < |order| && d in g[order[i]]
    ensures Precedes(Starts(order) + rest, Start(d), Start(order[i]))
  {
    var calls := Starts(order) + rest;
    assert d in order[..i];
    var j :| 0 <= j < i && order[j] == d;
    assert calls[j] == Start(d) && calls[i] == Start(order[i]);
  }

  lemma StopsAfter(g: Graph, order: seq<string>, first: seq<Call>, i: nat, d: string)
    requires DepsFirst(g, order) && i < |order| && d in g[order[i]]
    ensures Precedes(first + Stops(Reverse(order)), Stop(order[i]), Stop(d))
  {
    var back := Reverse(order);
    var calls := first + Stops(back);
    assert d in order[..i];
    var j :| 0 <= j < i && order[j] == d;
    assert back[|order| - 1 - i] == order[i] && back[|order| - 1 - j] == d;
    assert calls[|first| + |order| - 1 - i] == Stop(order[i]);
    assert calls[|first| + |order| - 1 - j] == Stop(d);
  }

  /** The calls that start `ups` and then stop `downs`. */
  ghost predicate AreCalls(calls: seq<Call>, ups: seq<string>, downs: seq<string>) {
    && |calls| == |ups| + |downs|
    && forall i :: 0 <= i < |calls| ==> calls[i] == if i < |ups| then Start(ups[i]) else Stop(downs[i - |ups|])
  }

  lemma CallsListed(calls: seq<Call>, ups: seq<string>, downs: seq<string>)
    requires AreCalls(calls, ups, downs)
    ensures forall id :: Start(id) in calls <==> id in ups
    ensures forall id :: Stop(id) in calls <==> id in downs
  {
    forall id ensures Start(id) in calls <==> id in ups {
      if id in ups {
        var i :| 0 <= i < |ups| && ups[i] == id;
        assert calls[i] == Start(id);
      }
    }
    forall id ensures Stop(id) in calls <==> id in downs {
      if id in downs {
        var i :| 0 <= i < |downs| && downs[i] == id;
        assert calls[|ups| + i] == Stop(id);
      }
    }
  }

  lemma CallsDistinct(calls: seq<Call>, ups: seq<string>, downs: seq<string>)
    requires AreCalls(calls, ups, downs) && Distinct(ups) && Distinct(downs)
    ensures forall i, j :: 0 <= i < j < |calls| ==> calls[i] != calls[j]
    ensures forall i, j :: 0 <= i < j < |calls| && calls[i].Stop? ==> calls[j].Stop?
  {
  }

  lemma Reversed(ids: seq<string>)
    requires Distinct(ids)
    ensures Distinct(Reverse(ids)) && forall id :: id in Reverse(ids) <==> id in ids
  {
    forall id ensures id in Reverse(ids) <==> id in ids {
      if id in ids {
        var i :| 0 <= i < |ids| && ids[i] == id;
        assert Reverse(ids)[|ids| - 1 - i] == id;
      }
    }
  }

  lemma FailedCalls(order: seq<string>, k: nat)
    requires Distinct(order) && k < |order|
    ensures IsUndone(order, k, FailedBoot(order, k))
  {
    Reversed(order[..k]);
    CallsListed(FailedBoot(order, k), order[..k + 1], Reverse(order[..k]));
    CallsDistinct(FailedBoot(order, k), order[..k + 1], Reverse(order[..k]));
  }

  lemma FailedOrder(g: Graph, order: seq<string>, k: nat, id: string, d: string)
    requires IsStartOrder(g, order) && k < |order| && id in g && d in g[id]
    ensures Keeps(FailedBoot(order, k), id, d)
  {
    var started, undone := order[..k + 1], order[..k];
    FailedCalls(order, k);
    PrefixDepsFirst(g, order, k + 1);
    PrefixDepsFirst(g, order, k);
    if id in started {
      var i :| 0 <= i < |started| && started[i] == id;
      StartsBefore(g, started, Stops(Reverse(undone)), i, d);
    }
    if id in undone {
      var i :| 0 <= i < |undone| && undone[i] == id;
      StopsAfter(g, undone, Starts(started), i, d);
    }
  }

  /** When the plugin at place `k` is the first to fail, everything up to it is asked to
      start, and exactly what started before it is stopped: not the one that failed, not one
      never reached, and none twice. */
  lemma RollbackCalls(p: Plugins, order: seq<string>, k: nat)
    requires Distinct(order) && FirstToFail(p, order, k)
    ensures IsUndone(order, k, BootCalls(p, order))
    ensures BootAnswer(p, order) == Err(StartFailed(order[k], p.start(order[k]).value))
  {
    assert Mounted(p, order) == k;
    FailedCalls(order, k);
  }

  /** Whether it fails or not, a boot starts nothing before all it depends on, and stops
      nothing after something it depends on. */
  lemma RollbackOrder(g: Graph, p: Plugins, order: seq<string>)
    requires IsStartOrder(g, order)
    ensures KeepsOrder(g, BootCalls(p, order))
  {
    forall id, d | id in g && d in g[id] ensures Keeps(BootCalls(p, order), id, d) {
      if Mounted(p, order) == |order| {
        Mirrored(g, order, id, d);
      } else {
        FailedOrder(g, order, Mounted(p, order), id, d);
      }
    }
  }

  lemma BootIsBoot(g: Graph, p: Plugins, order: seq<string>)
    requires IsStartOrder(g, order)
    ensures IsBoot(g, p, order, BootAnswer(p, order), BootCalls(p, order))
  {
    RollbackOrder(g, p, order);
    forall k: nat | FirstToFail(p, order, k)
      ensures IsUndone(order, k, BootCalls(p, order))
      ensures BootAnswer(p, order) == Err(StartFailed(order[k], p.start(order[k]).value))
    {
      RollbackCalls(p, order, k);
    }
  }

  lemma PrefixDepsFirst(g: Graph, order: seq<string>, k: nat)
    requires DepsFirst(g, order) && k <= |order|
    ensures DepsFirst(g, order[..k])
  {
    assert forall i :: 0 <= i < k ==> order[..k][..i] == order[..i];
  }

  /** Each plugin starts after what it depends on and stops before it. */
  ghost predicate Mirrors(up: seq<Call>, down: seq<Call>, id: string, d: string) {
    Precedes(up, Start(d), Start(id)) && Precedes(down, Stop(id), Stop(d))
  }

  lemma Mirrored(g: Graph, order: seq<string>, id: string, d: string)
    requires IsStartOrder(g, order) && id in g && d in g[id]
    ensures Mirrors(Starts(order), Stops(Reverse(order)), id, d)
  {
    var i :| 0 <= i < |order| && order[i] == id;
    StartsBefore(g, order, [], i, d);
    StopsAfter(g, order, [], i, d);
    assert Starts(order) + [] == Starts(order);
    assert [] + Stops(Reverse(order)) == Stops(Reverse(order));
  }

  /** A boot that succeeds and a later stop of everything mirror each other: every plugin
      starts once after its dependencies, and stops once before them. */
  lemma ShutdownMirrorsBoot(g: Graph, order: seq<string>)
    requires IsStartOrder(g, order)
    ensures var up, down := Starts(order), Stops(Reverse(order));
            && |up| == |down| == |g|
            && (forall i :: 0 <= i < |up| ==> down[i].id == up[|up| - 1 - i].id)
            && (forall id, d :: id in g && d in g[id] ==> Mirrors(up, down, id, d))
  {
    forall id, d | id in g && d in g[id] ensures Mirrors(Starts(order), Stops(Reverse(order)), id, d) {
      Mirrored(g, order, id, d);
    }
    DistinctCount(order, g.Keys);
  }

  lemma {:induction false} DistinctCount(ids: seq<string>, keys: set<string>)
    requires Distinct(ids) && forall id :: id in ids <==> id in keys
    ensures |ids| == |keys|
  {
    if ids == [] {
      assert keys == {};
    } else {
      var early, last := ids[..|ids| - 1], ids[|ids| - 1];
      assert ids == early + [last];
      assert last !in early;
      DistinctCount(early, keys - {last});
    }
  }
}
