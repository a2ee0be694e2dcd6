/** Plugins and their declared dependencies: the order they start in, and what a boot that
    fails half way undoes. */
module Registry {
  import opened Wrappers
  import Ordering

  /** Each registered plugin with the ids it depends on, in declaration order. */
  type Graph = map<string, seq<string>>

  datatype Error =
    | Duplicate(id: string)
    | Cycle(id: string)
    | MissingDep(missing: string, owner: string)
    | StartFailed(id: string, source: string)

  // ----- what a start order is -----

  ghost predicate IsPath(g: Graph, p: seq<string>) {
    forall i :: 0 <= i < |p| - 1 ==> p[i] in g && p[i + 1] in g[p[i]]
  }

  /** A chain of dependencies leads from the plugin back to itself. */
  ghost predicate OnCycle(g: Graph, id: string) {
    exists p :: |p| >= 2 && p[0] == id && p[|p| - 1] == id && IsPath(g, p)
  }

  ghost predicate Acyclic(g: Graph) {
    forall id :: !OnCycle(g, id)
  }

  predicate IsMissing(g: Graph, missing: string, owner: string) {
    owner in g && missing in g[owner] && missing !in g
  }

  ghost predicate Closed(g: Graph) {
    forall owner, d :: !IsMissing(g, d, owner)
  }

  predicate Distinct(order: seq<string>) {
    forall i, j :: 0 <= i < j < |order| ==> order[i] != order[j]
  }

  /** Everything on the order comes after all it depends on. */
  ghost predicate DepsFirst(g: Graph, order: seq<string>) {
    forall i :: 0 <= i < |order| ==> order[i] in g && forall d :: d in g[order[i]] ==> d in order[..i]
  }

  /** Every plugin once, each after all it depends on. */
  ghost predicate IsStartOrder(g: Graph, order: seq<string>) {
    && Distinct(order) && DepsFirst(g, order)
    && forall id :: id in order <==> id in g
  }

  /** Along a chain of dependencies the place in a start order only goes down. */
  lemma {:induction false} PathDescends(g: Graph, order: seq<string>, p: seq<string>, i: nat)
    requires Distinct(order) && DepsFirst(g, order)
    requires |p| > 0 && IsPath(g, p) && i < |order| && p[0] == order[i]
    ensures p[|p| - 1] in order[..i + 1]
    ensures |p| >= 2 ==> p[|p| - 1] in order[..i]
    decreases |p|
  {
    if |p| >= 2 {
      assert p[1] in order[..i];
      var j :| 0 <= j < i && order[j] == p[1];
      assert IsPath(g, p[1..]) by {
        forall k | 0 <= k < |p| - 2 ensures p[1..][k] in g && p[1..][k + 1] in g[p[1..][k]] {
          assert p[1..][k] == p[k + 1] && p[1..][k + 1] == p[k + 2];
        }
      }
      PathDescends(g, order, p[1..], j);
      assert order[..j + 1] <= order[..i];
    }
  }

  /** A start order exists only when nothing is missing and nothing goes round. */
  lemma OrderExcludes(g: Graph, order: seq<string>)
    requires IsStartOrder(g, order)
    ensures Closed(g) && Acyclic(g)
  {
    forall owner, d ensures !IsMissing(g, d, owner) {
      if owner in g && d in g[owner] {
        var i :| 0 <= i < |order| && order[i] == owner;
        assert d in order[..i];
      }
    }
    forall id ensures !OnCycle(g, id) {
      if OnCycle(g, id) {
        var p :| |p| >= 2 && p[0] == id && p[|p| - 1] == id && IsPath(g, p);
        assert p[0] in g;
        var i :| 0 <= i < |order| && order[i] == id;
        PathDescends(g, order, p, i);
        assert false;
      }
    }
  }

  // ----- the walk -----

  datatype Color = Visiting | Finished

  /** A colour for each plugin seen, and the order so far. */
  datatype Marks = Marks(state: map<string, Color>, order: seq<string>)

  /** The marks after visiting one plugin and, depth first, all it depends on. */
  function Visited(g: Graph, m: Marks, id: string): (r: Result<Marks, Error>)
    requires m.state.Keys <= g.Keys && id in g
    ensures r.Ok? ==> m.state.Keys <= r.value.state.Keys <= g.Keys
    decreases g.Keys - m.state.Keys, 0
  {
    if id in m.state then
      if m.state[id] == Visiting then Err(Cycle(id)) else Ok(m)
    else
      var entered := m.(state := m.state[id := Visiting]);
      assert id in g.Keys - m.state.Keys && id !in g.Keys - entered.state.Keys;
      match VisitedDeps(g, entered, id, |g[id]|)
      case Err(e) => Err(e)
      case Ok(below) => Ok(Marks(below.state[id := Finished], below.order + [id]))
  }

  /** The marks after visiting the first `n` plugins `id` depends on. */
  function VisitedDeps(g: Graph, m: Marks, id: string, n: nat): (r: Result<Marks, Error>)
    requires m.state.Keys <= g.Keys && id in g && n <= |g[id]|
    ensures r.Ok? ==> m.state.Keys <= r.value.state.Keys <= g.Keys
    decreases g.Keys - m.state.Keys, n
  {
    if n == 0 then Ok(m)
    else
      match VisitedDeps(g, m, id, n - 1)
      case Err(e) => Err(e)
      case Ok(sofar) =>
        if g[id][n - 1] !in g then Err(MissingDep(g[id][n - 1], id))
        else
          assert g.Keys - sofar.state.Keys <= g.Keys - m.state.Keys;
          Visited(g, sofar, g[id][n - 1])
  }

  function VisitedAll(g: Graph, ids: seq<string>): (r: Result<Marks, Error>)
    requires forall i :: 0 <= i < |ids| ==> ids[i] in g
    ensures r.Ok? ==> r.value.state.Keys <= g.Keys
  {
    if ids == [] then Ok(Marks(map[], []))
    else
      match VisitedAll(g, ids[..|ids| - 1])
      case Err(e) => Err(e)
      case Ok(sofar) => Visited(g, sofar, ids[|ids| - 1])
  }

  /** The order the registry starts its plugins in, or why there is none. */
  function OrderOf(g: Graph): Result<seq<string>, Error> {
    match VisitedAll(g, Ordering.Enumerate(g.Keys, Ordering.BY_KEY))
    case Err(e) => Err(e)
    case Ok(m) => Ok(m.order)
  }

  class Walk {
    const g: Graph
    var state: map<string, Color>
    var order: seq<string>

    ghost function Now(): Marks
      reads this
    {
      Marks(state, order)
    }

    constructor (g: Graph)
      ensures this.g == g && Now() == Marks(map[], [])
    {
      this.g := g;
      state, order := map[], [];
    }

    method Visit(id: string) returns (fault: Option<Error>)
      requires state.Keys <= g.Keys && id in g
      modifies this
      ensures match Visited(g, old(Now()), id)
              case Ok(m) => fault == None && Now() == m
              case Err(e) => fault == Some(e)
      decreases g.Keys - state.Keys
    {
      if id in state {
        return if state[id] == Visiting then Some(Cycle(id)) else None;
      }
      ghost var entered := Marks(state[id := Visiting], order);
      assert id in g.Keys - state.Keys && id !in g.Keys - entered.state.Keys;
      state := state[id := Visiting];
      var deps := g[id];
      for i := 0 to |deps|
        invariant VisitedDeps(g, entered, id, i) == Ok(Now())
      {
        if deps[i] !in g {
          Stuck(g, entered, id, i + 1);
          return Some(MissingDep(deps[i], id));
        }
        assert g.Keys - state.Keys <= g.Keys - entered.state.Keys;
        fault := Visit(deps[i]);
        if fault.Some? {
          Stuck(g, entered, id, i + 1);
          return;
        }
      }
      state := state[id := Finished];
      order := order + [id];
      fault := None;
    }
  }

  /** Once a dependency is refused the rest are not visited. */
  lemma {:induction false} Stuck(g: Graph, m: Marks, id: string, i: nat)
    requires m.state.Keys <= g.Keys && id in g && i <= |g[id]| && VisitedDeps(g, m, id, i).Err?
    ensures VisitedDeps(g, m, id, |g[id]|) == VisitedDeps(g, m, id, i)
    decreases |g[id]| - i
  {
    if i < |g[id]| {
      Stuck(g, m, id, i + 1);
    }
  }

  lemma {:induction false} AllStuck(g: Graph, ids: seq<string>, i: nat)
    requires (forall k :: 0 <= k < |ids| ==> ids[k] in g) && i <= |ids| && VisitedAll(g, ids[..i]).Err?
    ensures VisitedAll(g, ids) == VisitedAll(g, ids[..i])
    decreases |ids| - i
  {
    if i < |ids| {
      assert ids[..i + 1][..i] == ids[..i];
      AllStuck(g, ids, i + 1);
    } else {
      assert ids[..i] == ids;
    }
  }

  method StartOrder(g: Graph) returns (r: Result<seq<string>, Error>)
    ensures r == OrderOf(g)
  {
    var walked := WalkAll(g, Ordering.Enumerate(g.Keys, Ordering.BY_KEY));
    match walked
    case Err(e) => return Err(e);
    case Ok(m) => return Ok(m.order);
  }

  method WalkAll(g: Graph, ids: seq<string>) returns (r: Result<Marks, Error>)
    requires forall i :: 0 <= i < |ids| ==> ids[i] in g
    ensures r == VisitedAll(g, ids)
  {
    var walk := new Walk(g);
    for i := 0 to |ids|
      invariant walk.g == g && VisitedAll(g, ids[..i]) == Ok(walk.Now())
    {
      assert ids[..i + 1][..i] == ids[..i];
      var fault := walk.Visit(ids[i]);
      if fault.Some? {
        AllStuck(g, ids, i + 1);
        return Err(fault.value);
      }
    }
    assert ids[..|ids|] == ids;
    return Ok(Marks(walk.state, walk.order));
  }

  // ----- what the walk finds -----

  /** The plugins being visited, `stack`, are a chain of dependencies, and the finished ones
      are a start order of their own. */
  ghost predicate Sound(g: Graph, m: Marks, stack: seq<string>) {
    && m.state.Keys <= g.Keys
    && (forall id :: id in stack <==> id in m.state && m.state[id] == Visiting)
    && (forall id :: id in m.order <==> id in m.state && m.state[id] == Finished)
    && IsPath(g, stack) && Distinct(m.order) && DepsFirst(g, m.order)
  }

  /** The chain being visited goes on to `id`. */
  ghost predicate Follows(g: Graph, stack: seq<string>, id: string) {
    id in g && (stack != [] ==> stack[|stack| - 1] in g && id in g[stack[|stack| - 1]])
  }

  /** The error names something really wrong with the graph. */
  ghost predicate Truthful(g: Graph, e: Error) {
    match e
    case Cycle(id) => OnCycle(g, id)
    case MissingDep(missing, owner) => IsMissing(g, missing, owner)
    case _ => false
  }

  lemma CycleFound(g: Graph, stack: seq<string>, id: string)
    requires IsPath(g, stack) && Follows(g, stack, id) && id in stack
    ensures OnCycle(g, id)
  {
    var i :| 0 <= i < |stack| && stack[i] == id;
    var p := stack[i..] + [id];
    forall k | 0 <= k < |p| - 1 ensures p[k] in g && p[k + 1] in g[p[k]] {
      assert p[k] == stack[i + k];
      if k + 1 < |p| - 1 {
        assert p[k + 1] == stack[i + k + 1];
      }
    }
    assert IsPath(g, p) && p[0] == id && p[|p| - 1] == id;
  }

  /** What a visit that succeeds leaves: still sound, the plugin and everything finished
      before on the order. */
  ghost predicate Leaves(g: Graph, m: Marks, stack: seq<string>, after: Marks) {
    Sound(g, after, stack) && forall x :: x in m.order ==> x in after.order
  }

  predicate AllOn(order: seq<string>, ids: seq<string>) {
    forall i :: 0 <= i < |ids| ==> ids[i] in order
  }

  lemma OneMoreOn(before: seq<string>, after: seq<string>, ids: seq<string>, n: nat)
    requires 0 < n <= |ids| && AllOn(before, ids[..n - 1]) && ids[n - 1] in after
    requires forall x :: x in before ==> x in after
    ensures AllOn(after, ids[..n])
  {
    assert forall i :: 0 <= i < n - 1 ==> ids[..n - 1][i] == ids[i];
  }

  lemma EnterSound(g: Graph, m: Marks, stack: seq<string>, id: string)
    requires Sound(g, m, stack) && Follows(g, stack, id) && id !in m.state
    ensures Sound(g, m.(state := m.state[id := Visiting]), stack + [id])
  {
  }

  lemma FinishSound(g: Graph, m: Marks, stack: seq<string>, id: string)
    requires Sound(g, m, stack + [id]) && id !in stack && id in g
    requires AllOn(m.order, g[id])
    ensures Leaves(g, m, stack, Marks(m.state[id := Finished], m.order + [id]))
  {
    var order := m.order + [id];
    assert id in stack + [id] && id !in m.order;
    assert forall i :: 0 <= i < |m.order| ==> order[..i] == m.order[..i];
    assert order[..|m.order|] == m.order;
    assert forall i :: 0 <= i < |stack| ==> (stack + [id])[i] == stack[i];
    forall k | 0 <= k < |stack| - 1 ensures stack[k] in g && stack[k + 1] in g[stack[k]] {
      assert (stack + [id])[k] == stack[k] && (stack + [id])[k + 1] == stack[k + 1];
    }
  }

  /** A visit leaves the plugin on the order after all it depends on, or answers an error
      that is true of the graph. */
  lemma {:induction false} VisitedSound(g: Graph, m: Marks, stack: seq<string>, id: string)
    requires Sound(g, m, stack) && Follows(g, stack, id)
    ensures match Visited(g, m, id)
            case Err(e) => Truthful(g, e)
            case Ok(after) => Leaves(g, m, stack, after) && id in after.order
    decreases g.Keys - m.state.Keys, 0
  {
    if id in m.state {
      if m.state[id] == Visiting {
        CycleFound(g, stack, id);
      }
    } else {
      var entered := m.(state := m.state[id := Visiting]);
      assert id in g.Keys - m.state.Keys && id !in g.Keys - entered.state.Keys;
      EnterSound(g, m, stack, id);
      VisitedDepsSound(g, entered, stack, id, |g[id]|);
      match VisitedDeps(g, entered, id, |g[id]|)
      case Err(_) =>
      case Ok(below) =>
        assert g[id][..|g[id]|] == g[id];
        FinishSound(g, below, stack, id);
    }
  }

  lemma {:induction false} VisitedDepsSound(g: Graph, m: Marks, stack: seq<string>, id: string, n: nat)
    requires Sound(g, m, stack + [id]) && id in g && n <= |g[id]|
    ensures match VisitedDeps(g, m, id, n)
            case Err(e) => Truthful(g, e)
            case Ok(after) => Leaves(g, m, stack + [id], after) && AllOn(after.order, g[id][..n])
    decreases g.Keys - m.state.Keys, n
  {
    if n > 0 {
      var d := g[id][n - 1];
      VisitedDepsSound(g, m, stack, id, n - 1);
      match VisitedDeps(g, m, id, n - 1)
      case Err(_) =>
      case Ok(sofar) =>
        if d !in g {
          assert IsMissing(g, d, id);
        } else {
          assert g.Keys - sofar.state.Keys <= g.Keys - m.state.Keys;
          VisitedSound(g, sofar, stack + [id], d);
          if Visited(g, sofar, d).Ok? {
            OneMoreOn(sofar.order, Visited(g, sofar, d).value.order, g[id], n);
          }
        }
    }
  }

  lemma {:induction false} VisitedAllSound(g: Graph, ids: seq<string>)
    requires forall i :: 0 <= i < |ids| ==> ids[i] in g
    ensures match VisitedAll(g, ids)
            case Err(e) => Truthful(g, e)
            case Ok(m) => Sound(g, m, []) && AllOn(m.order, ids)
  {
    if ids != [] {
      var early, last := ids[..|ids| - 1], ids[|ids| - 1];
      VisitedAllSound(g, early);
      if VisitedAll(g, early).Ok? {
        var sofar := VisitedAll(g, early).value;
        VisitedSound(g, sofar, [], last);
        if Visited(g, sofar, last).Ok? {
          OneMoreOn(sofar.order, Visited(g, sofar, last).value.order, ids, |ids|);
          assert ids[..|ids|] == ids;
        }
      }
    }
  }

  /** An order of every plugin with its dependencies first, exactly when every dependency is
      registered and none leads back to itself; and otherwise a plugin that is on a cycle,
      or one that asks for something absent. */
  lemma OrderSound(g: Graph)
    ensures OrderOf(g).Ok? <==> Closed(g) && Acyclic(g)
    ensures match OrderOf(g)
            case Ok(order) => IsStartOrder(g, order)
            case Err(e) => Truthful(g, e)
  {
    var ids := Ordering.Enumerate(g.Keys, Ordering.BY_KEY);
    VisitedAllSound(g, ids);
    match VisitedAll(g, ids)
    case Err(_) =>
    case Ok(m) =>
      assert forall id :: id in g ==> id in ids;
      OrderExcludes(g, m.order);
  }
}
