/** Noticing that the settings document changed and has stopped changing. */
module Watch {
  import opened Wrappers

  /** What the file system says about the document: absence is a state of its own. */
  datatype Stamp = Stamp(present: bool, len: nat, modified: Option<nat>)

  // ----- what is to be reported -----

  /** How many observations at the end are the same one. */
  function Trailing(h: seq<Stamp>): nat {
    if |h| <= 1 then |h|
    else if h[|h| - 1] == h[|h| - 2] then Trailing(h[..|h| - 1]) + 1
    else 1
  }

  /** The state last reported, or the baseline. */
  function LastReported(baseline: Stamp, quiet: nat, h: seq<Stamp>): Stamp
    decreases |h|, 1
  {
    if h == [] then baseline
    else if Reports(baseline, quiet, h) then h[|h| - 1]
    else LastReported(baseline, quiet, h[..|h| - 1])
  }

  /** The last observation is to be reported: it differs from what was reported last, and
      it has now been seen `quiet` times running. */
  predicate Reports(baseline: Stamp, quiet: nat, h: seq<Stamp>)
    decreases |h|, 0
  {
    h != [] && h[|h| - 1] != LastReported(baseline, quiet, h[..|h| - 1]) && Trailing(h) == quiet
  }

  /** Every state reported, in order. */
  function Reported(baseline: Stamp, quiet: nat, h: seq<Stamp>): seq<Stamp> {
    if h == [] then []
    else Reported(baseline, quiet, h[..|h| - 1]) + if Reports(baseline, quiet, h) then [h[|h| - 1]] else []
  }

  /** Each report differs from the one before it, and the first from the baseline: a change
      that settles is reported once. */
  lemma {:induction false} ReportsDiffer(baseline: Stamp, quiet: nat, h: seq<Stamp>)
    ensures var r := Reported(baseline, quiet, h);
            && (r != [] ==> r[0] != baseline && r[|r| - 1] == LastReported(baseline, quiet, h))
            && (r == [] ==> LastReported(baseline, quiet, h) == baseline)
            && forall i :: 0 < i < |r| ==> r[i] != r[i - 1]
  {
    if h != [] {
      ReportsDiffer(baseline, quiet, h[..|h| - 1]);
    }
  }

  lemma {:induction false} TrailingRun(h: seq<Stamp>)
    ensures Trailing(h) <= |h|
    ensures forall i :: |h| - Trailing(h) <= i < |h| ==> h[i] == h[|h| - 1]
    ensures Trailing(h) < |h| ==> h[|h| - Trailing(h) - 1] != h[|h| - 1]
  {
    if |h| > 1 {
      TrailingRun(h[..|h| - 1]);
    }
  }

  // ----- the machine -----

  /** What the watcher remembers of everything it has seen: the last reported state, and a
      later one not yet reported with the number of times running it was seen. */
  ghost predicate Remembers(
    baseline: Stamp, quiet: nat, h: seq<Stamp>, settled: Stamp, pending: Option<(Stamp, nat)>)
  {
    && settled == LastReported(baseline, quiet, h)
    && pending == (if h == [] || h[|h| - 1] == settled then None else Some((h[|h| - 1], Trailing(h))))
    && (pending.Some? ==> 0 < pending.value.1 < quiet)
  }

  class Watcher {
    var settled: Stamp
    var pending: Option<(Stamp, nat)>
    var quietPolls: nat
    ghost const baseline: Stamp
    ghost var seen: seq<Stamp>

    ghost predicate Valid()
      reads this
    {
      quietPolls >= 1 && Remembers(baseline, quietPolls, seen, settled, pending)
    }

    constructor (now: Stamp)
      ensures Valid() && baseline == now && seen == [] && quietPolls == 1
    {
      settled, pending, quietPolls := now, None, 1;
      baseline, seen := now, [];
    }

    /** Set the quiet count, which is one at the least. */
    method SettleAfter(polls: nat)
      requires Valid() && seen == []
      modifies this`quietPolls
      ensures Valid() && quietPolls == if polls > 1 then polls else 1
    {
      quietPolls := if polls > 1 then polls else 1;
    }

    /** Take one observation: answered exactly when the history asks for a report. */
    method Observe(now: Stamp) returns (report: Option<Stamp>)
      requires Valid()
      modifies this`settled, this`pending, this`seen
      ensures Valid() && seen == old(seen) + [now]
      ensures report == if Reports(baseline, quietPolls, seen) then Some(now) else None
    {
      assert (seen + [now])[..|seen|] == seen;
      seen := seen + [now];
      if now == settled {
        pending := None;
        return None;
      }
      if pending.Some? && pending.value.0 == now {
        var held := pending.value.1 + 1;
        if held >= quietPolls {
          settled, pending := now, None;
          return Some(now);
        }
        pending := Some((now, held));
      } else {
        pending := Some((now, 1));
        if quietPolls == 1 {
          settled, pending := now, None;
          return Some(now);
        }
      }
      return None;
    }
  }
}
