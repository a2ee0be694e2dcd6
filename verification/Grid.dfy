/** The grid of a recurrence: an anchor and every whole number of intervals after it.

    The grid is walked here one interval at a time; the store reaches the same instants by
    one division, and the two agree on every input. */
module Grid {
  import opened Wrappers

  predicate OnGrid(anchor: nat, interval: nat, t: nat)
    requires interval > 0
    decreases t
  {
    t == anchor || (t >= anchor + interval && OnGrid(anchor, interval, t - interval))
  }

  /** Where the walk first passes `now`. */
  function Next(anchor: nat, interval: nat, now: nat): nat
    requires interval > 0
    decreases now - anchor
  {
    if anchor > now then anchor else Next(anchor + interval, interval, now)
  }

  /** Where the walk last stands without having passed `now`; nowhere when even the anchor
      lies ahead. */
  function Latest(anchor: nat, interval: nat, now: nat): (t: Option<nat>)
    requires interval > 0
    ensures t.None? <==> anchor > now
    decreases now - anchor
  {
    if anchor > now then None
    else if anchor + interval > now then Some(anchor)
    else Latest(anchor + interval, interval, now)
  }

  /** `next_on_grid` as the store computes it. */
  function NextByDivision(anchor: nat, interval: nat, now: nat): nat
    requires interval > 0
  {
    if anchor > now then anchor else anchor + ((now - anchor) / interval + 1) * interval
  }

  /** `latest_on_grid` as the store computes it. */
  function LatestByDivision(anchor: nat, interval: nat, now: nat): Option<nat>
    requires interval > 0
  {
    if anchor > now then None else Some(anchor + (now - anchor) / interval * interval)
  }

  lemma ProductBound(k: int, d: nat)
    requires d > 0 && k != 0
    ensures k * d >= d || k * d <= -(d as int)
  {
    if k > 0 {
      assert k * d == (k - 1) * d + d;
      assert (k - 1) * d >= 0;
    } else {
      assert k * d == -((-k - 1) * d) - d;
      assert (-k - 1) * d >= 0;
    }
  }

  lemma DivisionUnique(x: nat, d: nat, q: nat, r: nat)
    requires d > 0 && r < d && x == q * d + r
    ensures x / d == q && x % d == r
  {
    assert x == x / d * d + x % d;
    assert (x / d - q) * d == x / d * d - q * d;
    if x / d != q {
      ProductBound(x / d - q, d);
    }
  }

  lemma StepDivision(elapsed: nat, interval: nat)
    requires interval > 0
    ensures (elapsed + interval) / interval == elapsed / interval + 1
    ensures (elapsed + interval) % interval == elapsed % interval
    ensures elapsed < interval ==> elapsed / interval == 0 && elapsed % interval == elapsed
  {
    var q, r := elapsed / interval, elapsed % interval;
    assert elapsed == q * interval + r;
    assert elapsed + interval == (q + 1) * interval + r;
    DivisionUnique(elapsed + interval, interval, q + 1, r);
    if elapsed < interval {
      DivisionUnique(elapsed, interval, 0, elapsed);
    }
  }

  lemma AnchorShift(anchor: nat, q: nat, interval: nat)
    ensures anchor + interval + q * interval == anchor + (q + 1) * interval
  {
  }

  /** One division lands where the walk does. */
  lemma {:induction false} NextDivides(anchor: nat, interval: nat, now: nat)
    requires interval > 0
    ensures NextByDivision(anchor, interval, now) == Next(anchor, interval, now)
    decreases now - anchor
  {
    if anchor <= now {
      var q := (now - anchor) / interval;
      NextDivides(anchor + interval, interval, now);
      if anchor + interval > now {
        StepDivision(now - anchor, interval);
        assert NextByDivision(anchor, interval, now) == anchor + (0 + 1) * interval;
      } else {
        StepDivision(now - (anchor + interval), interval);
        AnchorShift(anchor, q, interval);
      }
    }
  }

  lemma {:induction false} LatestDivides(anchor: nat, interval: nat, now: nat)
    requires interval > 0
    ensures LatestByDivision(anchor, interval, now) == Latest(anchor, interval, now)
    decreases now - anchor
  {
    if anchor <= now {
      if anchor + interval > now {
        StepDivision(now - anchor, interval);
        assert LatestByDivision(anchor, interval, now) == Some(anchor + 0 * interval);
      } else {
        var q := (now - (anchor + interval)) / interval;
        LatestDivides(anchor + interval, interval, now);
        StepDivision(now - (anchor + interval), interval);
        AnchorShift(anchor, q, interval);
      }
    }
  }

  /** The anchor plus a whole number of intervals. */
  predicate IsWhole(anchor: nat, interval: nat, t: nat)
    requires interval > 0
  {
    t >= anchor && (t - anchor) % interval == 0
  }

  /** Walking from the anchor meets just the whole numbers of intervals after it. */
  lemma {:induction false} OnGridDivides(anchor: nat, interval: nat, t: nat)
    requires interval > 0
    ensures OnGrid(anchor, interval, t) <==> IsWhole(anchor, interval, t)
    decreases t
  {
    if t >= anchor + interval {
      OnGridDivides(anchor, interval, t - interval);
      StepDivision(t - interval - anchor, interval);
    } else if t >= anchor {
      StepDivision(t - anchor, interval);
    }
  }

  lemma {:induction false} ShiftedGrid(anchor: nat, interval: nat, t: nat)
    requires interval > 0
    ensures OnGrid(anchor, interval, t) <==> t == anchor || OnGrid(anchor + interval, interval, t)
    ensures OnGrid(anchor, interval, t) ==> t >= anchor
    decreases t
  {
    if t >= anchor + interval {
      ShiftedGrid(anchor, interval, t - interval);
      if t >= anchor + interval + interval {
        ShiftedGrid(anchor + interval, interval, t - interval);
      }
    }
  }

  /** The next instant is on the grid and after `now`, no grid instant lies between, and it
      is at most one interval away once the grid has started. */
  lemma {:induction false} NextIsLeast(anchor: nat, interval: nat, now: nat)
    requires interval > 0
    ensures var t := Next(anchor, interval, now);
            && OnGrid(anchor, interval, t) && t > now
            && (forall g: nat :: OnGrid(anchor, interval, g) && g > now ==> t <= g)
            && (anchor <= now ==> t <= now + interval)
            && (t == anchor || anchor <= now)
    decreases now - anchor
  {
    if anchor <= now {
      NextIsLeast(anchor + interval, interval, now);
      ShiftedGrid(anchor, interval, Next(anchor, interval, now));
    }
    forall g: nat | OnGrid(anchor, interval, g) && g > now ensures Next(anchor, interval, now) <= g {
      ShiftedGrid(anchor, interval, g);
    }
  }

  /** The latest instant is on the grid and not after `now`, and no grid instant lies
      between; there is none exactly when the whole grid lies after `now`. */
  lemma {:induction false} LatestIsGreatest(anchor: nat, interval: nat, now: nat)
    requires interval > 0
    ensures match Latest(anchor, interval, now)
            case None => forall g: nat :: OnGrid(anchor, interval, g) ==> g > now
            case Some(t) =>
              && OnGrid(anchor, interval, t) && t <= now
              && forall g: nat :: OnGrid(anchor, interval, g) && g <= now ==> g <= t
    decreases now - anchor
  {
    if anchor <= now {
      if anchor + interval <= now {
        LatestIsGreatest(anchor + interval, interval, now);
      }
      ShiftedGrid(anchor, interval, Latest(anchor, interval, now).value);
    }
    forall g: nat | OnGrid(anchor, interval, g)
      ensures Latest(anchor, interval, now).None? ==> g > now
      ensures Latest(anchor, interval, now).Some? && g <= now ==> g <= Latest(anchor, interval, now).value
    {
      ShiftedGrid(anchor, interval, g);
      ShiftedGrid(anchor + interval, interval, g);
    }
  }

  /** The least whole number of intervals from the anchor that lies after `now`. */
  ghost predicate IsLeastAfter(anchor: nat, interval: nat, now: nat, t: nat)
    requires interval > 0
  {
    && IsWhole(anchor, interval, t) && now < t
    && forall g: nat :: IsWhole(anchor, interval, g) && now < g ==> t <= g
  }

  lemma LeastWhole(anchor: nat, interval: nat, now: nat)
    requires interval > 0
    ensures IsLeastAfter(anchor, interval, now, Next(anchor, interval, now))
    ensures anchor <= now ==> Next(anchor, interval, now) <= now + interval
  {
    NextIsLeast(anchor, interval, now);
    OnGridDivides(anchor, interval, Next(anchor, interval, now));
    forall g: nat | IsWhole(anchor, interval, g) && now < g ensures Next(anchor, interval, now) <= g {
      OnGridDivides(anchor, interval, g);
    }
  }

  /** The whole number of intervals whose own interval `now` falls in. */
  predicate IsCurrent(anchor: nat, interval: nat, now: nat, t: nat)
    requires interval > 0
  {
    IsWhole(anchor, interval, t) && t <= now < t + interval
  }

  lemma {:induction false} LatestIsCurrent(anchor: nat, interval: nat, now: nat)
    requires interval > 0 && anchor <= now
    ensures Latest(anchor, interval, now).Some?
    ensures IsCurrent(anchor, interval, now, Latest(anchor, interval, now).value)
    decreases now - anchor
  {
    if anchor + interval > now {
      OnGridDivides(anchor, interval, anchor);
    } else {
      LatestIsCurrent(anchor + interval, interval, now);
      var t := Latest(anchor + interval, interval, now).value;
      OnGridDivides(anchor + interval, interval, t);
      ShiftedGrid(anchor, interval, t);
      OnGridDivides(anchor, interval, t);
    }
  }

  lemma CurrentIsUnique(anchor: nat, interval: nat, now: nat, t: nat, u: nat)
    requires interval > 0 && IsCurrent(anchor, interval, now, t) && IsCurrent(anchor, interval, now, u)
    ensures t == u
  {
    var k := (t - anchor) / interval - (u - anchor) / interval;
    assert t - u == k * interval;
    if k != 0 {
      ProductBound(k, interval);
    }
  }

  /** With anchors and clocks below the ceiling by an interval, no step of the store's
      arithmetic overflows. */
  lemma DivisionFits(anchor: nat, interval: nat, now: nat, max: nat)
    requires interval > 0 && anchor <= max && now + interval <= max
    ensures NextByDivision(anchor, interval, now) <= max
    ensures anchor <= now ==> ((now - anchor) / interval + 1) * interval <= max
  {
    NextDivides(anchor, interval, now);
    NextIsLeast(anchor, interval, now);
  }
}
