/** Who owns the one remote sandbox, and what became of every sandbox ever made. */
module Sandboxes {
  import opened Wrappers

  type Id = nat

  datatype Holding = Nothing | Live(id: Id) | Closed

  /** What a provider says when asked to kill. A sandbox already gone counts as killed at
      shutdown and as a failure when a set-up is rolled back. */
  datatype Killed = Done | AlreadyGone | Refused

  /** Where a sandbox that was created ended up. */
  datatype Fate = Held | Ended | RollbackFailed | LostAsGone | ShutdownFailed

  datatype State = State(holding: Holding, fate: map<Id, Fate>)

  /** What the provider would do for the run that asks. */
  datatype Setup = NotCreated | Prepared(id: Id) | Unprepared(id: Id, rollback: Killed)

  // ----- the steps, each under the lock -----

  function Acquired(s: State, setup: Setup): State {
    if s.holding != Nothing then s
    else
      match setup
      case NotCreated => s
      case Prepared(id) => State(Live(id), s.fate[id := Held])
      case Unprepared(id, rollback) => s.(fate := s.fate[id := if rollback == Done then Ended else RollbackFailed])
  }

  function Shut(s: State, kill: Killed): State {
    match s.holding
    case Live(id) => State(Closed, s.fate[id := if kill == Refused then ShutdownFailed else Ended])
    case _ => s.(holding := Closed)
  }

  /** Drop whatever is held. */
  function Forgotten(s: State): State {
    match s.holding
    case Live(id) => State(Nothing, s.fate[id := LostAsGone])
    case _ => s
  }

  class RemoteRuntime {
    var holding: Holding
    ghost var fate: map<Id, Fate>

    ghost function Now(): State
      reads this
    {
      State(holding, fate)
    }

    constructor ()
      ensures Now() == State(Nothing, map[])
    {
      holding, fate := Nothing, map[];
    }

    /** The sandbox, made and prepared by the first that asks. A failed preparation is
        rolled back by a kill. */
    method Sandbox(setup: Setup) returns (id: Option<Id>)
      modifies this
      ensures Now() == Acquired(old(Now()), setup)
      ensures id == if holding.Live? then Some(holding.id) else None
    {
      if holding.Live? {
        return Some(holding.id);
      }
      if holding.Closed? || setup.NotCreated? {
        return None;
      }
      if setup.Unprepared? {
        fate := fate[setup.id := if setup.rollback == Done then Ended else RollbackFailed];
        return None;
      }
      holding, fate := Live(setup.id), fate[setup.id := Held];
      return Some(setup.id);
    }

    method Shutdown(kill: Killed)
      modifies this
      ensures Now() == Shut(old(Now()), kill)
    {
      if holding.Live? {
        fate := fate[holding.id := if kill == Refused then ShutdownFailed else Ended];
      }
      holding := Closed;
    }

    method Forget()
      modifies this
      ensures Now() == Forgotten(old(Now()))
    {
      if holding.Live? {
        fate := fate[holding.id := LostAsGone];
        holding := Nothing;
      }
    }
  }

  // ----- every interleaving -----

  /** A run asks for the sandbox, a job's sandbox is reported gone, or the runtime shuts
      down. */
  datatype Step = Asks(setup: Setup) | Gone(sandbox: Id) | Shuts(kill: Killed)

  function Next(s: State, step: Step): State {
    match step
    case Asks(setup) => Acquired(s, setup)
    case Gone(_) => Forgotten(s)
    case Shuts(kill) => Shut(s, kill)
  }

  function After(h: seq<Step>): State {
    if h == [] then State(Nothing, map[]) else Next(After(h[..|h| - 1]), h[|h| - 1])
  }

  /** The sandboxes some run was given: only those can have a job in them. */
  function Given(h: seq<Step>): set<Id> {
    if h == [] then {}
    else
      var after := After(h);
      Given(h[..|h| - 1]) + if h[|h| - 1].Asks? && after.holding.Live? then {after.holding.id} else {}
  }

  /** The provider never names two sandboxes alike. */
  ghost predicate Named(h: seq<Step>) {
    h == [] ||
      (var early, last := h[..|h| - 1], h[|h| - 1];
       && Named(early)
       && match last
          case Asks(Prepared(id)) => id !in After(early).fate
          case Asks(Unprepared(id, _)) => id !in After(early).fate
          case _ => true)
  }

  /** A job is only reported gone from a sandbox some run was given. */
  ghost predicate Legal(h: seq<Step>) {
    Named(h) &&
      (h == [] ||
         (var early, last := h[..|h| - 1], h[|h| - 1];
          Legal(early) && (last.Gone? ==> last.sandbox in Given(early))))
  }

  /** What a step creates, if it is served at all. */
  function Creates(s: State, step: Step): set<Id> {
    match step
    case Asks(Prepared(id)) => if s.holding == Nothing then {id} else {}
    case Asks(Unprepared(id, _)) => if s.holding == Nothing then {id} else {}
    case _ => {}
  }

  function Created(h: seq<Step>): set<Id> {
    if h == [] then {} else Created(h[..|h| - 1]) + Creates(After(h[..|h| - 1]), h[|h| - 1])
  }

  /** Every sandbox ever created has one fate, and the one held is the only one whose fate
      is still open. */
  lemma {:induction false} EverySandboxAccounted(h: seq<Step>)
    requires Named(h)
    ensures After(h).fate.Keys == Created(h)
    ensures forall id :: id in After(h).fate && After(h).fate[id] == Held <==> After(h).holding == Live(id)
  {
    if h != [] {
      EverySandboxAccounted(h[..|h| - 1]);
    }
  }

  /** A fate once settled never changes. */
  lemma {:induction false} FatesAreFinal(h: seq<Step>, more: seq<Step>, id: Id)
    requires Named(h + more) && id in After(h).fate && After(h).fate[id] != Held
    ensures id in After(h + more).fate && After(h + more).fate[id] == After(h).fate[id]
  {
    if more == [] {
      assert h + more == h;
    } else {
      var early := h + more[..|more| - 1];
      assert (h + more)[..|h + more| - 1] == early;
      FatesAreFinal(h, more[..|more| - 1], id);
      EverySandboxAccounted(early);
    }
  }

  /** Nothing is created and nothing is held once a shutdown has taken the lock. */
  lemma {:induction false} ClosedForGood(h: seq<Step>, kill: Killed, more: seq<Step>)
    ensures After(h + [Shuts(kill)] + more).holding == Closed
    ensures Created(h + [Shuts(kill)] + more) == Created(h)
  {
    var shut := h + [Shuts(kill)];
    if more == [] {
      assert shut + more == shut && shut[..|shut| - 1] == h;
    } else {
      var early := shut + more[..|more| - 1];
      assert (shut + more)[..|shut + more| - 1] == early;
      ClosedForGood(h, kill, more[..|more| - 1]);
    }
  }

  // ----- fates read from the history -----

  /** What step `k` finds. */
  function Before(h: seq<Step>, k: nat): State
    requires k < |h|
  {
    After(h[..k])
  }

  /** Step `k` asked with this set-up and was served by it: nothing was held. */
  ghost predicate Served(h: seq<Step>, k: nat, setup: Setup) {
    k < |h| && h[k] == Asks(setup) && Before(h, k).holding == Nothing
  }

  /** What becomes of a held sandbox: the first report or shutdown after it decides. */
  function Outcome(later: seq<Step>): Fate {
    if later == [] then Held
    else
      match later[0]
      case Asks(_) => Outcome(later[1..])
      case Gone(_) => LostAsGone
      case Shuts(kill) => if kill == Refused then ShutdownFailed else Ended
  }

  lemma {:induction false} OutcomeMore(later: seq<Step>, step: Step)
    ensures Outcome(later + [step]) == if Outcome(later) == Held then Outcome([step]) else Outcome(later)
  {
    if later == [] {
      assert later + [step] == [step];
    } else {
      assert (later + [step])[1..] == later[1..] + [step];
      OutcomeMore(later[1..], step);
    }
  }

  /** The runtime is closed exactly when a shutdown has taken the lock. */
  lemma {:induction false} ClosedWhenShut(h: seq<Step>)
    ensures After(h).holding == Closed <==> exists i :: 0 <= i < |h| && h[i].Shuts?
  {
    if h != [] {
      var early := h[..|h| - 1];
      ClosedWhenShut(early);
      if After(early).holding == Closed {
        var i :| 0 <= i < |early| && early[i].Shuts?;
        assert h[i].Shuts?;
      }
    }
  }

  /** A sandbox that was prepared is held until the first report or shutdown, and ends as
      that says. */
  lemma {:induction false} PreparedFate(h: seq<Step>, k: nat, id: Id)
    requires Named(h) && Served(h, k, Prepared(id))
    ensures id in After(h).fate && After(h).fate[id] == Outcome(h[k + 1..])
    ensures After(h).holding == Live(id) <==> Outcome(h[k + 1..]) == Held
  {
    var early, last := h[..|h| - 1], h[|h| - 1];
    EverySandboxAccounted(h);
    assert h[..k] == early[..k];
    if k < |early| {
      assert Served(early, k, Prepared(id));
      PreparedFate(early, k, id);
      EverySandboxAccounted(early);
      OutcomeMore(early[k + 1..], last);
      assert h[k + 1..] == early[k + 1..] + [last];
    }
  }

  /** A sandbox whose set-up failed is never held and never given to a run, and its fate is
      what the rollback came to. */
  lemma {:induction false} UnpreparedFate(h: seq<Step>, k: nat, id: Id, rollback: Killed)
    requires Named(h) && Served(h, k, Unprepared(id, rollback))
    ensures id in After(h).fate && After(h).fate[id] == if rollback == Done then Ended else RollbackFailed
    ensures After(h).holding != Live(id) && id !in Given(h)
  {
    var early := h[..|h| - 1];
    EverySandboxAccounted(h);
    EverySandboxAccounted(early);
    assert h[..k] == early[..k];
    if k < |early| {
      assert Served(early, k, Unprepared(id, rollback));
      UnpreparedFate(early, k, id, rollback);
    } else if id in Given(early) {
      GivenWasPrepared(early, id);
    }
  }

  /** What is held or was given to a run was prepared by a run that was served. */
  lemma {:induction false} GivenWasPrepared(h: seq<Step>, id: Id)
    requires Named(h) && (After(h).holding == Live(id) || id in Given(h))
    ensures id in After(h).fate && exists k: nat :: Served(h, k, Prepared(id))
  {
    var early, last := h[..|h| - 1], h[|h| - 1];
    EverySandboxAccounted(h);
    assert h[..|early|] == early;
    if After(early).holding == Live(id) || id in Given(early) {
      GivenWasPrepared(early, id);
      var k: nat :| Served(early, k, Prepared(id));
      assert h[..k] == early[..k] && Served(h, k, Prepared(id));
    } else {
      assert Served(h, |early|, Prepared(id));
    }
  }

  /** Step `k` made the sandbox, whether its set-up held or failed. */
  ghost predicate Made(h: seq<Step>, k: nat, id: Id) {
    Served(h, k, Prepared(id)) || exists rollback :: Served(h, k, Unprepared(id, rollback))
  }

  /** Every sandbox with a fate was made by a run that was served. */
  lemma {:induction false} FateWasMade(h: seq<Step>, id: Id)
    requires Named(h) && id in After(h).fate
    ensures exists k: nat :: Made(h, k, id)
  {
    var early, last := h[..|h| - 1], h[|h| - 1];
    EverySandboxAccounted(early);
    assert h[..|early|] == early;
    if id in After(early).fate {
      FateWasMade(early, id);
      var k: nat :| Made(early, k, id);
      assert h[..k] == early[..k] && h[k] == early[k];
      if !Served(early, k, Prepared(id)) {
        var rollback :| Served(early, k, Unprepared(id, rollback));
        assert Served(h, k, Unprepared(id, rollback));
      }
      assert Made(h, k, id);
    } else {
      assert last.Asks?;
      if last.setup.Unprepared? {
        assert Served(h, |early|, Unprepared(id, last.setup.rollback));
      }
      assert Made(h, |early|, id);
    }
  }

  lemma LegalPrefix(h: seq<Step>, more: seq<Step>)
    requires Legal(h + more)
    ensures Legal(h)
    decreases |more|
  {
    if more == [] {
      assert h + more == h;
    } else {
      assert (h + more)[..|h + more| - 1] == h + more[..|more| - 1];
      LegalPrefix(h, more[..|more| - 1]);
    }
  }

  // ----- a job's sandbox and the one held -----

  /** Step `k` reports a job gone while the runtime holds a sandbox. */
  predicate Drops(h: seq<Step>, k: nat) {
    k < |h| && h[k].Gone? && Before(h, k).holding.Live?
  }

  /** No report drops a sandbox other than the one it is about. */
  ghost predicate DropsOwn(h: seq<Step>) {
    forall k :: 0 <= k < |h| && Drops(h, k) ==> Before(h, k).holding.id == h[k].sandbox
  }

  /** No sandbox is reported gone a second time while the runtime holds another. */
  ghost predicate NoLateRepeat(h: seq<Step>) {
    forall k :: 0 <= k < |h| && Drops(h, k) ==> h[k] !in h[..k]
  }

  /** Every sandbox let go of as gone was itself reported gone. */
  ghost predicate LostWereReported(h: seq<Step>) {
    forall id :: id in After(h).fate && After(h).fate[id] == LostAsGone ==> Gone(id) in h
  }

  /** A sandbox some run was given was held, and is held still, was lost, or went with the
      shutdown. */
  lemma {:induction false} GivenFates(h: seq<Step>, id: Id)
    requires Legal(h) && id in Given(h)
    ensures id in After(h).fate
    ensures After(h).holding != Closed ==> After(h).fate[id] in {Held, LostAsGone}
  {
    var early := h[..|h| - 1];
    EverySandboxAccounted(h);
    EverySandboxAccounted(early);
    if id in Given(early) {
      GivenFates(early, id);
    }
  }

  lemma SameEarlier(h: seq<Step>, k: nat)
    requires k < |h| - 1
    ensures var early := h[..|h| - 1];
            && h[k] == early[k] && h[..k] == early[..k] && Before(h, k) == Before(early, k)
            && (Drops(h, k) <==> Drops(early, k))
  {
    assert h[..k] == h[..|h| - 1][..k];
  }

  /** A law of every drop is the law of the drops before the last and of the last. */
  lemma OwnAtLast(h: seq<Step>)
    requires h != []
    ensures var early, last := h[..|h| - 1], |h| - 1;
            DropsOwn(h) <==> DropsOwn(early) && (Drops(h, last) ==> Before(h, last).holding.id == h[last].sandbox)
  {
    forall k | 0 <= k < |h| - 1
      ensures Drops(h, k) <==> Drops(h[..|h| - 1], k)
      ensures Before(h, k) == Before(h[..|h| - 1], k) && h[k] == h[..|h| - 1][k]
    {
      SameEarlier(h, k);
    }
  }

  lemma RepeatAtLast(h: seq<Step>)
    requires h != []
    ensures var early, last := h[..|h| - 1], |h| - 1;
            NoLateRepeat(h) <==> NoLateRepeat(early) && (Drops(h, last) ==> h[last] !in h[..last])
  {
    forall k | 0 <= k < |h| - 1
      ensures Drops(h, k) <==> Drops(h[..|h| - 1], k)
      ensures h[..k] == h[..|h| - 1][..k] && h[k] == h[..|h| - 1][k]
    {
      SameEarlier(h, k);
    }
  }

  /** So long as every report drops its own, whatever was lost was reported. */
  lemma {:induction false} OwnDropsReported(h: seq<Step>)
    requires Legal(h) && DropsOwn(h)
    ensures LostWereReported(h)
  {
    if h != [] {
      var early, last := h[..|h| - 1], h[|h| - 1];
      assert h == early + [last];
      OwnAtLast(h);
      OwnDropsReported(early);
      assert Before(h, |early|) == After(early);
      forall id | id in After(h).fate && After(h).fate[id] == LostAsGone ensures Gone(id) in h {
        if id in After(early).fate && After(early).fate[id] == LostAsGone {
          assert Gone(id) in early;
        } else {
          assert Drops(h, |early|);
        }
      }
    }
  }

  /** A sandbox once reported gone is never held again. */
  lemma ReportedIsNotHeld(h: seq<Step>, sandbox: Id)
    requires Legal(h) && Gone(sandbox) in h
    ensures After(h).holding != Live(sandbox)
  {
    var j :| 0 <= j < |h| && h[j] == Gone(sandbox);
    var upTo, more := h[..j + 1], h[j + 1..];
    assert h == upTo + more && upTo[..j] == h[..j];
    LegalPrefix(upTo, more);
    GivenFates(h[..j], sandbox);
    EverySandboxAccounted(h[..j]);
    EverySandboxAccounted(upTo);
    FatesAreFinal(upTo, more, sandbox);
    EverySandboxAccounted(h);
  }

  /** A report that is the first of its sandbox drops that sandbox or nothing, when every
      report before it did. */
  lemma FirstDropsOwn(early: seq<Step>, sandbox: Id)
    requires Legal(early) && DropsOwn(early) && sandbox in Given(early)
    requires Gone(sandbox) !in early && After(early).holding.Live?
    ensures After(early).holding == Live(sandbox)
  {
    GivenFates(early, sandbox);
    OwnDropsReported(early);
    EverySandboxAccounted(early);
  }

  /** In every interleaving each report of a job gone drops the sandbox the job was in, or
      nothing, exactly when no sandbox is reported a second time while another is held. */
  lemma {:induction false} GoneDropsItsOwn(h: seq<Step>)
    requires Legal(h)
    ensures DropsOwn(h) <==> NoLateRepeat(h)
  {
    if h != [] {
      var early, last := h[..|h| - 1], h[|h| - 1];
      assert h == early + [last] && h[..|early|] == early;
      OwnAtLast(h);
      RepeatAtLast(h);
      GoneDropsItsOwn(early);
      if Drops(h, |early|) {
        if last in early {
          ReportedIsNotHeld(early, last.sandbox);
        } else if DropsOwn(early) {
          FirstDropsOwn(early, last.sandbox);
        }
      }
    }
  }

  /** So when each sandbox is reported gone at most once, none is let go of that was not
      reported gone. */
  lemma OnceIsEnough(h: seq<Step>)
    requires Legal(h)
    requires forall i, j :: 0 <= i < j < |h| && h[i].Gone? ==> h[i] != h[j]
    ensures LostWereReported(h)
  {
    forall k | 0 <= k < |h| && Drops(h, k) ensures h[k] !in h[..k] {
    }
    GoneDropsItsOwn(h);
    OwnDropsReported(h);
  }

  /** Two jobs in one sandbox that died, each told so, with a run between them: the second
      report drops the sandbox the run made, which nobody reported. */
  lemma GoneTwiceDropsALiveOne()
    ensures var h := [Asks(Prepared(1)), Gone(1), Asks(Prepared(2)), Gone(1)];
            Legal(h) && After(h) == State(Nothing, map[1 := LostAsGone, 2 := LostAsGone]) && !LostWereReported(h)
  {
    var h := [Asks(Prepared(1)), Gone(1), Asks(Prepared(2)), Gone(1)];
    var first, second, third := [Asks(Prepared(1))], [Asks(Prepared(1)), Gone(1)], h[..3];
    assert h[..3] == [Asks(Prepared(1)), Gone(1), Asks(Prepared(2))];
    assert third[..2] == second && second[..1] == first && first[..0] == [];
    assert After(first) == State(Live(1), map[1 := Held]) && Given(first) == {1};
    assert After(second) == State(Nothing, map[1 := LostAsGone]) && 1 in Given(second);
    assert After(third) == State(Live(2), map[1 := LostAsGone, 2 := Held]) && 1 in Given(third);
    assert Legal(first) && Legal(second) && Legal(third);
    assert After(h).fate[2] == LostAsGone && Gone(2) !in h;
  }
}
