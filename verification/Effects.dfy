/** Registrations that hand back an undo, and scopes that unwind newest first. */
module Effects {
  import opened Sequences
  import opened Wrappers

  /** One undo, with the message it panics with if it does, or a whole scope collapsed into
      one handle. */
  datatype Handle = Undo(name: string, panic: Option<string>) | Nested(effects: seq<Handle>)

  // ----- what a scope holds -----

  /** The undos of a handle in the order they were registered. */
  function Registered(h: Handle): seq<string>
    decreases h, 0
  {
    match h
    case Undo(name, _) => [name]
    case Nested(effects) => RegisteredAll(effects)
  }

  function RegisteredAll(effects: seq<Handle>): seq<string>
    decreases effects, 0
  {
    if effects == [] then []
    else RegisteredAll(effects[..|effects| - 1]) + Registered(effects[|effects| - 1])
  }

  /** What the undos held directly panic with. */
  function Panics(effects: seq<Handle>): seq<string> {
    if effects == [] then []
    else Panics(effects[..|effects| - 1]) + Panic(effects[|effects| - 1])
  }

  function Panic(h: Handle): seq<string> {
    if h.Undo? && h.panic.Some? then [h.panic.value] else []
  }

  /** How many handles there are, at every depth. */
  function Size(effects: seq<Handle>): nat
    decreases effects, 0
  {
    if effects == [] then 0 else Size(effects[..|effects| - 1]) + SizeOf(effects[|effects| - 1])
  }

  function SizeOf(h: Handle): (n: nat)
    ensures n > 0
    decreases h, 0
  {
    match h
    case Undo(_, _) => 1
    case Nested(effects) => Size(effects) + 1
  }

  /** A nested scope unwinds at its own place in the outer order: nesting changes what is
      reported, never what runs or when. */
  lemma {:induction false} NestingIsInvisible(before: seq<Handle>, inner: seq<Handle>, after: seq<Handle>)
    ensures RegisteredAll(before + [Nested(inner)] + after) == RegisteredAll(before + inner + after)
  {
    RegisteredConcat(before + [Nested(inner)], after);
    RegisteredConcat(before + inner, after);
    RegisteredConcat(before, inner);
    assert (before + [Nested(inner)])[..|before|] == before;
  }

  lemma {:induction false} RegisteredConcat(a: seq<Handle>, b: seq<Handle>)
    ensures RegisteredAll(a + b) == RegisteredAll(a) + RegisteredAll(b)
  {
    var ab := a + b;
    if b == [] {
      assert ab == a;
    } else {
      assert ab[..|ab| - 1] == a + b[..|b| - 1];
      RegisteredConcat(a, b[..|b| - 1]);
    }
  }

  /** The exact reverse of the order everything was registered in. */
  function RunOrder(effects: seq<Handle>): seq<string> {
    Reverse(RegisteredAll(effects))
  }

  function FaultOrder(effects: seq<Handle>): seq<string> {
    Reverse(Panics(effects))
  }

  lemma LastGoesFirst(effects: seq<Handle>)
    requires effects != []
    ensures var early, last := effects[..|effects| - 1], effects[|effects| - 1];
            && RunOrder(effects) == Reverse(Registered(last)) + RunOrder(early)
            && FaultOrder(effects) == Panic(last) + FaultOrder(early)
  {
    var early, last := effects[..|effects| - 1], effects[|effects| - 1];
    ReverseConcat(RegisteredAll(early), Registered(last));
    ReverseConcat(Panics(early), Panic(last));
    assert Reverse(Panic(last)) == Panic(last);
  }

  lemma NextPart<T>(done: seq<T>, next: seq<T>, rest: seq<T>, owed: seq<T>)
    requires owed == next + rest
    ensures (done + next) + rest == done + owed
  {
  }

  /** `faults` are the messages of the undos at the places `at`, which are all those held
      directly that panic, newest first. */
  ghost predicate PanickedAt(effects: seq<Handle>, faults: seq<string>, at: seq<nat>) {
    && |at| == |faults|
    && (forall i :: 0 <= i < |at| ==>
          at[i] < |effects| && effects[at[i]].Undo? && effects[at[i]].panic == Some(faults[i]))
    && (forall i, j :: 0 <= i < j < |at| ==> at[i] > at[j])
    && (forall k :: 0 <= k < |effects| && effects[k].Undo? && effects[k].panic.Some? ==> k in at)
  }

  lemma {:induction false} FaultsAre(effects: seq<Handle>) returns (at: seq<nat>)
    ensures PanickedAt(effects, FaultOrder(effects), at)
  {
    at := [];
    if effects != [] {
      var early, last := effects[..|effects| - 1], effects[|effects| - 1];
      at := FaultsAre(early);
      assert effects == early + [last];
      at := FaultsMore(early, last, at);
    }
  }

  lemma FaultsMore(early: seq<Handle>, last: Handle, at: seq<nat>) returns (more: seq<nat>)
    requires PanickedAt(early, FaultOrder(early), at)
    ensures PanickedAt(early + [last], FaultOrder(early + [last]), more)
  {
    FaultOrderSnoc(early, last);
    if last.Undo? && last.panic.Some? {
      NewestFault(early, last, FaultOrder(early), at);
      more := [|early|] + at;
    } else {
      NoNewFault(early, last, FaultOrder(early), at);
      more := at;
    }
  }

  lemma FaultOrderSnoc(early: seq<Handle>, last: Handle)
    ensures FaultOrder(early + [last]) ==
            if last.Undo? && last.panic.Some? then [last.panic.value] + FaultOrder(early) else FaultOrder(early)
  {
    var effects := early + [last];
    assert effects[..|effects| - 1] == early;
    LastGoesFirst(effects);
  }

  lemma NoNewFault(early: seq<Handle>, last: Handle, faults: seq<string>, at: seq<nat>)
    requires PanickedAt(early, faults, at) && !(last.Undo? && last.panic.Some?)
    ensures PanickedAt(early + [last], faults, at)
  {
  }

  lemma NewestFault(early: seq<Handle>, last: Handle, faults: seq<string>, at: seq<nat>)
    requires PanickedAt(early, faults, at) && last.Undo? && last.panic.Some?
    ensures PanickedAt(early + [last], [last.panic.value] + faults, [|early|] + at)
  {
    var all := [|early|] + at;
    forall k | 0 <= k < |early| + 1 && (early + [last])[k].Undo? && (early + [last])[k].panic.Some?
      ensures k in all
    {
      if k < |early| {
        assert early[k] == (early + [last])[k] && k in at;
      } else {
        assert all[0] == k;
      }
    }
  }

  /** Undos held directly are registered under their own names. */
  lemma {:induction false} RegisteredFlat(effects: seq<Handle>)
    requires forall i :: 0 <= i < |effects| ==> effects[i].Undo?
    ensures |RegisteredAll(effects)| == |effects|
    ensures forall i :: 0 <= i < |effects| ==> RegisteredAll(effects)[i] == effects[i].name
  {
    if effects != [] {
      RegisteredFlat(effects[..|effects| - 1]);
    }
  }

  // ----- the scope -----

  class EffectScope {
    var effects: seq<Handle>

    constructor ()
      ensures effects == []
    {
      effects := [];
    }

    constructor Of(held: seq<Handle>)
      ensures effects == held
    {
      effects := held;
    }

    method Keep(effect: Handle)
      modifies this
      ensures effects == old(effects) + [effect]
    {
      effects := effects + [effect];
    }

    /** Unwind now: every undo at every depth runs once, in the exact reverse of the order
        they were registered, whichever of them panic; the panics of those held directly
        are answered in the order they happened; the scope is left holding nothing. */
    method Unwind() returns (ran: seq<string>, faults: seq<string>)
      modifies this
      ensures effects == []
      ensures ran == Reverse(RegisteredAll(old(effects)))
      ensures faults == FaultOrder(old(effects)) && exists at :: PanickedAt(old(effects), faults, at)
      decreases Size(effects), 1
    {
      ghost var at := FaultsAre(effects);
      ran, faults := [], [];
      while effects != []
        invariant Size(effects) <= old(Size(effects))
        invariant ran + RunOrder(effects) == RunOrder(old(effects))
        invariant faults + FaultOrder(effects) == FaultOrder(old(effects))
        decreases |effects|
      {
        var effect := effects[|effects| - 1];
        LastGoesFirst(effects);
        NextPart(ran, Reverse(Registered(effect)), RunOrder(effects[..|effects| - 1]), RunOrder(effects));
        NextPart(faults, Panic(effect), FaultOrder(effects[..|effects| - 1]), FaultOrder(effects));
        effects := effects[..|effects| - 1];
        var more, panic := Drop(effect);
        ran := ran + more;
        ghost var met := faults;
        if panic.Some? {
          faults := faults + [panic.value];
        }
        assert faults == met + Panic(effect);
      }
      assert PanickedAt(old(effects), faults, at);
    }

    /** Keep every effect for good. An undo is let go without running; a nested scope is
        let go too, and letting go of a scope unwinds it. */
    method Forget() returns (ran: seq<string>)
      modifies this
      ensures effects == [] && ran == Forgotten(old(effects))
    {
      var held := effects;
      effects := [];
      ran := [];
      for i := 0 to |held|
        invariant effects == [] && ran == Forgotten(held[..i])
      {
        ForgottenMore(held, i);
        if held[i].Nested? {
          var inner := new EffectScope.Of(held[i].effects);
          var more, _ := inner.Unwind();
          ran := ran + more;
        }
      }
      assert held[..|held|] == held;
    }

    /** Collapse the scope into one handle. */
    method IntoHandle() returns (h: Handle)
      modifies this
      ensures effects == [] && h == Nested(old(effects))
    {
      h := Nested(effects);
      effects := [];
    }
  }

  /** Let go of one handle: its undo runs, or the scope it stands for unwinds and absorbs
      its own faults. */
  method Drop(h: Handle) returns (ran: seq<string>, panic: Option<string>)
    ensures ran == Reverse(Registered(h))
    ensures panic == if h.Undo? then h.panic else None
    decreases SizeOf(h), 0
  {
    if h.Undo? {
      ran, panic := [h.name], h.panic;
    } else {
      var inner := new EffectScope.Of(h.effects);
      var faults;
      ran, faults := inner.Unwind();
      panic := None;
    }
  }

  // ----- whole lives -----

  datatype Step = Keeps(effect: Handle) | Unwinds

  /** What a scope holds after some steps. */
  function Held(steps: seq<Step>): seq<Handle> {
    if steps == [] then []
    else
      match steps[|steps| - 1]
      case Keeps(effect) => Held(steps[..|steps| - 1]) + [effect]
      case Unwinds => []
  }

  /** What has run after some steps. */
  function Ran(steps: seq<Step>): seq<string> {
    if steps == [] then []
    else
      var early := steps[..|steps| - 1];
      match steps[|steps| - 1]
      case Keeps(_) => Ran(early)
      case Unwinds => Ran(early) + Reverse(RegisteredAll(Held(early)))
  }

  function Kept(steps: seq<Step>): seq<Handle> {
    if steps == [] then []
    else
      Kept(steps[..|steps| - 1]) + if steps[|steps| - 1].Keeps? then [steps[|steps| - 1].effect] else []
  }

  /** Whatever the nesting and however often the scope unwinds, no undo is lost and none
      runs twice: what ran and what is still held are together all that was ever kept. */
  lemma {:induction false} NothingLostOrRepeated(steps: seq<Step>)
    ensures multiset(Ran(steps)) + multiset(RegisteredAll(Held(steps))) == multiset(RegisteredAll(Kept(steps)))
  {
    if steps != [] {
      var early := steps[..|steps| - 1];
      NothingLostOrRepeated(early);
      match steps[|steps| - 1]
      case Keeps(effect) =>
        RegisteredConcat(Held(early), [effect]);
        RegisteredConcat(Kept(early), [effect]);
      case Unwinds =>
        ReverseKeeps(RegisteredAll(Held(early)));
        assert Kept(early) + [] == Kept(early);
    }
  }

  /** Letting go of a scope after any life: each undo ever kept has run exactly as often as
      it was kept, and unwinding again runs nothing. */
  lemma DroppedRunsAll(steps: seq<Step>)
    ensures multiset(Ran(steps + [Unwinds])) == multiset(RegisteredAll(Kept(steps)))
    ensures Ran(steps + [Unwinds, Unwinds]) == Ran(steps + [Unwinds])
  {
    var once := steps + [Unwinds];
    assert once[..|once| - 1] == steps;
    NothingLostOrRepeated(steps);
    ReverseKeeps(RegisteredAll(Held(steps)));
    var twice := steps + [Unwinds, Unwinds];
    assert twice[..|twice| - 1] == once;
  }

  // ----- forgetting -----

  /** What forgetting a scope runs. */
  function Forgotten(effects: seq<Handle>): seq<string> {
    if effects == [] then []
    else
      var last := effects[|effects| - 1];
      Forgotten(effects[..|effects| - 1]) + if last.Nested? then Reverse(Registered(last)) else []
  }

  lemma ForgottenMore(effects: seq<Handle>, i: nat)
    requires i < |effects|
    ensures Forgotten(effects[..i + 1]) ==
            if effects[i].Nested? then Forgotten(effects[..i]) + Reverse(RegisteredAll(effects[i].effects))
            else Forgotten(effects[..i])
  {
    assert effects[..i + 1][..i] == effects[..i];
  }

  /** Forgetting runs nothing exactly when no nested handle in the scope holds an undo. */
  lemma {:induction false} ForgetRunsNothing(effects: seq<Handle>)
    ensures Forgotten(effects) == [] <==>
            forall i :: 0 <= i < |effects| && effects[i].Nested? ==> Registered(effects[i]) == []
  {
    if effects != [] {
      var early, last := effects[..|effects| - 1], effects[|effects| - 1];
      ForgetRunsNothing(early);
      ReverseKeeps(Registered(last));
      assert |Reverse(Registered(last))| == |multiset(Registered(last))|;
      forall i | 0 <= i < |early| ensures early[i] == effects[i] {
      }
    }
  }

  /** So forgetting a scope that holds a nested one undoes what was to be kept. */
  lemma ForgetUndoesNested(name: string)
    ensures Forgotten([Nested([Undo(name, None)])]) == [name]
  {
    var inner := [Undo(name, None)];
    assert inner[..0] == [] && RegisteredAll(inner[..0]) == [];
    assert RegisteredAll(inner) == [name] && Reverse([name]) == [name];
    assert [Nested(inner)][..0] == [] && Forgotten([Nested(inner)][..0]) == [];
  }
}
