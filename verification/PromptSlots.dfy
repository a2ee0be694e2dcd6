/** One prompt slot and one cancel mark for each session, shared by every prompt and every
    cancellation that arrives. */
module PromptSlots {
  import opened Wrappers

  datatype Record = Record(inflight: bool, cancelled: bool)

  type Sessions = map<string, Record>

  datatype Refusal = UnknownSession | AlreadyInFlight

  /** What the engine says of a turn, and what the client is told. */
  datatype Answer = Finished(reason: string) | Interrupted | Failed(fault: string)

  datatype Stop = Cancelled | Ended(reason: string) | Error(fault: string)

  function Own(answer: Answer): Stop {
    match answer
    case Finished(reason) => Ended(reason)
    case Interrupted => Cancelled
    case Failed(fault) => Error(fault)
  }

  // ----- one step at a time -----

  function Opened(sessions: Sessions, id: string): Sessions {
    sessions[id := Record(false, false)]
  }

  function Claimed(sessions: Sessions, id: string): Result<Sessions, Refusal> {
    if id !in sessions then Err(UnknownSession)
    else if sessions[id].inflight then Err(AlreadyInFlight)
    else Ok(sessions[id := Record(true, false)])
  }

  function Marked(sessions: Sessions, id: string): Sessions {
    if id in sessions then sessions[id := sessions[id].(cancelled := true)] else sessions
  }

  function IsMarked(sessions: Sessions, id: string): bool {
    id in sessions && sessions[id].cancelled
  }

  function Released(sessions: Sessions, id: string): Sessions {
    if id in sessions then sessions[id := Record(false, false)] else sessions
  }

  /** A page of a session's journal. */
  datatype Page<T> = Page(events: seq<T>, eof: bool, nextSeq: nat)

  /** A page that is served is a stretch of the journal from where it was asked for, and one
      that says it is the last reaches the end. */
  ghost predicate Honest<T>(page: nat -> Result<Page<T>, string>, journal: seq<T>) {
    forall from: nat :: from <= |journal| && page(from).Ok? ==>
      var p := page(from).value;
      && from <= p.nextSeq <= |journal| && p.events == journal[from..p.nextSeq]
      && (p.eof ==> p.nextSeq == |journal|)
  }

  /** No page stands still short of the end. */
  ghost predicate Advances<T>(page: nat -> Result<Page<T>, string>, journal: seq<T>) {
    forall from: nat :: from < |journal| && page(from).Ok? ==> page(from).value.nextSeq > from
  }

  class Bridge {
    var sessions: Sessions

    constructor ()
      ensures sessions == map[]
    {
      sessions := map[];
    }

    method Open(id: string)
      modifies this
      ensures sessions == old(sessions)[id := Record(false, false)] == Opened(old(sessions), id)
    {
      sessions := sessions[id := Record(false, false)];
    }

    /** Replay a session's journal page by page, and only then register the session. What
        is sent is the journal from its start; all of it, when the pages advance. The
        replay also stops at a page that stands still. */
    method Load<T>(id: string, page: nat -> Result<Page<T>, string>, ghost journal: seq<T>)
      returns (sent: seq<T>, fault: Option<string>)
      requires Honest(page, journal)
      modifies this
      ensures sent <= journal
      ensures sessions == if fault.None? then Opened(old(sessions), id) else old(sessions)
      ensures fault.None? && Advances(page, journal) ==> sent == journal
    {
      sent := [];
      var from: nat := 0;
      while true
        invariant from <= |journal| && sent == journal[..from] && sessions == old(sessions)
        decreases |journal| - from
      {
        var answer := page(from);
        if answer.Err? {
          return sent, Some(answer.error);
        }
        var p := answer.value;
        sent := sent + p.events;
        assert sent == journal[..p.nextSeq];
        if p.eof || p.nextSeq <= from {
          break;
        }
        from := p.nextSeq;
      }
      Open(id);
      fault := None;
    }

    /** Take the session's one slot, with no mark on it. */
    method Claim(id: string) returns (refusal: Option<Refusal>)
      modifies this
      ensures refusal == None <==> id in old(sessions) && !old(sessions)[id].inflight
      ensures refusal == None ==> sessions == old(sessions)[id := Record(true, false)]
      ensures refusal.Some? ==>
                && sessions == old(sessions)
                && refusal.value == if id in old(sessions) then AlreadyInFlight else UnknownSession
      ensures sessions == if Claimed(old(sessions), id).Ok? then Claimed(old(sessions), id).value else old(sessions)
    {
      if id !in sessions {
        return Some(UnknownSession);
      }
      if sessions[id].inflight {
        return Some(AlreadyInFlight);
      }
      sessions := sessions[id := Record(true, false)];
      return None;
    }

    method Cancel(id: string) returns (known: bool)
      modifies this
      ensures known == (id in old(sessions))
      ensures sessions == if known then old(sessions)[id := Record(old(sessions)[id].inflight, true)] else old(sessions)
      ensures sessions == Marked(old(sessions), id)
    {
      known := id in sessions;
      if known {
        sessions := sessions[id := Record(sessions[id].inflight, true)];
      }
    }

    /** Give the slot back, and read and clear the mark at the same moment. */
    method Settle(id: string, answer: Answer) returns (stop: Stop)
      modifies this
      ensures sessions == if id in old(sessions) then old(sessions)[id := Record(false, false)] else old(sessions)
      ensures sessions == Released(old(sessions), id)
      ensures id in old(sessions) && old(sessions)[id].cancelled ==> stop == Cancelled
      ensures !(id in old(sessions) && old(sessions)[id].cancelled) ==>
                match answer
                case Finished(reason) => stop == Ended(reason)
                case Interrupted => stop == Cancelled
                case Failed(fault) => stop == Error(fault)
      ensures stop == if IsMarked(old(sessions), id) then Cancelled else Own(answer)
    {
      var cancelled := false;
      if id in sessions {
        cancelled := sessions[id].cancelled;
        sessions := sessions[id := Record(false, false)];
      }
      stop := if cancelled then Cancelled else Own(answer);
    }
  }

  // ----- every interleaving -----

  datatype Step =
    | Opens(id: string)
    | Claims(prompt: nat, id: string)
    | Cancels(id: string)
    | Settles(prompt: nat)

  /** The sessions, and the prompts between their claim and their settlement. */
  datatype World = World(sessions: Sessions, running: map<nat, string>)

  function Next(w: World, step: Step): World {
    match step
    case Opens(id) => w.(sessions := Opened(w.sessions, id))
    case Cancels(id) => w.(sessions := Marked(w.sessions, id))
    case Claims(prompt, id) =>
      (match Claimed(w.sessions, id)
       case Ok(after) => World(after, w.running[prompt := id])
       case Err(_) => w)
    case Settles(prompt) =>
      if prompt in w.running then World(Released(w.sessions, w.running[prompt]), w.running - {prompt}) else w
  }

  function After(h: seq<Step>): World {
    if h == [] then World(map[], map[]) else Next(After(h[..|h| - 1]), h[|h| - 1])
  }

  predicate Busy(w: World, id: string) {
    exists prompt :: prompt in w.running && w.running[prompt] == id
  }

  /** Each prompt claims once and settles only what it claimed, and a session is opened
      again only while no prompt of it runs. */
  ghost predicate Allowed(h: seq<Step>, step: Step) {
    match step
    case Opens(id) => !Busy(After(h), id)
    case Claims(prompt, _) => forall k :: 0 <= k < |h| && h[k].Claims? ==> h[k].prompt != prompt
    case Settles(prompt) => prompt in After(h).running
    case Cancels(_) => true
  }

  ghost predicate Legal(h: seq<Step>) {
    h == [] || (Legal(h[..|h| - 1]) && Allowed(h[..|h| - 1], h[|h| - 1]))
  }

  /** No two prompts run in one session, and a slot is taken exactly while one does. */
  ghost predicate Exclusive(w: World) {
    && (forall p, q :: p in w.running && q in w.running && w.running[p] == w.running[q] ==> p == q)
    && (forall p :: p in w.running ==> w.running[p] in w.sessions)
    && (forall id :: id in w.sessions ==> (w.sessions[id].inflight <==> Busy(w, id)))
  }

  ghost predicate HasClaimed(h: seq<Step>, prompt: nat, id: string) {
    exists i :: 0 <= i < |h| && h[i] == Claims(prompt, id)
  }

  /** Every running prompt has claimed the session it runs in. */
  lemma {:induction false} RunningHasClaimed(h: seq<Step>, prompt: nat)
    requires prompt in After(h).running
    ensures HasClaimed(h, prompt, After(h).running[prompt])
  {
    var early, last := h[..|h| - 1], h[|h| - 1];
    var id := After(h).running[prompt];
    if last == Claims(prompt, id) {
      assert h[|early|] == last;
    } else {
      RunningHasClaimed(early, prompt);
      var i :| 0 <= i < |early| && early[i] == Claims(prompt, id);
      assert h[i] == early[i];
    }
  }

  lemma OpensKeeps(w: World, id: string)
    requires Exclusive(w) && !Busy(w, id)
    ensures Exclusive(Next(w, Opens(id)))
  {
    var after := Next(w, Opens(id));
    assert forall k :: Busy(after, k) <==> Busy(w, k);
  }

  lemma CancelsKeeps(w: World, id: string)
    requires Exclusive(w)
    ensures Exclusive(Next(w, Cancels(id)))
  {
    var after := Next(w, Cancels(id));
    assert forall k :: Busy(after, k) <==> Busy(w, k);
  }

  lemma ClaimsKeeps(w: World, prompt: nat, id: string)
    requires Exclusive(w) && prompt !in w.running
    ensures Exclusive(Next(w, Claims(prompt, id)))
  {
    if Claimed(w.sessions, id).Ok? {
      var after := Next(w, Claims(prompt, id));
      assert !Busy(w, id);
      forall k ensures Busy(after, k) <==> Busy(w, k) || k == id {
        if Busy(w, k) {
          var p :| p in w.running && w.running[p] == k;
          assert p in after.running && after.running[p] == k;
        }
        assert after.running[prompt] == id;
      }
    }
  }

  lemma SettlesKeeps(w: World, prompt: nat)
    requires Exclusive(w) && prompt in w.running
    ensures Exclusive(Next(w, Settles(prompt)))
  {
    var id, after := w.running[prompt], Next(w, Settles(prompt));
    forall k ensures Busy(after, k) <==> Busy(w, k) && k != id {
      if Busy(w, k) && k != id {
        var p :| p in w.running && w.running[p] == k;
        assert p in after.running && after.running[p] == k;
      }
    }
  }

  /** Each session has at most one prompt between claim and settlement, in every
      interleaving. */
  lemma {:induction false} OneAtATime(h: seq<Step>)
    requires Legal(h)
    ensures Exclusive(After(h))
  {
    if h != [] {
      var early, last := h[..|h| - 1], h[|h| - 1];
      OneAtATime(early);
      match last
      case Opens(id) => OpensKeeps(After(early), id);
      case Cancels(id) => CancelsKeeps(After(early), id);
      case Claims(prompt, id) =>
        if prompt in After(early).running {
          RunningHasClaimed(early, prompt);
        }
        ClaimsKeeps(After(early), prompt, id);
      case Settles(prompt) => SettlesKeeps(After(early), prompt);
    }
  }

  /** A cancellation of the session arrived after step `i`. */
  ghost predicate CancelledSince(h: seq<Step>, i: nat, id: string) {
    exists j :: i < j < |h| && h[j] == Cancels(id)
  }

  lemma CancelledSinceMore(h: seq<Step>, i: nat, id: string)
    requires i < |h| - 1
    ensures CancelledSince(h, i, id) <==> CancelledSince(h[..|h| - 1], i, id) || h[|h| - 1] == Cancels(id)
  {
    var early := h[..|h| - 1];
    assert forall j :: 0 <= j < |early| ==> early[j] == h[j];
    if CancelledSince(early, i, id) {
      var j :| i < j < |early| && early[j] == Cancels(id);
      assert h[j] == Cancels(id);
    }
  }

  /** While a prompt runs, its session carries the mark exactly when a cancellation has
      arrived since that prompt's own claim: no earlier one is carried over. */
  lemma {:induction false} MarkIsOwn(h: seq<Step>, i: nat, prompt: nat, id: string)
    requires Legal(h) && i < |h| && h[i] == Claims(prompt, id) && prompt in After(h).running
    ensures After(h).running[prompt] == id && (IsMarked(After(h).sessions, id) <==> CancelledSince(h, i, id))
  {
    var early, last := h[..|h| - 1], h[|h| - 1];
    if i == |h| - 1 {
      if prompt in After(early).running {
        RunningHasClaimed(early, prompt);
      }
    } else {
      assert early[i] == Claims(prompt, id);
      OneAtATime(early);
      CancelledSinceMore(h, i, id);
      MarkIsOwn(early, i, prompt, id);
      MarkStep(After(early), last, prompt, id);
    }
  }

  /** What one step does to the mark of a session whose prompt goes on running. */
  lemma MarkStep(w: World, step: Step, prompt: nat, id: string)
    requires Exclusive(w) && prompt in w.running && w.running[prompt] == id
    requires prompt in Next(w, step).running
    requires step.Opens? ==> !Busy(w, step.id)
    requires step.Claims? ==> step.prompt != prompt
    ensures Next(w, step).running[prompt] == id
    ensures IsMarked(Next(w, step).sessions, id) <==> IsMarked(w.sessions, id) || step == Cancels(id)
  {
    assert Busy(w, id);
  }

  /** What a prompt is told: cancelled when a cancellation arrived between its claim and
      its settlement, and otherwise the engine's own answer. */
  function Told(w: World, prompt: nat, answer: Answer): Stop
    requires prompt in w.running
  {
    if IsMarked(w.sessions, w.running[prompt]) then Cancelled else Own(answer)
  }

  lemma CancelledWhenAsked(h: seq<Step>, i: nat, prompt: nat, id: string, answer: Answer)
    requires Legal(h) && i < |h| && h[i] == Claims(prompt, id) && prompt in After(h).running
    ensures Told(After(h), prompt, answer) == if CancelledSince(h, i, id) then Cancelled else Own(answer)
    ensures Legal(h + [Settles(prompt)]) && !IsMarked(After(h + [Settles(prompt)]).sessions, id)
  {
    MarkIsOwn(h, i, prompt, id);
    var done := h + [Settles(prompt)];
    assert done[..|done| - 1] == h;
  }

  /** Opening a session again is what the slot does not survive: the next claim is granted
      even though a prompt of it runs, exactly when there is such a prompt to run beside. */
  lemma OpeningFreesTheSlot(h: seq<Step>, id: string, prompt: nat)
    requires Legal(h) && forall k :: 0 <= k < |h| && h[k].Claims? ==> h[k].prompt != prompt
    ensures Exclusive(Next(Next(After(h), Opens(id)), Claims(prompt, id))) <==> !Busy(After(h), id)
  {
    OneAtATime(h);
    var w := After(h);
    var again := Next(w, Opens(id));
    var both := Next(again, Claims(prompt, id));
    if prompt in w.running {
      RunningHasClaimed(h, prompt);
    }
    if Busy(w, id) {
      var p :| p in w.running && w.running[p] == id;
      assert p in both.running && both.running[p] == id && both.running[prompt] == id;
    } else {
      OpensKeeps(w, id);
      ClaimsKeeps(again, prompt, id);
    }
  }

  /** A prompt that has claimed its session is such a history: opening the session again
      grants a second prompt the slot the first still has. */
  lemma OpeningDoubles(id: string)
    ensures var h := [Opens(id), Claims(0, id)];
            var both := Next(Next(After(h), Opens(id)), Claims(1, id));
            && Legal(h) && Busy(After(h), id)
            && both.running == map[0 := id, 1 := id]
  {
    var h := [Opens(id), Claims(0, id)];
    assert h[..1] == [Opens(id)] && [Opens(id)][..0] == [];
    assert After([Opens(id)]) == World(map[id := Record(false, false)], map[]);
    assert After([]) == World(map[], map[]) && Legal([]) && Allowed([], Opens(id));
    assert Allowed([Opens(id)], Claims(0, id));
    assert After(h).running == map[0 := id] && 0 in After(h).running;
    assert Legal([Opens(id)]) && Legal(h);
  }
}
