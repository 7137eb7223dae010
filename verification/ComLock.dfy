/** Requests that run at the same time in the gateway process, interleaved in any order, each
    wrapped in `_with_com_lock` (gateway/creon_client.py). A request is the list of exchanges that
    it makes with the COM objects before it returns or raises; what an exchange is, is left open. */
module ComLock {
  import opened Wrappers
  import opened PyText
  import opened CreonCancel

  datatype Phase = Waiting | Inside(made: nat) | Finished | TimedOut

  /** An exchange in the common log, with the request that made it. */
  datatype Entry<E> = Entry(request: nat, event: E)

  datatype World<E> = World(owner: Option<nat>, phases: seq<Phase>, log: seq<Entry<E>>)

  datatype Turn =
    | Acquire(request: nat)
    | TimeOut(request: nat)
    | Exchange(request: nat)
    | Release(request: nat)

  function Start<E>(requests: seq<seq<E>>): World<E> {
    World(None, seq(|requests|, _ => Waiting), [])
  }

  /** Only taking the lock looks at its owner. A request that holds it makes its exchanges one by
      one and releases the lock when there are no more, whether it then returns or raises. */
  predicate Possible<E>(requests: seq<seq<E>>, w: World<E>, turn: Turn)
    requires |w.phases| == |requests|
  {
    && turn.request < |requests|
    && match turn
       case Acquire(i) => w.phases[i] == Waiting && w.owner == None
       case TimeOut(i) => w.phases[i] == Waiting && w.owner != None
       case Exchange(i) => w.phases[i].Inside? && w.phases[i].made < |requests[i]|
       case Release(i) => w.phases[i].Inside? && w.phases[i].made == |requests[i]|
  }

  function Next<E>(requests: seq<seq<E>>, w: World<E>, turn: Turn): (next: World<E>)
    requires |w.phases| == |requests| && Possible(requests, w, turn)
    ensures |next.phases| == |requests|
  {
    match turn
    case Acquire(i) => World(Some(i), w.phases[i := Inside(0)], w.log)
    case TimeOut(i) => w.(phases := w.phases[i := TimedOut])
    case Exchange(i) =>
      var made := w.phases[i].made;
      w.(phases := w.phases[i := Inside(made + 1)], log := w.log + [Entry(i, requests[i][made])])
    case Release(i) => World(None, w.phases[i := Finished], w.log)
  }

  /** The world after the given turns, None if one of them is not possible when its time comes. */
  function After<E>(requests: seq<seq<E>>, turns: seq<Turn>): (w: Option<World<E>>)
    ensures w.Some? ==> |w.value.phases| == |requests|
  {
    if turns == [] then Some(Start(requests))
    else
      var before := After(requests, turns[..|turns| - 1]);
      var turn := turns[|turns| - 1];
      if before.Some? && Possible(requests, before.value, turn) then Some(Next(requests, before.value, turn)) else None
  }

  function Made<E>(request: seq<E>, phase: Phase): seq<E> {
    match phase
    case Waiting => []
    case TimedOut => []
    case Inside(made) => if made <= |request| then request[..made] else request
    case Finished => request
  }

  /** From position p on, the log holds exactly these exchanges of request i, one after the other,
      and nowhere else an exchange of that request. */
  ghost predicate OneBlock<E>(log: seq<Entry<E>>, i: nat, p: nat, events: seq<E>) {
    && p + |events| <= |log|
    && (forall k :: 0 <= k < |events| ==> log[p + k] == Entry(i, events[k]))
    && (forall q :: 0 <= q < |log| && !(p <= q < p + |events|) ==> log[q].request != i)
  }

  ghost predicate HasBlock<E>(log: seq<Entry<E>>, i: nat, events: seq<E>) {
    exists p: nat :: OneBlock(log, i, p, events)
  }

  /** While a request holds the lock its block is at the end of the log. */
  ghost predicate InsideOK<E>(request: seq<E>, w: World<E>, i: nat, made: nat) {
    && w.owner == Some(i)
    && made <= |request| && made <= |w.log|
    && OneBlock(w.log, i, |w.log| - made, request[..made])
  }

  ghost predicate RequestOK<E>(requests: seq<seq<E>>, w: World<E>, i: nat)
    requires |w.phases| == |requests| && i < |requests|
  {
    && HasBlock(w.log, i, Made(requests[i], w.phases[i]))
    && (w.owner == Some(i) ==> w.phases[i].Inside?)
    && (w.phases[i].Inside? ==> InsideOK(requests[i], w, i, w.phases[i].made))
  }

  ghost predicate WorldOK<E>(requests: seq<seq<E>>, w: World<E>) {
    && |w.phases| == |requests|
    && (w.owner.Some? ==> w.owner.value < |requests|)
    && forall i: nat :: i < |requests| ==> RequestOK(requests, w, i)
  }

  lemma OwnExchange<E>(log: seq<Entry<E>>, request: seq<E>, i: nat, made: nat)
    requires made < |request| && made <= |log| && OneBlock(log, i, |log| - made, request[..made])
    ensures OneBlock(log + [Entry(i, request[made])], i, |log| - made, request[..made + 1])
  {
  }

  lemma EmptyBlockAnywhere<E>(log: seq<Entry<E>>, request: seq<E>, i: nat)
    requires HasBlock(log, i, [])
    ensures OneBlock(log, i, |log|, request[..0])
  {
    var p: nat :| OneBlock(log, i, p, []);
  }

  lemma OtherExchange<E>(log: seq<Entry<E>>, i: nat, p: nat, events: seq<E>, e: Entry<E>)
    requires OneBlock(log, i, p, events) && e.request != i
    ensures OneBlock(log + [e], i, p, events)
  {
  }

  lemma OwnTurnKeepsRequest<E>(requests: seq<seq<E>>, w: World<E>, turn: Turn)
    requires |w.phases| == |requests| && Possible(requests, w, turn) && RequestOK(requests, w, turn.request)
    ensures RequestOK(requests, Next(requests, w, turn), turn.request)
  {
    var i := turn.request;
    match turn
    case Acquire(_) =>
      EmptyBlockAnywhere(w.log, requests[i], i);
    case TimeOut(_) =>
    case Exchange(_) =>
      OwnExchange(w.log, requests[i], i, w.phases[i].made);
    case Release(_) =>
      assert requests[i][..w.phases[i].made] == requests[i];
  }

  lemma TurnKeepsRequest<E>(requests: seq<seq<E>>, w: World<E>, turn: Turn, i: nat)
    requires WorldOK(requests, w) && Possible(requests, w, turn) && i < |requests|
    ensures RequestOK(requests, Next(requests, w, turn), i)
  {
    assert RequestOK(requests, w, i) && RequestOK(requests, w, turn.request);
    if turn.request == i {
      OwnTurnKeepsRequest(requests, w, turn);
    } else if turn.Exchange? {
      var p: nat :| OneBlock(w.log, i, p, Made(requests[i], w.phases[i]));
      OtherExchange(w.log, i, p, Made(requests[i], w.phases[i]), Entry(turn.request, requests[turn.request][w.phases[turn.request].made]));
    }
  }

  lemma {:induction false} ReachableIsOK<E>(requests: seq<seq<E>>, turns: seq<Turn>)
    requires After(requests, turns).Some?
    ensures WorldOK(requests, After(requests, turns).value)
  {
    if turns == [] {
      var w := Start(requests);
      forall i: nat | i < |requests|
        ensures RequestOK(requests, w, i)
      {
        assert OneBlock(w.log, i, 0, Made(requests[i], w.phases[i]));
      }
    } else {
      ReachableIsOK(requests, turns[..|turns| - 1]);
      var w, turn := After(requests, turns[..|turns| - 1]).value, turns[|turns| - 1];
      forall i: nat | i < |requests|
        ensures RequestOK(requests, Next(requests, w, turn), i)
      {
        TurnKeepsRequest(requests, w, turn, i);
      }
    }
  }

  /** However the requests interleave, the exchanges of each are made one directly after the other,
      in its own order, with no exchange of another request between them. */
  lemma NoInterference<E>(requests: seq<seq<E>>, turns: seq<Turn>, w: World<E>, i: nat)
    requires After(requests, turns) == Some(w) && i < |requests|
    ensures HasBlock(w.log, i, Made(requests[i], w.phases[i]))
  {
    ReachableIsOK(requests, turns);
    assert RequestOK(requests, w, i);
  }

  /** At most one request is inside at a time, and the lock is free whenever none is: it is
      released on every way out. */
  lemma LockIsHeldExactlyInside<E>(requests: seq<seq<E>>, turns: seq<Turn>, w: World<E>)
    requires After(requests, turns) == Some(w)
    ensures forall i: nat :: i < |requests| ==> (w.phases[i].Inside? <==> w.owner == Some(i))
    ensures w.owner == None <==> forall i: nat :: i < |requests| ==> !w.phases[i].Inside?
  {
    ReachableIsOK(requests, turns);
    forall i: nat | i < |requests|
      ensures w.phases[i].Inside? <==> w.owner == Some(i)
    {
      assert RequestOK(requests, w, i);
    }
  }

  /** A waiting request can be turned away exactly while another one is inside. */
  lemma BusyExactlyBehindAnother<E>(requests: seq<seq<E>>, turns: seq<Turn>, w: World<E>, i: nat)
    requires After(requests, turns) == Some(w) && i < |requests|
    ensures Possible(requests, w, TimeOut(i)) <==>
      w.phases[i] == Waiting && exists j: nat :: j < |requests| && j != i && w.phases[j].Inside?
  {
    ReachableIsOK(requests, turns);
    LockIsHeldExactlyInside(requests, turns, w);
  }

  lemma {:induction false} OwnerTookTheLock<E>(requests: seq<seq<E>>, turns: seq<Turn>, w: World<E>)
    requires After(requests, turns) == Some(w) && w.owner.Some?
    ensures Acquire(w.owner.value) in turns
  {
    var front, turn := turns[..|turns| - 1], turns[|turns| - 1];
    assert turns == front + [turn];
    if !turn.Acquire? {
      OwnerTookTheLock(requests, front, After(requests, front).value);
    }
  }

  /** So a request that was answered as busy came after another one took the lock: one that is alone
      never is. */
  lemma {:induction false} BusyNeedsAnother<E>(requests: seq<seq<E>>, turns: seq<Turn>, w: World<E>, i: nat) returns (j: nat)
    requires After(requests, turns) == Some(w) && i < |requests| && w.phases[i] == TimedOut
    ensures j < |requests| && j != i && Acquire(j) in turns
  {
    var front, turn := turns[..|turns| - 1], turns[|turns| - 1];
    var before := After(requests, front).value;
    assert turns == front + [turn];
    if before.phases[i] == TimedOut {
      j := BusyNeedsAnother(requests, front, before, i);
    } else {
      ReachableIsOK(requests, front);
      OwnerTookTheLock(requests, front, before);
      j := before.owner.value;
      assert RequestOK(requests, before, j);
    }
  }

  // ---------------------------------------------------------------------------------------------
  // Every request ends
  // ---------------------------------------------------------------------------------------------

  predicate Ended(phase: Phase) {
    phase == Finished || phase == TimedOut
  }

  predicate AllEnded(phases: seq<Phase>) {
    forall i :: 0 <= i < |phases| ==> Ended(phases[i])
  }

  /** The turns that a request can still take. */
  function TurnsLeft<E>(request: seq<E>, phase: Phase): nat {
    match phase
    case Waiting => |request| + 2
    case Inside(made) => if made <= |request| then |request| - made + 1 else 1
    case Finished => 0
    case TimedOut => 0
  }

  function AllTurnsLeft<E>(requests: seq<seq<E>>, phases: seq<Phase>): nat
    requires |phases| == |requests|
  {
    if phases == [] then 0
    else
      var n := |phases| - 1;
      AllTurnsLeft(requests[..n], phases[..n]) + TurnsLeft(requests[n], phases[n])
  }

  lemma {:induction false} TurnsLeftAfter<E>(requests: seq<seq<E>>, phases: seq<Phase>, i: nat, phase: Phase)
    requires |phases| == |requests| && i < |phases|
    ensures AllTurnsLeft(requests, phases[i := phase]) - TurnsLeft(requests[i], phase)
         == AllTurnsLeft(requests, phases) - TurnsLeft(requests[i], phases[i])
  {
    var n := |phases| - 1;
    if i == n {
      assert phases[i := phase][..n] == phases[..n];
    } else {
      TurnsLeftAfter(requests[..n], phases[..n], i, phase);
      assert phases[i := phase][..n] == phases[..n][i := phase];
    }
  }

  lemma TurnIsUsed<E>(requests: seq<seq<E>>, w: World<E>, turn: Turn)
    requires |w.phases| == |requests| && Possible(requests, w, turn)
    ensures AllTurnsLeft(requests, Next(requests, w, turn).phases) < AllTurnsLeft(requests, w.phases)
  {
    TurnsLeftAfter(requests, w.phases, turn.request, Next(requests, w, turn).phases[turn.request]);
  }

  /** No run goes on for ever: its turns and those still left are at most two per request and one
      per exchange. */
  lemma {:induction false} TurnsAreBounded<E>(requests: seq<seq<E>>, turns: seq<Turn>, w: World<E>)
    requires After(requests, turns) == Some(w)
    ensures |turns| + AllTurnsLeft(requests, w.phases) <= AllTurnsLeft(requests, Start(requests).phases)
  {
    if turns != [] {
      var before := After(requests, turns[..|turns| - 1]).value;
      TurnsAreBounded(requests, turns[..|turns| - 1], before);
      TurnIsUsed(requests, before, turns[|turns| - 1]);
    }
  }

  /** The request that holds the lock can go on, and if none does, any that waits can. */
  lemma SomeTurnIsPossible<E>(requests: seq<seq<E>>, turns: seq<Turn>, w: World<E>) returns (turn: Turn)
    requires After(requests, turns) == Some(w) && !AllEnded(w.phases)
    ensures Possible(requests, w, turn)
  {
    ReachableIsOK(requests, turns);
    if w.owner.Some? {
      var i := w.owner.value;
      assert RequestOK(requests, w, i);
      turn := if w.phases[i].made < |requests[i]| then Exchange(i) else Release(i);
    } else {
      var i :| 0 <= i < |w.phases| && !Ended(w.phases[i]);
      assert RequestOK(requests, w, i);
      turn := Acquire(i);
    }
  }

  /** A world in which nothing more can happen is one in which every request has returned, raised or
      timed out, and then the lock is free: no way out of a request keeps it. */
  lemma StuckExactlyWhenAllEnded<E>(requests: seq<seq<E>>, turns: seq<Turn>, w: World<E>)
    requires After(requests, turns) == Some(w)
    ensures (forall turn :: !Possible(requests, w, turn)) <==> AllEnded(w.phases)
    ensures AllEnded(w.phases) ==> w.owner == None
  {
    if !AllEnded(w.phases) {
      var turn := SomeTurnIsPossible(requests, turns, w);
    } else {
      LockIsHeldExactlyInside(requests, turns, w);
    }
  }

  /** From every reachable world the requests can all be brought to their ends. */
  lemma {:induction false} EveryRequestCanEnd<E>(requests: seq<seq<E>>, turns: seq<Turn>, w: World<E>)
    returns (more: seq<Turn>, end: World<E>)
    requires After(requests, turns) == Some(w)
    ensures After(requests, turns + more) == Some(end) && AllEnded(end.phases) && end.owner == None
    decreases AllTurnsLeft(requests, w.phases)
  {
    if AllEnded(w.phases) {
      more, end := [], w;
      assert turns + more == turns;
      StuckExactlyWhenAllEnded(requests, turns, w);
    } else {
      var turn := SomeTurnIsPossible(requests, turns, w);
      TurnIsUsed(requests, w, turn);
      assert (turns + [turn])[..|turns|] == turns;
      more, end := EveryRequestCanEnd(requests, turns + [turn], Next(requests, w, turn));
      ConcatAssociates(turns, [turn], more);
      more := [turn] + more;
    }
  }

  // ---------------------------------------------------------------------------------------------
  // Cancel calls among other requests
  // ---------------------------------------------------------------------------------------------

  /** An exchange of a cancel call, or one of a quote, an order, an account reading or any other. */
  datatype GatewayEvent<O> = OfCancel(event: ComEvent) | OfOther(other: O)

  function Exchanges<O>(events: seq<ComEvent>): seq<GatewayEvent<O>> {
    seq(|events|, k requires 0 <= k < |events| => OfCancel(events[k]))
  }

  /** A cancel request in the log of the whole process, at position q, made by the call of request i
      that would make the given exchanges: what i has made so far is one block, in which the entries
      right before q are i's own reading of the whole history, which shows the order open. */
  ghost predicate Undisturbed<O>(b: string, log: seq<Entry<GatewayEvent<O>>>, i: nat, events: seq<ComEvent>, made: nat, q: nat) {
    exists p: nat ::
      && made <= |events| && OneBlock(log, i, p, Exchanges(events[..made])) && p <= q < p + made
      && events[q - p].CancelAnswered? && ParseInt(b) == Some(events[q - p].number)
      && JustReadOpen(b, events[..q - p])
  }

  lemma CancelIsUndisturbed<O>(requests: seq<seq<GatewayEvent<O>>>, turns: seq<Turn>, w: World<GatewayEvent<O>>, q: nat,
                               b: string, com: ComAnswers)
    requires After(requests, turns) == Some(w)
    requires q < |w.log| && w.log[q].event.OfCancel? && w.log[q].event.event.CancelAnswered?
    requires w.log[q].request < |requests| && requests[w.log[q].request] == Exchanges(CancelOutcome(b, com).events)
    ensures exists made: nat :: Undisturbed(b, w.log, w.log[q].request, CancelOutcome(b, com).events, made, q)
  {
    var i, events := w.log[q].request, CancelOutcome(b, com).events;
    NoInterference(requests, turns, w, i);
    CancelIsGuarded(b, com);
    var made := |Made(requests[i], w.phases[i])|;
    MadeIsPrefix(requests[i], w.phases[i]);
    assert Made(requests[i], w.phases[i]) == Exchanges<O>(events[..made]);
    BlockIsUndisturbed(b, w.log, i, events, made, q);
  }

  lemma MadeIsPrefix<E>(request: seq<E>, phase: Phase)
    ensures Made(request, phase) <= request
  {
  }

  lemma InBlock<E>(log: seq<Entry<E>>, i: nat, p: nat, events: seq<E>, q: nat) returns (k: nat)
    requires OneBlock(log, i, p, events) && q < |log| && log[q].request == i
    ensures k < |events| && q == p + k && log[q].event == events[k]
  {
    k := q - p;
    assert log[p + k] == Entry(i, events[k]);
  }

  lemma BlockIsUndisturbed<O>(b: string, log: seq<Entry<GatewayEvent<O>>>, i: nat, events: seq<ComEvent>, made: nat, q: nat)
    requires made <= |events| && HasBlock(log, i, Exchanges(events[..made])) && SentRightly(b, events)
    requires q < |log| && log[q].request == i && log[q].event.OfCancel? && log[q].event.event.CancelAnswered?
    ensures Undisturbed(b, log, i, events, made, q)
  {
    var p: nat :| OneBlock(log, i, p, Exchanges(events[..made]));
    var k := InBlock(log, i, p, Exchanges(events[..made]), q);
    assert events[k] == log[q].event.event;
  }
}
