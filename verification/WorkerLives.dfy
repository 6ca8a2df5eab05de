/**
 What becomes of each accepted socket, and that nobody is ever stuck: the events that a worker goes
 through with a socket, over every run, and the steps by which each thread can always go on.
 */
module WorkerLives {
  import opened Wrappers
  import opened ThreadPool
  import opened WorkerProtocol

  // ---------- The life of a socket ----------

  /** The worker owns the socket. */
  predicate Owns(w: Worker, x: Sock) {
    Of(Held, w, x) == 1
  }

  /** What the owner of `x` does in an action. */
  function Entry(s: State, a: Action, x: Sock): seq<Event> {
    if a.OfWorker? && a.id < |s.workers| && Owns(s.workers[a.id], x) then [a.event] else []
  }

  /** The events that workers went through with `x` in their hands, up to the `k`-th state. */
  function Diary(run: seq<State>, acts: seq<Action>, k: nat, x: Sock): seq<Event>
    requires |run| == |acts| + 1 && k < |run|
  {
    if k == 0 then [] else Diary(run, acts, k - 1, x) + Entry(run[k - 1], acts[k - 1], x)
  }

  /** A client that goes silent, or one for which SSL_new fails. */
  predicate IsFailedStart(d: seq<Event>) {
    d == [Serve, PeekFails] || d == [Serve, NewFails]
  }

  /** A cleartext client: one redirect, then the close. */
  predicate IsRedirect(d: seq<Event>) {
    d == [Serve, CleartextSeen, RedirectDone]
  }

  predicate IsFailedHandshake(d: seq<Event>) {
    d == [Serve, NewSession, ShakeFails, CloseSocket]
  }

  /** A TLS client: its session is served to the end, then the close. */
  predicate IsSession(d: seq<Event>) {
    d == [Serve, NewSession, ShakeOk, EndSession, CloseSocket]
  }

  /** The whole life of a socket with a worker. */
  predicate IsLife(d: seq<Event>) {
    IsFailedStart(d) || IsRedirect(d) || IsFailedHandshake(d) || IsSession(d)
  }

  /** What lies behind a worker with a socket. */
  predicate Past(w: Worker, d: seq<Event>) {
    match w
    case Popped(_) => d == []
    case Peeking(_) => d == [Serve]
    case Redirecting(_) => d == [Serve, CleartextSeen]
    case Shaking(_) => d == [Serve, NewSession]
    case InSession(_) => d == [Serve, NewSession, ShakeOk]
    case Closing(_) => d == [Serve, NewSession, ShakeFails] || d == [Serve, NewSession, ShakeOk, EndSession]
    case _ => false
  }

  lemma MoveDiary(w: Worker, e: Event, q: Queue, free: bool, m: Move, x: Sock, d: seq<Event>)
    requires MoveOf(w, e, q, free) == Some(m) && Owns(w, x) && Past(w, d)
    ensures Owns(m.next, x) ==> Past(m.next, d + [e]) && !m.effect.CloseSock? && !m.effect.DropSock?
    ensures !Owns(m.next, x) ==> (m.effect == CloseSock(x) && IsLife(d + [e]))
                                 || (m.effect == DropSock(x) && d + [e] == [SeeShutdown])
    ensures m.effect != TakeHead
  {
    assert [] + [e] == [e];
  }

  /** The diary of a socket fits the place where it is. */
  ghost predicate DiaryOk(s: State, d: seq<Event>, x: Sock) {
    && (forall i :: 0 <= i < |s.workers| && Owns(s.workers[i], x) ==> x in s.delivered && Past(s.workers[i], d))
    && (x !in s.delivered ==> d == [])
    && (x in s.delivered && s.closed[x] > 0 ==> IsLife(d))
    && (s.dropped[x] > 0 ==> d == [SeeShutdown])
  }

  lemma {:induction false} SumTwo(ws: seq<Worker>, i: nat, j: nat, x: Sock)
    requires i < j < |ws| && Owns(ws[i], x) && Owns(ws[j], x)
    ensures Sum(Held, ws, x) >= 2
  {
    if i == 0 {
      SumOne(ws[1..], j - 1, x);
    } else {
      SumTwo(ws[1..], i - 1, j - 1, x);
    }
  }

  lemma {:induction false} SumOne(ws: seq<Worker>, i: nat, x: Sock)
    requires i < |ws| && Owns(ws[i], x)
    ensures Sum(Held, ws, x) >= 1
  {
    if i > 0 {
      SumOne(ws[1..], i - 1, x);
    }
  }

  /** A socket in a worker's hands has no other owner, has been delivered, and is neither closed nor dropped. */
  lemma OwnedAlone(s: State, i: nat, x: Sock)
    requires Inv(s) && i < |s.workers| && Owns(s.workers[i], x)
    ensures forall j :: 0 <= j < |s.workers| && j != i ==> !Owns(s.workers[j], x)
    ensures x in s.accepted && s.closed[x] == 0 && s.dropped[x] == 0 && x !in s.queue.items
  {
    hide Of, Sum, MutexInv, ShutdownInv, WakeupInv, FifoInv;
    assert Ledger(s, x);
    SumOne(s.workers, i, x);
    forall j | 0 <= j < |s.workers| && j != i ensures !Owns(s.workers[j], x) {
      if Owns(s.workers[j], x) {
        SumTwo(s.workers, if i < j then i else j, if i < j then j else i, x);
      }
    }
  }

  /** A socket that waits in the queue, or with the acceptor, has not been delivered. */
  lemma NotDelivered(s: State, x: Sock)
    requires Inv(s) && (x in s.queue.items || OfAcceptor(s.acceptor, x) == 1)
    ensures x !in s.delivered && s.closed[x] == 0 && s.dropped[x] == 0
  {
    hide Of, Sum, MutexInv, ShutdownInv, WakeupInv;
    assert Ledger(s, x);
    assert Times(s.pushed, x) == Times(s.delivered, x) + Times(s.queue.items, x);
  }

  lemma WorkerDiaryStep(s: State, i: nat, e: Event, m: Move, x: Sock, d: seq<Event>)
    requires Inv(s) && DiaryOk(s, d, x) && i < |s.workers|
    requires MoveOf(s.workers[i], e, s.queue, s.mutex == Free) == Some(m)
    requires m.effect.TakeHead? ==> s.queue.items != []
    ensures DiaryOk(Apply(s, i, m), d + (if Owns(s.workers[i], x) then [e] else []), x)
  {
    hide MoveOf, Of, Inv, IsLife, Past;
    var t := Apply(s, i, m);
    var w := s.workers[i];
    if Owns(w, x) {
      OwnedAlone(s, i, x);
      MoveDiary(w, e, s.queue, s.mutex == Free, m, x, d);
    } else {
      assert d + [] == d;
      MoveOwner(w, e, s.queue, s.mutex == Free, m, x);
      if m.effect == TakeHead && s.queue.items[0] == x {
        NotDelivered(s, x);
      }
    }
  }

  /** A move of a worker that does not own the socket touches it only by popping it. */
  lemma MoveOwner(w: Worker, e: Event, q: Queue, free: bool, m: Move, x: Sock)
    requires MoveOf(w, e, q, free) == Some(m) && !Owns(w, x)
    ensures m.effect != CloseSock(x) && m.effect != DropSock(x)
    ensures Owns(m.next, x) ==> m.effect == TakeHead && q.items != [] && q.items[0] == x && Past(m.next, [])
  {
  }

  /** The acceptor and the shutdown thread touch no socket that a worker has had. */
  lemma OtherDiaryStep(s: State, a: Action, t: State, x: Sock, d: seq<Event>)
    requires Inv(s) && DiaryOk(s, d, x) && OtherStep(s, a) == Some(t)
    ensures DiaryOk(t, d, x)
  {
    hide Inv, IsLife, Past;
    OtherOwners(s, a, t, x);
    if OfAcceptor(s.acceptor, x) == 1 {
      NotDelivered(s, x);
    }
  }

  lemma OtherOwners(s: State, a: Action, t: State, x: Sock)
    requires OtherStep(s, a) == Some(t)
    ensures |t.workers| == |s.workers|
    ensures forall i :: 0 <= i < |s.workers| && Owns(t.workers[i], x) ==> t.workers[i] == s.workers[i]
    ensures t.delivered == s.delivered && t.dropped == s.dropped
    ensures OfAcceptor(s.acceptor, x) == 0 ==> t.closed[x] == s.closed[x]
  {
  }

  lemma {:induction false} EveryDiary(run: seq<State>, acts: seq<Action>, k: nat, x: Sock)
    requires Trace(run, acts) && k < |run|
    ensures DiaryOk(run[k], Diary(run, acts, k, x), x)
  {
    hide Inv, MoveOf, OtherStep, Past, IsLife, Owns, Apply;
    if k == 0 {
      NobodyOwns(run[0], x);
    } else {
      EveryDiary(run, acts, k - 1, x);
      TraceIsRun(run, acts);
      RunInv(run, k - 1);
      var s, a, d := run[k - 1], acts[k - 1], Diary(run, acts, k - 1, x);
      assert Step(s, a) == Some(run[k - 1 + 1]);
      if a.OfWorker? && a.id < |s.workers| {
        var m := MoveOf(s.workers[a.id], a.event, s.queue, s.mutex == Free).value;
        MovePlace(s.workers[a.id], a.event, s.queue, s.mutex == Free, m);
        WorkerDiaryStep(s, a.id, a.event, m, x, d);
      } else {
        OtherDiaryStep(s, a, run[k], x, d);
        assert d + [] == d;
      }
    }
  }

  lemma NobodyOwns(s: State, x: Sock)
    requires Initial(s)
    ensures DiaryOk(s, [], x)
  {
  }

  /**
   The whole life of a socket, over every run: when it is closed after its delivery, the worker found
   it silent, or failed to make a session, or redirected it exactly once, or failed the handshake, or
   served its session; when it is dropped, nothing but the look at the flag had happened to it; and a
   socket that is still with a worker is on its way through one of these.
   */
  lemma LifeOfSocket(run: seq<State>, acts: seq<Action>, k: nat, x: Sock)
    requires Trace(run, acts) && k < |run|
    ensures var s, d := run[k], Diary(run, acts, k, x);
            && (x in s.delivered && s.closed[x] == 1 ==> IsLife(d))
            && (s.dropped[x] == 1 ==> d == [SeeShutdown])
            && (x !in s.delivered ==> d == [])
            && (forall i :: 0 <= i < |s.workers| && Owns(s.workers[i], x) ==> Past(s.workers[i], d))
  {
    EveryDiary(run, acts, k, x);
  }

  // ---------- Going on ----------

  /** One thread's events, one after the other, with nothing between them. */
  function Perform(s: State, i: nat, es: seq<Event>): Option<State>
    requires i < |s.workers|
    decreases |es|
  {
    if es == [] then Some(s)
    else match Step(s, OfWorker(i, es[0]))
      case None => None
      case Some(t) => if |t.workers| == |s.workers| then Perform(t, i, es[1..]) else None
  }

  /** Where a worker with this much of a life behind it stands. */
  lemma PlaceInLife(w: Worker, d: seq<Event>, life: seq<Event>, x: Sock)
    requires Owns(w, x) && Past(w, d) && IsLife(life) && d < life
    ensures var e := life[|d|];
            match w
            case Popped(_) => e == Serve && |life| > 1
            case Peeking(_) =>
              || (|life| == 2 && (e == PeekFails || e == NewFails))
              || (|life| > 2 && (e == CleartextSeen || e == NewSession))
            case Redirecting(_) => e == RedirectDone && |life| == 3
            case Shaking(_) => |life| > 3 && (e == ShakeFails || e == ShakeOk)
            case InSession(_) => e == EndSession && |life| == 5
            case Closing(_) => e == CloseSocket && |life| == |d| + 1
            case _ => false
    ensures d + [life[|d|]] <= life
  {
    assert d + [life[|d|]] == life[..|d| + 1];
    if |d| > 1 {
      assert life[1] == d[1];
      assert |d| > 2 ==> life[2] == d[2];
    }
  }

  /** The next event of a life is always possible to the worker, and the last one closes the socket. */
  lemma NextEvent(w: Worker, d: seq<Event>, life: seq<Event>, q: Queue, free: bool, x: Sock) returns (m: Move)
    requires Owns(w, x) && Past(w, d) && IsLife(life) && d < life && (w.Popped? ==> !q.shutdown)
    ensures MoveOf(w, life[|d|], q, free) == Some(m) && m.lock == Keep && !m.effect.TakeHead? && !m.effect.DropSock?
    ensures if |d| + 1 == |life| then m.next == Ready && m.effect == CloseSock(x)
            else Owns(m.next, x) && Past(m.next, d + [life[|d|]]) && !m.next.Popped? && !m.effect.CloseSock?
    ensures d + [life[|d|]] <= life
  {
    hide IsLife;
    PlaceInLife(w, d, life, x);
    m := MoveOf(w, life[|d|], q, free).value;
  }

  /** What a move that only handles its own socket leaves alone. */
  lemma OwnMove(s: State, i: nat, m: Move, x: Sock)
    requires i < |s.workers| && m.lock == Keep && !m.effect.TakeHead? && !m.effect.DropSock?
    requires m.effect.CloseSock? ==> m.effect == CloseSock(x)
    ensures var t := Apply(s, i, m);
            && t.workers == s.workers[i := m.next] && t.queue == s.queue && t.mutex == s.mutex
            && t.dropped == s.dropped && t.stage == s.stage
            && t.closed == if m.effect.CloseSock? then s.closed + multiset{x} else s.closed
  {
  }

  /**
   Nobody is stuck with a socket: from any state, whichever life its owner is on, the owner can go on
   with it by itself, event by event, until the socket is closed and the worker is back at the queue.
   */
  lemma {:induction false} EveryLifeGoesOn(s: State, i: nat, x: Sock, d: seq<Event>, life: seq<Event>)
    returns (t: State)
    requires i < |s.workers| && Owns(s.workers[i], x) && Past(s.workers[i], d)
    requires IsLife(life) && d < life && (s.workers[i].Popped? ==> !s.queue.shutdown)
    ensures Perform(s, i, life[|d|..]) == Some(t)
    ensures t.workers == s.workers[i := Ready] && t.closed == s.closed + multiset{x}
    ensures t.queue == s.queue && t.mutex == s.mutex && t.dropped == s.dropped && t.stage == s.stage
    decreases |life| - |d|
  {
    hide MoveOf, IsLife, Past, Owns, Apply;
    var m := NextEvent(s.workers[i], d, life, s.queue, s.mutex == Free, x);
    OwnMove(s, i, m, x);
    var u := Apply(s, i, m);
    assert life[|d|..][1..] == life[|d| + 1..];
    if |d| + 1 == |life| {
      t := u;
    } else {
      t := EveryLifeGoesOn(u, i, x, d + [life[|d|]], life);
      assert s.workers[i := m.next][i := Ready] == s.workers[i := Ready];
    }
  }

  // ---------- The critical sections ----------

  function PerformAll(s: State, acts: seq<Action>): Option<State>
    decreases |acts|
  {
    if acts == [] then Some(s)
    else match Step(s, acts[0]) case None => None case Some(t) => PerformAll(t, acts[1..])
  }

  lemma OneAction(s: State, a: Action, t: State)
    requires Step(s, a) == Some(t)
    ensures PerformAll(s, [a]) == Some(t)
  {
    assert [a][1..] == [];
  }

  lemma ThenAction(s: State, a: Action, t: State, more: seq<Action>)
    requires Step(s, a) == Some(t)
    ensures PerformAll(s, [a] + more) == PerformAll(t, more)
  {
    assert ([a] + more)[1..] == more;
  }

  /** The shutdown thread, once it has the mutex, wakes everybody and gives it back. */
  lemma ShutdownFinishes(run: seq<State>, k: nat) returns (more: seq<Action>, t: State)
    requires Run(run) && k < |run| && (run[k].stage.Setting? || run[k].stage.Broadcasting? || run[k].stage.Unlocking?)
    ensures |more| <= 3 && forall a :: a in more ==> OfHolder(ByShutdown, a)
    ensures PerformAll(run[k], more) == Some(t)
    ensures t.stage.Done? && t.mutex == Free && t.queue.shutdown && Asleep !in t.workers
    ensures |t.workers| == |run[k].workers|
    ensures forall i :: 0 <= i < |t.workers| ==> t.workers[i] == run[k].workers[i] || t.workers[i] == Woken
  {
    RunInv(run, k);
    hide Inv, MoveOf, MutexInv, WakeupInv, FifoInv, Ledger;
    var s := run[k];
    assert ShutdownInv(s) by { InvParts(s); }
    t, more := s, [];
    if s.stage.Unlocking? {
      more := [ShutdownUnlock];
      t := Step(s, ShutdownUnlock).value;
      OneAction(s, ShutdownUnlock, t);
    } else {
      var u := if s.stage.Setting? then Step(s, SetFlag).value else s;
      var v := Step(u, Broadcast).value;
      t := Step(v, ShutdownUnlock).value;
      OneAction(v, ShutdownUnlock, t);
      ThenAction(u, Broadcast, v, [ShutdownUnlock]);
      more := [Broadcast] + [ShutdownUnlock];
      if s.stage.Setting? {
        ThenAction(s, SetFlag, u, more);
        more := [SetFlag] + more;
      }
    }
  }

  lemma InvParts(s: State)
    requires Inv(s)
    ensures MutexInv(s) && ShutdownInv(s) && WakeupInv(s) && FifoInv(s)
  {
  }

  /** The shutdown thread gets to its critical section as soon as the mutex is free. */
  lemma ShutdownBegins(s: State)
    requires s.stage.NotStarted? && s.mutex == Free
    ensures Step(s, ShutdownLock).Some? && Step(s, ShutdownLock).value.stage.Setting?
  {
  }

  /**
   The acceptor, with the mutex free, queues its socket behind the others, wakes one worker if any
   sleeps, and gives the mutex back; once the flag is set it closes the socket instead.
   */
  lemma AcceptorFinishes(s: State) returns (more: seq<Action>, t: State)
    requires s.acceptor.Accepted? && s.mutex == Free
    ensures PerformAll(s, more) == Some(t) && |more| <= 4 && t.acceptor == Idle && t.mutex == Free
    ensures s.queue.shutdown ==>
              t.queue == s.queue && t.workers == s.workers && t.closed == s.closed + multiset{s.acceptor.sock}
    ensures !s.queue.shutdown ==> t.queue.items == s.queue.items + [s.acceptor.sock] && t.closed == s.closed
    ensures !s.queue.shutdown ==>
              if Asleep in s.workers
              then exists i :: 0 <= i < |s.workers| && s.workers[i] == Asleep && t.workers == s.workers[i := Woken]
              else t.workers == s.workers
  {
    hide MoveOf;
    var u := Step(s, AcceptorLock).value;
    if s.queue.shutdown {
      t := Step(u, Refuse).value;
      more := [AcceptorLock] + [Refuse];
      OneAction(u, Refuse, t);
      ThenAction(s, AcceptorLock, u, [Refuse]);
    } else {
      var v := Step(u, Append).value;
      var signal := SignalNobody;
      if Asleep in s.workers {
        var i :| 0 <= i < |s.workers| && s.workers[i] == Asleep;
        signal := Signal(i);
      }
      var w := Step(v, signal).value;
      t := Step(w, AcceptorUnlock).value;
      OneAction(w, AcceptorUnlock, t);
      ThenAction(v, signal, w, [AcceptorUnlock]);
      ThenAction(u, Append, v, [signal] + [AcceptorUnlock]);
      ThenAction(s, AcceptorLock, u, [Append] + ([signal] + [AcceptorUnlock]));
      more := [AcceptorLock] + ([Append] + ([signal] + [AcceptorUnlock]));
    }
  }

  /** Without memory for the node the socket is closed at once, and any new connection can be accepted. */
  lemma AcceptorChoices(s: State, x: Sock)
    ensures s.acceptor.Accepted? ==>
              Step(s, AllocFails) == Some(s.(acceptor := Idle, closed := s.closed + multiset{s.acceptor.sock}))
    ensures s.acceptor == Idle && x !in s.accepted ==>
              Step(s, Accept(x)) == Some(s.(acceptor := Accepted(x), accepted := s.accepted + [x]))
  {
  }

  /** An action of the thread that holds the mutex. */
  predicate OfHolder(m: Mutex, a: Action) {
    match m
    case Free => false
    case ByWorker(i) => a.OfWorker? && a.id == i
    case ByAcceptor => a.Refuse? || a.Append? || a.SignalNobody? || a.Signal? || a.AcceptorUnlock?
    case ByShutdown => a.SetFlag? || a.Broadcast? || a.ShutdownUnlock?
  }

  /** No deadlock: whoever holds the mutex gives it back by at most three actions of its own. */
  lemma HolderReleases(run: seq<State>, k: nat) returns (more: seq<Action>, t: State)
    requires Run(run) && k < |run| && run[k].mutex != Free
    ensures PerformAll(run[k], more) == Some(t) && t.mutex == Free
    ensures |more| <= 3 && forall a :: a in more ==> OfHolder(run[k].mutex, a)
  {
    RunInv(run, k);
    InvParts(run[k]);
    hide Inv, ShutdownInv, WakeupInv, FifoInv, Ledger;
    var s := run[k];
    match s.mutex
    case ByWorker(i) => more, t := WorkerReleases(s, i);
    case ByAcceptor => more, t := AcceptorReleases(s);
    case ByShutdown => more, t := ShutdownFinishes(run, k);
  }

  lemma WorkerReleases(s: State, i: nat) returns (more: seq<Action>, t: State)
    requires i < |s.workers| && s.workers[i] == Checking
    ensures PerformAll(s, more) == Some(t) && t.mutex == Free && |more| == 1 && more[0].OfWorker? && more[0].id == i
  {
    var e := match s.queue.PopTest() case Wait => Sleep case Stop => Quit case Got(_) => Take;
    more := [OfWorker(i, e)];
    t := Step(s, more[0]).value;
    OneAction(s, more[0], t);
  }

  lemma AcceptorReleases(s: State) returns (more: seq<Action>, t: State)
    requires s.acceptor.Entering? || s.acceptor.Appended? || s.acceptor.Signalled?
    ensures PerformAll(s, more) == Some(t) && t.mutex == Free
    ensures |more| <= 3 && forall a :: a in more ==> OfHolder(ByAcceptor, a)
  {
    hide MoveOf;
    if s.acceptor.Entering? && s.queue.shutdown {
      t := Step(s, Refuse).value;
      more := [Refuse];
      OneAction(s, Refuse, t);
    } else {
      var v := if s.acceptor.Entering? then Step(s, Append).value else s;
      var signal := SignalNobody;
      if Asleep in v.workers {
        var i :| 0 <= i < |v.workers| && v.workers[i] == Asleep;
        signal := Signal(i);
      }
      var w := if v.acceptor.Appended? then Step(v, signal).value else v;
      t := Step(w, AcceptorUnlock).value;
      more := [AcceptorUnlock];
      OneAction(w, AcceptorUnlock, t);
      if v.acceptor.Appended? {
        ThenAction(v, signal, w, more);
        more := [signal] + more;
      }
      if s.acceptor.Entering? {
        ThenAction(s, Append, v, more);
        more := [Append] + more;
      }
    }
  }

  /** A sleeper may wake by itself at any time; it must then lock the mutex again. */
  lemma SpuriousWakeup(s: State, i: nat)
    requires i < |s.workers| && s.workers[i] == Asleep
    ensures Step(s, OfWorker(i, Wake)) == Some(s.(workers := s.workers[i := Woken]))
  {
  }
}
