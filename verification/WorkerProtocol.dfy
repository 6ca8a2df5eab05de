/**
 The thread pool as a state machine: one acceptor, any number of workers and one shutdown thread
 around a mutex and a condition variable.  A step is one action of one thread, so every
 interleaving is a run.  The queue changes by the critical sections of `ThreadPool.Queue`.
 */
module WorkerProtocol {
  import opened Wrappers
  import opened ThreadPool

  /** Where a worker stands in `lith_client_handler`. */
  datatype Worker =
    | Ready                      // about to lock the mutex in thread_pool_pop
    | Checking                   // holds the mutex and tests the wait-loop condition
    | Asleep                     // in pthread_cond_wait and not signalled
    | Woken                      // signalled, or woken spuriously: must lock the mutex again
    | Popped(sock: Sock)         // pop returned a socket; the shutdown flag is read next, without the mutex
    | Peeking(sock: Sock)        // sniffing the first byte
    | Redirecting(sock: Sock)    // answering cleartext
    | Shaking(sock: Sock)        // owns an SSL session, handshake under way
    | InSession(sock: Sock)      // owns an SSL session, serving requests
    | Closing(sock: Sock)        // SSL session freed, socket still open
    | Exited

  datatype Acceptor =
    | Idle
    | Accepted(sock: Sock)       // accept returned; the node is allocated next
    | Entering(sock: Sock)       // holds the mutex, reads the shutdown flag
    | Appended                   // holds the mutex, node linked, not signalled yet
    | Signalled                  // holds the mutex

  datatype Stage = NotStarted | Setting | Broadcasting | Unlocking | Done

  datatype Mutex = Free | ByWorker(id: nat) | ByAcceptor | ByShutdown

  datatype State = State(
    queue: Queue,
    mutex: Mutex,
    workers: seq<Worker>,
    acceptor: Acceptor,
    stage: Stage,
    // history
    accepted: seq<Sock>,
    pushed: seq<Sock>,
    delivered: seq<Sock>,
    closed: multiset<Sock>,
    dropped: multiset<Sock>,     // popped, then left behind by a worker that saw the shutdown flag
    created: multiset<Sock>,   // SSL_new calls
    freed: multiset<Sock>)       // SSL_free calls

  datatype Event =
    | Lock | Sleep | Quit | Take | Wake | SeeShutdown | Serve
    | PeekFails | CleartextSeen | RedirectDone | NewFails | NewSession | ShakeFails | ShakeOk | EndSession | CloseSocket

  datatype Action =
    | Accept(sock: Sock)
    | AllocFails
    | AcceptorLock
    | Refuse
    | Append
    | SignalNobody
    | Signal(id: nat)
    | AcceptorUnlock
    | ShutdownLock
    | SetFlag
    | Broadcast
    | ShutdownUnlock
    | OfWorker(id: nat, event: Event)

  function WakeAll(ws: seq<Worker>): (r: seq<Worker>)
    ensures |r| == |ws|
    ensures forall i :: 0 <= i < |ws| ==> r[i] == if ws[i] == Asleep then Woken else ws[i]
  {
    seq(|ws|, i requires 0 <= i < |ws| => if ws[i] == Asleep then Woken else ws[i])
  }

  datatype LockMove = Keep | Acquire | Release

  /** The socket or SSL session that changes hands in an event. */
  datatype Effect =
    | Nothing | TakeHead | CloseSock(sock: Sock) | DropSock(sock: Sock) | NewSsl(sock: Sock) | FreeSsl(sock: Sock)

  /** What an event does: the worker's next place, the mutex, and the effect. */
  datatype Move = Move(next: Worker, lock: LockMove, effect: Effect)

  function Goto(next: Worker): Move {
    Move(next, Keep, Nothing)
  }

  /** lith_close_socket, then back to the top of the worker's loop. */
  function Close(sock: Sock): Move {
    Move(Ready, Keep, CloseSock(sock))
  }

  /** What worker `w` does on event `e`, or None when the event cannot happen to it. */
  function MoveOf(w: Worker, e: Event, q: Queue, free: bool): Option<Move> {
    match e
    case Lock => if (w == Ready || w == Woken) && free then Some(Move(Checking, Acquire, Nothing)) else None
    case Sleep => if w == Checking && q.PopTest() == Wait then Some(Move(Asleep, Release, Nothing)) else None
    case Quit => if w == Checking && q.PopTest() == Stop then Some(Move(Exited, Release, Nothing)) else None
    case Take =>
      if w == Checking && q.PopTest().Got? then Some(Move(Popped(q.PopTest().sock), Release, TakeHead)) else None
    case Wake => if w == Asleep then Some(Goto(Woken)) else None
    case SeeShutdown =>
      if w.Popped? && q.shutdown then Some(Move(Exited, Keep, DropSock(w.sock))) else None
    case Serve => if w.Popped? && !q.shutdown then Some(Goto(Peeking(w.sock))) else None
    case PeekFails => if w.Peeking? then Some(Close(w.sock)) else None
    case CleartextSeen => if w.Peeking? then Some(Goto(Redirecting(w.sock))) else None
    case RedirectDone => if w.Redirecting? then Some(Close(w.sock)) else None
    case NewFails => if w.Peeking? then Some(Close(w.sock)) else None
    case NewSession => if w.Peeking? then Some(Move(Shaking(w.sock), Keep, NewSsl(w.sock))) else None
    case ShakeFails => if w.Shaking? then Some(Move(Closing(w.sock), Keep, FreeSsl(w.sock))) else None
    case ShakeOk => if w.Shaking? then Some(Goto(InSession(w.sock))) else None
    case EndSession => if w.InSession? then Some(Move(Closing(w.sock), Keep, FreeSsl(w.sock))) else None
    case CloseSocket => if w.Closing? then Some(Close(w.sock)) else None
  }

  function Apply(s: State, i: nat, m: Move): State
    requires i < |s.workers|
    requires m.effect.TakeHead? ==> s.queue.items != []
  {
    var moved := s.(workers := s.workers[i := m.next],
                    mutex := match m.lock case Keep => s.mutex case Acquire => ByWorker(i) case Release => Free);
    match m.effect
    case Nothing => moved
    case TakeHead => moved.(queue := s.queue.Pop(), delivered := s.delivered + [s.queue.items[0]])
    case CloseSock(x) => moved.(closed := s.closed + multiset{x})
    case DropSock(x) => moved.(dropped := s.dropped + multiset{x})
    case NewSsl(x) => moved.(created := s.created + multiset{x})
    case FreeSsl(x) => moved.(freed := s.freed + multiset{x})
  }

  function WorkerStep(s: State, i: nat, e: Event): Option<State>
    requires i < |s.workers|
  {
    match MoveOf(s.workers[i], e, s.queue, s.mutex == Free)
    case Some(m) => Some(Apply(s, i, m))
    case None => None
  }

  /** The acceptor has linked its node and not signalled yet. */
  function Linked(s: State, sock: Sock): State {
    s.(acceptor := Appended, queue := s.queue.Push(sock), pushed := s.pushed + [sock])
  }

  /** The actions of the acceptor and of the shutdown thread. */
  function OtherStep(s: State, a: Action): Option<State> {
    match a
    case Accept(sock) =>
      if s.acceptor == Idle && sock !in s.accepted
      then Some(s.(acceptor := Accepted(sock), accepted := s.accepted + [sock])) else None
    case AllocFails =>
      if s.acceptor.Accepted?
      then Some(s.(acceptor := Idle, closed := s.closed + multiset{s.acceptor.sock})) else None
    case AcceptorLock =>
      if s.acceptor.Accepted? && s.mutex == Free
      then Some(s.(acceptor := Entering(s.acceptor.sock), mutex := ByAcceptor)) else None
    case Refuse =>
      if s.acceptor.Entering? && s.queue.shutdown
      then Some(s.(acceptor := Idle, mutex := Free, closed := s.closed + multiset{s.acceptor.sock})) else None
    case Append =>
      if s.acceptor.Entering? && !s.queue.shutdown
      then Some(Linked(s, s.acceptor.sock)) else None
    case SignalNobody =>
      if s.acceptor == Appended && Asleep !in s.workers then Some(s.(acceptor := Signalled)) else None
    case Signal(i) =>
      // Waking more than one worker is this step followed by Wake steps.
      if s.acceptor == Appended && i < |s.workers| && s.workers[i] == Asleep
      then Some(s.(acceptor := Signalled, workers := s.workers[i := Woken])) else None
    case AcceptorUnlock =>
      if s.acceptor == Signalled then Some(s.(acceptor := Idle, mutex := Free)) else None
    case ShutdownLock =>
      if s.stage == NotStarted && s.mutex == Free then Some(s.(stage := Setting, mutex := ByShutdown)) else None
    case SetFlag =>
      if s.stage == Setting then Some(s.(stage := Broadcasting, queue := s.queue.(shutdown := true))) else None
    case Broadcast =>
      if s.stage == Broadcasting then Some(s.(stage := Unlocking, workers := WakeAll(s.workers))) else None
    case ShutdownUnlock =>
      if s.stage == Unlocking then Some(s.(stage := Done, mutex := Free)) else None
    case OfWorker(_, _) => None
  }

  function Step(s: State, a: Action): Option<State> {
    if a.OfWorker? && a.id < |s.workers| then WorkerStep(s, a.id, a.event) else OtherStep(s, a)
  }

  ghost predicate Next(s: State, t: State) {
    exists a :: Step(s, a) == Some(t)
  }

  predicate Initial(s: State) {
    && s.queue == Queue([], false) && s.mutex == Free && s.acceptor == Idle && s.stage == NotStarted
    && (forall i :: 0 <= i < |s.workers| ==> s.workers[i] == Ready)
    && s.accepted == s.pushed == s.delivered == []
    && s.closed == s.dropped == s.created == s.freed == multiset{}
  }

  ghost predicate Run(run: seq<State>) {
    && run != [] && Initial(run[0])
    && forall k :: 0 <= k < |run| - 1 ==> Next(run[k], run[k + 1])
  }

  // ---------- What the workers hold ----------

  datatype Holding =
    | Held     // the socket a worker owns
    | Live     // the SSL session a worker owns, named by its socket
    | PastNew  // the socket of a worker that is past SSL_new

  /** How many times (0 or 1) worker `w` holds `x`. */
  function Of(h: Holding, w: Worker, x: Sock): nat {
    match w
    case Popped(s) => if h == Held && s == x then 1 else 0
    case Peeking(s) => if h == Held && s == x then 1 else 0
    case Redirecting(s) => if h == Held && s == x then 1 else 0
    case Shaking(s) => if s == x then 1 else 0
    case InSession(s) => if s == x then 1 else 0
    case Closing(s) => if h != Live && s == x then 1 else 0
    case _ => 0
  }

  function OfAcceptor(a: Acceptor, x: Sock): nat {
    if (a.Accepted? || a.Entering?) && a.sock == x then 1 else 0
  }

  /** How many of the workers hold `x`. */
  function Sum(h: Holding, ws: seq<Worker>, x: Sock): nat {
    if ws == [] then 0 else Of(h, ws[0], x) + Sum(h, ws[1..], x)
  }

  lemma {:induction false} SumUpdate(h: Holding, ws: seq<Worker>, i: nat, w: Worker, x: Sock)
    requires i < |ws|
    ensures Sum(h, ws[i := w], x) == Sum(h, ws, x) - Of(h, ws[i], x) + Of(h, w, x)
  {
    var vs := ws[i := w];
    if i == 0 {
      assert vs[1..] == ws[1..];
    } else {
      assert vs[1..] == ws[1..][i - 1 := w];
      SumUpdate(h, ws[1..], i - 1, w, x);
    }
  }

  /** Waking workers changes nobody's holdings. */
  lemma {:induction false} SumWake(h: Holding, ws: seq<Worker>, vs: seq<Worker>, x: Sock)
    requires |ws| == |vs|
    requires forall i :: 0 <= i < |ws| ==> vs[i] == ws[i] || (ws[i] == Asleep && vs[i] == Woken)
    ensures Sum(h, vs, x) == Sum(h, ws, x)
  {
    if ws != [] {
      SumWake(h, ws[1..], vs[1..], x);
    }
  }

  lemma {:induction false} SumEmpty(h: Holding, ws: seq<Worker>, x: Sock)
    requires forall i :: 0 <= i < |ws| ==> Of(h, ws[i], x) == 0
    ensures Sum(h, ws, x) == 0
  {
    if ws != [] {
      SumEmpty(h, ws[1..], x);
    }
  }

  lemma {:induction false} SumBound(h: Holding, ws: seq<Worker>, x: Sock)
    ensures Sum(h, ws, x) <= Sum(Held, ws, x)
  {
    if ws != [] {
      SumBound(h, ws[1..], x);
    }
  }

  // ---------- The invariant ----------

  /** The mutex has one holder, and only its holder is inside a critical section. */
  ghost predicate MutexInv(s: State) {
    && (forall i :: 0 <= i < |s.workers| ==> (s.workers[i] == Checking <==> s.mutex == ByWorker(i)))
    && (s.mutex.ByWorker? ==> s.mutex.id < |s.workers|)
    && (s.mutex == ByAcceptor <==> s.acceptor.Entering? || s.acceptor.Appended? || s.acceptor.Signalled?)
    && (s.mutex == ByShutdown <==> s.stage.Setting? || s.stage.Broadcasting? || s.stage.Unlocking?)
  }

  /** The flag is set by the shutdown thread only, workers leave only after it, and nobody sleeps past the broadcast. */
  ghost predicate ShutdownInv(s: State) {
    && (s.queue.shutdown <==> s.stage.Broadcasting? || s.stage.Unlocking? || s.stage.Done?)
    && (!s.queue.shutdown ==> forall i :: 0 <= i < |s.workers| ==> s.workers[i] != Exited)
    && (!s.queue.shutdown ==> s.dropped == multiset{})
    && (s.stage.Unlocking? || s.stage.Done? ==> forall i :: 0 <= i < |s.workers| ==> s.workers[i] != Asleep)
  }

  function Count(ws: seq<Worker>, w: Worker): nat {
    multiset(ws)[w]
  }

  /** Those who will test the queue again without waiting for another signal. */
  function Pending(s: State): nat {
    Count(s.workers, Woken) + (if s.mutex.ByWorker? then 1 else 0) + (if s.acceptor == Appended then 1 else 0)
  }

  ghost predicate WakeupInv(s: State) {
    !s.queue.shutdown && Count(s.workers, Asleep) > 0 ==> |s.queue.items| <= Pending(s)
  }

  function Times(q: seq<Sock>, x: Sock): nat {
    multiset(q)[x]
  }

  /** How many times a socket is in one of the places it can be. */
  function Places(s: State, x: Sock): nat {
    Times(s.queue.items, x) + Sum(Held, s.workers, x) + OfAcceptor(s.acceptor, x) + s.closed[x] + s.dropped[x]
  }

  /** The ledger of one socket: where it is, how often it was queued, and its SSL session. */
  predicate Ledger(s: State, x: Sock) {
    && Times(s.accepted, x) == Places(s, x)
    && Times(s.pushed, x) + OfAcceptor(s.acceptor, x) <= Times(s.accepted, x)
    && s.created[x] == s.freed[x] + Sum(Live, s.workers, x)
    && s.created[x] <= Sum(PastNew, s.workers, x) + s.closed[x]
    && Times(s.accepted, x) <= 1
  }

  ghost predicate FifoInv(s: State) {
    s.pushed == s.delivered + s.queue.items
  }

  ghost predicate Inv(s: State) {
    MutexInv(s) && ShutdownInv(s) && WakeupInv(s) && FifoInv(s) && forall x :: Ledger(s, x)
  }

  lemma InitialInv(s: State)
    requires Initial(s)
    ensures Inv(s)
  {
    forall x ensures Ledger(s, x) {
      SumEmpty(Held, s.workers, x);
      SumEmpty(Live, s.workers, x);
      SumEmpty(PastNew, s.workers, x);
    }
  }

  /** The move keeps the balance of sockets and of SSL sessions. */
  ghost predicate Balanced(w: Worker, q: Queue, m: Move, x: Sock) {
    && (m.effect.TakeHead? ==> q.items != [] && !q.shutdown)
    && Of(Held, m.next, x) == Of(Held, w, x)
                              + (if m.effect.TakeHead? && q.items[0] == x then 1 else 0)
                              - (if m.effect == CloseSock(x) || m.effect == DropSock(x) then 1 else 0)
    && Of(Live, m.next, x) == Of(Live, w, x)
                              + (if m.effect == NewSsl(x) then 1 else 0) - (if m.effect == FreeSsl(x) then 1 else 0)
    && Of(PastNew, m.next, x) + (if m.effect == CloseSock(x) then 1 else 0)
       >= Of(PastNew, w, x) + (if m.effect == NewSsl(x) then 1 else 0)
  }

  lemma MoveBalance(w: Worker, e: Event, q: Queue, free: bool, m: Move, x: Sock)
    requires MoveOf(w, e, q, free) == Some(m)
    ensures Balanced(w, q, m, x)
  {
  }

  /** How an event bears on the mutex and on who sleeps. */
  lemma MovePlace(w: Worker, e: Event, q: Queue, free: bool, m: Move)
    requires MoveOf(w, e, q, free) == Some(m)
    ensures m.lock == Acquire <==> m.next == Checking
    ensures m.lock == Release <==> w == Checking
    ensures m.lock == Acquire ==> free
    ensures m.next == Exited || m.effect.DropSock? ==> q.shutdown
    ensures m.next == Asleep ==> q.items == [] && !q.shutdown && w == Checking
    ensures w == Woken ==> m.lock == Acquire
    ensures w == Asleep ==> m.next == Woken
    ensures w == Checking && m.next != Asleep && !q.shutdown ==> m.effect.TakeHead?
    ensures m.effect.TakeHead? ==> w == Checking && q.items != [] && !q.shutdown
    ensures m.next == Woken ==> w == Asleep
  {
  }

  lemma WorkerMutexStep(s: State, i: nat, e: Event, m: Move)
    requires MutexInv(s)
    requires i < |s.workers| && MoveOf(s.workers[i], e, s.queue, s.mutex == Free) == Some(m)
    ensures MutexInv(Apply(s, i, m))
  {
    hide MoveOf, Apply;
    MovePlace(s.workers[i], e, s.queue, s.mutex == Free, m);
    ApplyPlace(s, i, m);
  }

  lemma WorkerShutdownStep(s: State, i: nat, e: Event, m: Move)
    requires ShutdownInv(s)
    requires i < |s.workers| && MoveOf(s.workers[i], e, s.queue, s.mutex == Free) == Some(m)
    ensures ShutdownInv(Apply(s, i, m))
  {
    hide MoveOf, Apply;
    MovePlace(s.workers[i], e, s.queue, s.mutex == Free, m);
    ApplyPlace(s, i, m);
  }

  /** What a move does to the parts of the state that the mutex and the flag concern. */
  lemma ApplyPlace(s: State, i: nat, m: Move)
    requires i < |s.workers| && (m.effect.TakeHead? ==> s.queue.items != [])
    ensures var t := Apply(s, i, m);
            && t.workers == s.workers[i := m.next] && t.acceptor == s.acceptor && t.stage == s.stage
            && t.queue.shutdown == s.queue.shutdown
            && t.mutex == (match m.lock case Keep => s.mutex case Acquire => ByWorker(i) case Release => Free)
            && (!m.effect.DropSock? ==> t.dropped == s.dropped)
  {
  }

  lemma MutexStep(s: State, a: Action, t: State)
    requires MutexInv(s) && ShutdownInv(s) && Step(s, a) == Some(t)
    ensures MutexInv(t) && ShutdownInv(t)
  {
    hide MoveOf;
    if a.OfWorker? {
      var m := MoveOf(s.workers[a.id], a.event, s.queue, s.mutex == Free).value;
      WorkerMutexStep(s, a.id, a.event, m);
      WorkerShutdownStep(s, a.id, a.event, m);
    }
  }

  lemma CountUpdate(ws: seq<Worker>, i: nat, w: Worker, x: Worker)
    requires i < |ws|
    ensures Count(ws[i := w], x) == Count(ws, x) - (if ws[i] == x then 1 else 0) + (if w == x then 1 else 0)
  {
  }

  lemma WorkerWakeupStep(s: State, i: nat, e: Event, m: Move)
    requires MutexInv(s) && WakeupInv(s)
    requires i < |s.workers| && MoveOf(s.workers[i], e, s.queue, s.mutex == Free) == Some(m)
    ensures WakeupInv(Apply(s, i, m))
  {
    hide MoveOf, Count, MutexInv;
    MovePlace(s.workers[i], e, s.queue, s.mutex == Free, m);
    CountUpdate(s.workers, i, m.next, Asleep);
    CountUpdate(s.workers, i, m.next, Woken);
  }

  lemma WakeupStep(s: State, a: Action, t: State)
    requires MutexInv(s) && ShutdownInv(s) && WakeupInv(s) && Step(s, a) == Some(t)
    ensures WakeupInv(t)
  {
    hide MoveOf;
    if a.OfWorker? {
      WorkerWakeupStep(s, a.id, a.event, MoveOf(s.workers[a.id], a.event, s.queue, s.mutex == Free).value);
    } else if a.Signal? {
      CountUpdate(s.workers, a.id, Woken, Asleep);
      CountUpdate(s.workers, a.id, Woken, Woken);
    }
  }

  lemma TimesAppend(q: seq<Sock>, y: Sock, x: Sock)
    ensures Times(q + [y], x) == Times(q, x) + (if x == y then 1 else 0)
  {
  }

  lemma TimesTail(q: seq<Sock>, x: Sock)
    requires q != []
    ensures Times(q[1..], x) == Times(q, x) - (if x == q[0] then 1 else 0)
  {
    assert q == [q[0]] + q[1..];
  }

  lemma ApplyLedger(s: State, i: nat, m: Move, x: Sock)
    requires i < |s.workers| && Balanced(s.workers[i], s.queue, m, x)
    requires Ledger(s, x)
    ensures Ledger(Apply(s, i, m), x)
  {
    hide Of, Sum, Times;
    SumUpdate(Held, s.workers, i, m.next, x);
    SumUpdate(Live, s.workers, i, m.next, x);
    SumUpdate(PastNew, s.workers, i, m.next, x);
    if m.effect.TakeHead? {
      TimesTail(s.queue.items, x);
    }
  }

  lemma WakeLedger(s: State, t: State, x: Sock)
    requires Ledger(s, x) && t == s.(workers := t.workers, acceptor := t.acceptor, stage := t.stage)
    requires OfAcceptor(t.acceptor, x) == OfAcceptor(s.acceptor, x) && |t.workers| == |s.workers|
    requires forall i :: 0 <= i < |s.workers| ==>
                           t.workers[i] == s.workers[i] || (s.workers[i] == Asleep && t.workers[i] == Woken)
    ensures Ledger(t, x)
  {
    hide Of, Sum, Times;
    SumWake(Held, s.workers, t.workers, x);
    SumWake(Live, s.workers, t.workers, x);
    SumWake(PastNew, s.workers, t.workers, x);
  }

  lemma AcceptLedger(s: State, sock: Sock, x: Sock)
    requires Ledger(s, x) && s.acceptor == Idle && sock !in s.accepted
    ensures Ledger(s.(acceptor := Accepted(sock), accepted := s.accepted + [sock]), x)
  {
    hide Sum;
    TimesAppend(s.accepted, sock, x);
  }

  lemma AppendLedger(s: State, x: Sock)
    requires Ledger(s, x) && s.acceptor.Entering? && !s.queue.shutdown
    ensures Ledger(Linked(s, s.acceptor.sock), x)
  {
    hide Sum, Times;
    TimesAppend(s.queue.items, s.acceptor.sock, x);
    TimesAppend(s.pushed, s.acceptor.sock, x);
  }

  lemma OtherLedgerStep(s: State, a: Action, t: State, x: Sock)
    requires Ledger(s, x) && OtherStep(s, a) == Some(t)
    ensures Ledger(t, x)
  {
    hide Sum, Times;
    match a
    case Signal(i) => WakeLedger(s, t, x);
    case Broadcast => WakeLedger(s, t, x);
    case Accept(y) => AcceptLedger(s, y, x);
    case Append => AppendLedger(s, x);
    case _ =>
  }

  lemma LedgerStep(s: State, a: Action, t: State, x: Sock)
    requires Ledger(s, x) && Step(s, a) == Some(t)
    ensures Ledger(t, x)
  {
    hide MoveOf, Balanced, Ledger;
    if a.OfWorker? {
      var m := MoveOf(s.workers[a.id], a.event, s.queue, s.mutex == Free).value;
      MoveBalance(s.workers[a.id], a.event, s.queue, s.mutex == Free, m, x);
      ApplyLedger(s, a.id, m, x);
    } else {
      OtherLedgerStep(s, a, t, x);
    }
  }

  lemma FifoStep(s: State, a: Action, t: State)
    requires FifoInv(s) && Step(s, a) == Some(t)
    ensures FifoInv(t)
  {
    hide MoveOf;
    if a.OfWorker? {
      var m := MoveOf(s.workers[a.id], a.event, s.queue, s.mutex == Free).value;
      MovePlace(s.workers[a.id], a.event, s.queue, s.mutex == Free, m);
    }
  }

  lemma InvStep(s: State, t: State)
    requires Inv(s) && Next(s, t)
    ensures Inv(t)
  {
    var a :| Step(s, a) == Some(t);
    MutexStep(s, a, t);
    WakeupStep(s, a, t);
    FifoStep(s, a, t);
    forall x ensures Ledger(t, x) {
      LedgerStep(s, a, t, x);
    }
  }

  lemma {:induction false} RunInv(run: seq<State>, k: nat)
    requires Run(run) && k < |run|
    ensures Inv(run[k])
  {
    if k == 0 {
      InitialInv(run[0]);
    } else {
      RunInv(run, k - 1);
      assert Next(run[k - 1], run[k - 1 + 1]);
      InvStep(run[k - 1], run[k]);
    }
  }

  // ---------- The theorems ----------

  /**
   No lost wakeup: in every reachable state before shutdown, while nobody is inside a critical
   section and somebody sleeps, there is a woken worker for every queued socket.
   */
  lemma NoLostWakeup(run: seq<State>, k: nat)
    requires Run(run) && k < |run|
    requires !run[k].queue.shutdown && run[k].mutex == Free && Asleep in run[k].workers
    ensures |run[k].queue.items| <= Count(run[k].workers, Woken)
  {
    RunInv(run, k);
  }

  /** A non-empty queue never coexists with a pool whose workers are all asleep. */
  lemma NeverAllAsleep(run: seq<State>, k: nat)
    requires Run(run) && k < |run|
    requires !run[k].queue.shutdown && run[k].workers != [] && run[k].queue.items != [] && run[k].mutex == Free
    ensures exists i :: 0 <= i < |run[k].workers| && run[k].workers[i] != Asleep && run[k].workers[i] != Exited
  {
    RunInv(run, k);
    var ws := run[k].workers;
    if ws[0] == Asleep {
      assert Asleep in ws;
      assert Woken in multiset(ws);
      var i :| 0 <= i < |ws| && ws[i] == Woken;
    } else {
      assert ws[0] in ws;
    }
  }

  /** While a worker sleeps, the oldest queued socket is two steps of a woken worker away from delivery. */
  lemma WokenWorkerDelivers(run: seq<State>, k: nat) returns (i: nat, mid: State, end: State)
    requires Run(run) && k < |run|
    requires !run[k].queue.shutdown && run[k].mutex == Free && Asleep in run[k].workers && run[k].queue.items != []
    ensures i < |run[k].workers| && run[k].workers[i] == Woken
    ensures Step(run[k], OfWorker(i, Lock)) == Some(mid) && Step(mid, OfWorker(i, Take)) == Some(end)
    ensures end.workers[i] == Popped(run[k].queue.items[0])
  {
    RunInv(run, k);
    var s := run[k];
    assert Woken in multiset(s.workers);
    i :| 0 <= i < |s.workers| && s.workers[i] == Woken;
    mid := Step(s, OfWorker(i, Lock)).value;
    end := Step(mid, OfWorker(i, Take)).value;
  }

  /** Over every run the queued sockets leave in the order they came. */
  lemma Fifo(run: seq<State>, k: nat)
    requires Run(run) && k < |run|
    ensures run[k].pushed == run[k].delivered + run[k].queue.items
  {
    RunInv(run, k);
  }

  /**
   Conservation: at every moment of every run an accepted socket is in exactly one place: queued,
   owned by one thread, closed once, or dropped by a worker that saw the shutdown flag; and before
   the flag is set none is dropped.
   */
  lemma ExactlyOnePlace(run: seq<State>, k: nat, x: Sock)
    requires Run(run) && k < |run|
    ensures Places(run[k], x) == if x in run[k].accepted then 1 else 0
    ensures run[k].closed[x] <= 1
    ensures !run[k].queue.shutdown ==> run[k].dropped[x] == 0
  {
    RunInv(run, k);
    assert Ledger(run[k], x);
  }

  /** No socket is delivered to two pops. */
  lemma DeliveredOnce(run: seq<State>, k: nat, i: nat, j: nat)
    requires Run(run) && k < |run|
    requires i < j < |run[k].delivered|
    ensures run[k].delivered[i] != run[k].delivered[j]
  {
    RunInv(run, k);
    var s := run[k];
    var x := s.delivered[i];
    assert Ledger(s, x);
    var p, y, q := s.pushed[..j], s.pushed[j], s.pushed[j + 1..];
    assert s.pushed == p + [y] + q;
    assert p[i] == x && x in p;
    assert Times(s.pushed, x) == Times(p, x) + Times([y], x) + Times(q, x);
  }

  /** An SSL session is allocated at most once for a socket, and freed exactly as often once the socket is closed. */
  lemma SslFreedOnce(run: seq<State>, k: nat, x: Sock)
    requires Run(run) && k < |run|
    ensures run[k].freed[x] <= run[k].created[x] <= 1
    ensures run[k].closed[x] == 1 ==> run[k].freed[x] == run[k].created[x]
    ensures run[k].dropped[x] == 1 ==> run[k].created[x] == 0
  {
    RunInv(run, k);
    assert Ledger(run[k], x);
    SumBound(Live, run[k].workers, x);
    SumBound(PastNew, run[k].workers, x);
  }

  // ---------- Shutdown ----------

  /** A run together with the actions that made it. */
  ghost predicate Trace(run: seq<State>, acts: seq<Action>) {
    && |run| == |acts| + 1 && Initial(run[0])
    && forall k :: 0 <= k < |acts| ==> Step(run[k], acts[k]) == Some(run[k + 1])
  }

  lemma TraceIsRun(run: seq<State>, acts: seq<Action>)
    requires Trace(run, acts)
    ensures Run(run)
  {
    hide Step, Initial;
    forall k | 0 <= k < |run| - 1 ensures Next(run[k], run[k + 1]) {
      assert Step(run[k], acts[k]) == Some(run[k + 1]);
    }
  }

  /** A worker that has just popped the socket reads the shutdown flag. */
  predicate Drops(s: State, a: Action, x: Sock) {
    a.OfWorker? && a.event.SeeShutdown? && a.id < |s.workers| && s.workers[a.id] == Popped(x)
  }

  lemma DropStep(s: State, a: Action, t: State, x: Sock)
    requires Step(s, a) == Some(t)
    ensures t.dropped[x] == s.dropped[x] + (if Drops(s, a, x) then 1 else 0)
  {
  }

  /**
   When a socket is dropped: exactly when some step of the run is a worker reading the shutdown flag
   as set with the socket just popped in its hands.
   */
  lemma {:induction false} DroppedIff(run: seq<State>, acts: seq<Action>, k: nat, x: Sock)
    requires Trace(run, acts) && k < |run|
    ensures run[k].dropped[x] <= 1
    ensures run[k].dropped[x] == 1 <==> exists j :: 0 <= j < k && Drops(run[j], acts[j], x)
  {
    hide Step, Drops;
    TraceIsRun(run, acts);
    ExactlyOnePlace(run, k, x);
    if k > 0 {
      DroppedIff(run, acts, k - 1, x);
      DropStep(run[k - 1], acts[k - 1], run[k], x);
    }
  }

  /** The socket is just popped or dropped. */
  ghost predicate Doomed(s: State, x: Sock) {
    Popped(x) in s.workers || s.dropped[x] > 0
  }

  /** Once the flag is set, a popped socket can only be dropped, and no other socket is popped. */
  lemma DoomStep(s: State, a: Action, t: State, x: Sock)
    requires s.queue.shutdown && Step(s, a) == Some(t)
    ensures t.queue.shutdown && (Doomed(t, x) <==> Doomed(s, x))
  {
    hide MoveOf;
    DropStep(s, a, t, x);
    if a.OfWorker? {
      var m := MoveOf(s.workers[a.id], a.event, s.queue, s.mutex == Free).value;
      DoomMove(s.workers[a.id], a.event, s.queue, s.mutex == Free, m, x);
      DoomWorkers(s, a, m, x);
    } else {
      assert |t.workers| == |s.workers|;
      assert forall i :: 0 <= i < |s.workers| ==> (t.workers[i] == Popped(x) <==> s.workers[i] == Popped(x));
    }
  }

  lemma DoomMove(w: Worker, e: Event, q: Queue, free: bool, m: Move, x: Sock)
    requires q.shutdown && MoveOf(w, e, q, free) == Some(m)
    ensures m.next == Popped(x) ==> w == Popped(x)
    ensures w == Popped(x) ==> e == SeeShutdown
  {
  }

  lemma DoomWorkers(s: State, a: Action, m: Move, x: Sock)
    requires a.OfWorker? && a.id < |s.workers|
    requires m.next == Popped(x) ==> s.workers[a.id] == Popped(x)
    requires s.workers[a.id] == Popped(x) ==> Drops(s, a, x)
    ensures var ws := s.workers[a.id := m.next];
            && (Popped(x) in ws ==> Popped(x) in s.workers)
            && (Popped(x) in s.workers && !Drops(s, a, x) ==> Popped(x) in ws)
  {
    var ws := s.workers[a.id := m.next];
    if Popped(x) in s.workers && !Drops(s, a, x) {
      var i :| 0 <= i < |s.workers| && s.workers[i] == Popped(x);
      assert ws[i] == Popped(x);
    }
  }

  /** The flag, once set, keeps the doomed sockets as they are. */
  lemma {:induction false} DoomedSince(run: seq<State>, acts: seq<Action>, j: nat, k: nat, x: Sock)
    requires Trace(run, acts) && j < k < |run| && acts[j] == SetFlag
    ensures run[k].queue.shutdown && (Doomed(run[k], x) <==> Popped(x) in run[j].workers)
    decreases k
  {
    hide Doomed;
    if k == j + 1 {
      TraceIsRun(run, acts);
      RunInv(run, j);
      FlagStep(run[j], run[k], x);
    } else {
      hide Step;
      DoomedSince(run, acts, j, k - 1, x);
      DoomStep(run[k - 1], acts[k - 1], run[k], x);
    }
  }

  lemma FlagStep(s: State, t: State, x: Sock)
    requires ShutdownInv(s) && Step(s, SetFlag) == Some(t)
    ensures t.queue.shutdown && (Doomed(t, x) <==> Popped(x) in s.workers)
  {
  }

  /**
   Which sockets are dropped is decided at the instant the flag is set: a socket is dropped, or still
   about to be, exactly when some worker had just popped it then and had not yet looked at the flag.
   */
  lemma FlagDecides(run: seq<State>, acts: seq<Action>, j: nat, k: nat, x: Sock)
    requires Trace(run, acts) && j < k < |run| && acts[j] == SetFlag
    ensures run[k].dropped[x] == 1 || Popped(x) in run[k].workers <==> Popped(x) in run[j].workers
  {
    hide Step;
    TraceIsRun(run, acts);
    ExactlyOnePlace(run, k, x);
    DoomedSince(run, acts, j, k, x);
  }

  /** One more action at the end of a run. */
  lemma Longer(run: seq<State>, acts: seq<Action>, a: Action, t: State) returns (run': seq<State>, acts': seq<Action>)
    requires Trace(run, acts) && Step(run[|run| - 1], a) == Some(t)
    ensures Trace(run', acts') && run'[|run'| - 1] == t
  {
    hide Step, Initial;
    run', acts' := run + [t], acts + [a];
  }

  /** One worker, one accepted socket 7, and nothing closed or dropped. */
  function OneSocket(queue: Queue, mutex: Mutex, w: Worker, stage: Stage, delivered: seq<Sock>): State {
    State(queue, mutex, [w], Idle, stage, [7], [7], delivered, multiset{}, multiset{}, multiset{}, multiset{})
  }

  /** The acceptor on its way with the socket. */
  function Accepting(acceptor: Acceptor, queue: Queue, pushed: seq<Sock>): State {
    OneSocket(queue, if acceptor.Accepted? then Free else ByAcceptor, Ready, NotStarted, [])
    .(acceptor := acceptor, pushed := pushed)
  }

  lemma AcceptSteps()
    ensures var s := Accepting(Entering(7), Queue([], false), []);
            && Step(Accepting(Accepted(7), Queue([], false), []), AcceptorLock) == Some(s)
            && Step(s, Append) == Some(Accepting(Appended, Queue([7], false), [7]))
  {
    assert [] + [7] == [7];
  }

  lemma SignalSteps()
    ensures var s := Accepting(Signalled, Queue([7], false), [7]);
            && Step(Accepting(Appended, Queue([7], false), [7]), SignalNobody) == Some(s)
            && Step(s, AcceptorUnlock) == Some(OneSocket(Queue([7], false), Free, Ready, NotStarted, []))
  {
  }

  /** The acceptor queues the socket. */
  lemma QueuedRun() returns (run: seq<State>, acts: seq<Action>)
    ensures Trace(run, acts) && run[|run| - 1] == OneSocket(Queue([7], false), Free, Ready, NotStarted, [])
  {
    run, acts := AcceptedRun();
    hide Step, Trace;
    AcceptSteps();
    SignalSteps();
    run, acts := Longer(run, acts, AcceptorLock, Accepting(Entering(7), Queue([], false), []));
    run, acts := Longer(run, acts, Append, Accepting(Appended, Queue([7], false), [7]));
    run, acts := Longer(run, acts, SignalNobody, Accepting(Signalled, Queue([7], false), [7]));
    run, acts := Longer(run, acts, AcceptorUnlock, OneSocket(Queue([7], false), Free, Ready, NotStarted, []));
  }

  lemma AcceptedRun() returns (run: seq<State>, acts: seq<Action>)
    ensures Trace(run, acts) && run[|run| - 1] == Accepting(Accepted(7), Queue([], false), [])
  {
    var none: multiset<Sock> := multiset{};
    var s := State(Queue([], false), Free, [Ready], Idle, NotStarted, [], [], [], none, none, none, none);
    assert [] + [7] == [7];
    run, acts := [s, Accepting(Accepted(7), Queue([], false), [])], [Accept(7)];
  }

  lemma TakeSteps()
    ensures var s := OneSocket(Queue([7], false), ByWorker(0), Checking, NotStarted, []);
            && Step(OneSocket(Queue([7], false), Free, Ready, NotStarted, []), OfWorker(0, Lock)) == Some(s)
            && Step(s, OfWorker(0, Take)) == Some(OneSocket(Queue([], false), Free, Popped(7), NotStarted, [7]))
  {
    assert [Ready][0 := Checking] == [Checking] && [Checking][0 := Popped(7)] == [Popped(7)];
    assert [] + [7] == [7] && [7][1..] == [];
  }

  lemma FlagSteps()
    ensures var s := OneSocket(Queue([], false), ByShutdown, Popped(7), Setting, [7]);
            var t := OneSocket(Queue([], true), ByShutdown, Popped(7), Broadcasting, [7]);
            && Step(OneSocket(Queue([], false), Free, Popped(7), NotStarted, [7]), ShutdownLock) == Some(s)
            && Step(s, SetFlag) == Some(t)
            && Step(t, OfWorker(0, SeeShutdown)) == Some(t.(workers := [Exited], dropped := multiset{7}))
  {
    var none: multiset<Sock> := multiset{};
    assert [Popped(7)][0 := Exited] == [Exited] && none + multiset{7} == multiset{7};
  }

  /** A run that drops a socket: the flag is set between the pop and the worker's look at it. */
  lemma DroppedRun() returns (run: seq<State>, acts: seq<Action>)
    ensures Trace(run, acts)
    ensures var s := run[|run| - 1]; s.accepted == [7] && s.dropped[7] == 1 && s.closed[7] == 0 && s.workers == [Exited]
  {
    hide Step, Trace;
    run, acts := QueuedRun();
    TakeSteps();
    FlagSteps();
    var s1 := OneSocket(Queue([7], false), ByWorker(0), Checking, NotStarted, []);
    var s2 := OneSocket(Queue([], false), Free, Popped(7), NotStarted, [7]);
    var s3 := OneSocket(Queue([], false), ByShutdown, Popped(7), Setting, [7]);
    var s4 := OneSocket(Queue([], true), ByShutdown, Popped(7), Broadcasting, [7]);
    run, acts := Longer(run, acts, OfWorker(0, Lock), s1);
    run, acts := Longer(run, acts, OfWorker(0, Take), s2);
    run, acts := Longer(run, acts, ShutdownLock, s3);
    run, acts := Longer(run, acts, SetFlag, s4);
    run, acts := Longer(run, acts, OfWorker(0, SeeShutdown), s4.(workers := [Exited], dropped := multiset{7}));
  }

  lemma AbandonStep(s: State, a: Action, t: State)
    requires s.queue.shutdown && Step(s, a) == Some(t)
    ensures t.queue == s.queue && t.delivered == s.delivered
  {
    hide MoveOf;
    if a.OfWorker? {
      var m := MoveOf(s.workers[a.id], a.event, s.queue, s.mutex == Free).value;
      MovePlace(s.workers[a.id], a.event, s.queue, s.mutex == Free, m);
    }
  }

  /** Sockets still queued when the flag is set stay there for ever: never delivered, closed or dropped. */
  lemma {:induction false} AbandonedForever(run: seq<State>, j: nat, k: nat, x: Sock)
    requires Run(run) && j <= k < |run| && run[j].queue.shutdown && x in run[j].queue.items
    ensures run[k].queue == run[j].queue && run[k].delivered == run[j].delivered
    ensures run[k].closed[x] == 0 && run[k].dropped[x] == 0 && x !in run[k].delivered
    decreases k - j
  {
    RunInv(run, k);
    assert Ledger(run[k], x);
    if j < k {
      AbandonedForever(run, j, k - 1, x);
      assert Next(run[k - 1], run[k - 1 + 1]);
      var a :| Step(run[k - 1], a) == Some(run[k]);
      AbandonStep(run[k - 1], a, run[k]);
    }
    var s := run[k];
    assert Times(s.pushed, x) == Times(s.delivered, x) + Times(s.queue.items, x);
  }

  /** After the broadcast no worker sleeps. */
  lemma NobodySleepsAfterBroadcast(run: seq<State>, k: nat)
    requires Run(run) && k < |run|
    requires run[k].stage.Unlocking? || run[k].stage.Done?
    ensures Asleep !in run[k].workers && run[k].queue.shutdown
  {
    RunInv(run, k);
  }

  /**
   So every worker can leave by itself: from any state with the flag set and the mutex free, one at
   the queue exits in two steps of its own and one with a popped socket in one.
   */
  lemma EveryWorkerLeaves(run: seq<State>, k: nat, i: nat) returns (mid: State, end: State)
    requires Run(run) && k < |run| && i < |run[k].workers|
    requires run[k].queue.shutdown && run[k].mutex == Free
    requires var w := run[k].workers[i]; w == Ready || w == Woken || w.Popped?
    ensures if run[k].workers[i].Popped? then mid == run[k] && Step(mid, OfWorker(i, SeeShutdown)) == Some(end)
            else Step(run[k], OfWorker(i, Lock)) == Some(mid) && Step(mid, OfWorker(i, Quit)) == Some(end)
    ensures end.workers[i] == Exited && end.mutex == Free
  {
    var s := run[k];
    mid, end := s, s;
    if s.workers[i].Popped? {
      end := Step(mid, OfWorker(i, SeeShutdown)).value;
    } else {
      mid := Step(s, OfWorker(i, Lock)).value;
      end := Step(mid, OfWorker(i, Quit)).value;
    }
  }
}
