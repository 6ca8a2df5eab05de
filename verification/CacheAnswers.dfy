/**
 What becomes of a request that hits the cache: it is answered exactly once, and nothing but the
 locks of others can hold it up.  Left alone, it gets what the disk has.
 */
module CacheAnswers {
  import opened Wrappers
  import opened CacheProtocol
  import Cache
  import CStrings

  // ---------- Asked and answered ----------

  /** The paths that worker `i` has looked up and found, in order, by the first `k` actions. */
  function Asked(acts: seq<Action>, k: nat, i: nat): seq<Path>
    requires k <= |acts|
  {
    if k == 0 then []
    else
      var a := acts[k - 1];
      Asked(acts, k - 1, i) + if a.Local? && a.id == i && a.event.Lookup? then [a.event.path] else []
  }

  /** The paths that worker `i` has answered for. */
  function Answered(served: seq<Response>, i: nat): seq<Path> {
    if served == [] then []
    else
      var n := |served| - 1;
      Answered(served[..n], i) + if served[n].worker == i then [served[n].hit.path] else []
  }

  /** The worker has found an entry for its request and not sent it yet. */
  predicate InFlight(w: Worker) {
    w.Found? || w.Upgrading? || (w.Loading? && w.job.Reload?) || w.Swapped? || w.Loaded? || w.Relocking?
    || w.Serving? || w.HeadSent? || w.Sending?
  }

  function HitOf(w: Worker): Hit
    requires InFlight(w)
  {
    if w.Loading? then w.job.hit else w.hit
  }

  function Pending(w: Worker): seq<Path> {
    if InFlight(w) then [HitOf(w).path] else []
  }

  /** Every path that worker `i` has looked up is answered, in order, but for the one it is working on. */
  ghost predicate Settled(s: State, asked: seq<Path>, i: nat)
    requires i < |s.workers|
  {
    asked == Answered(s.served, i) + Pending(s.workers[i])
  }

  lemma MovePending(d: Disk, m: Memory, w: Worker, e: Event)
    requires LocalMove(d, m, w, e).Some?
    ensures var w' := LocalMove(d, m, w, e).value.0;
            if e.Lookup? then Pending(w) == [] && Pending(w') == [e.path] else Pending(w') == Pending(w)
  {
    hide Cache.FirstMatch;
  }

  lemma AnsweredMore(served: seq<Response>, r: Response, i: nat)
    ensures Answered(served + [r], i) == Answered(served, i) + if r.worker == i then [r.hit.path] else []
  {
    assert (served + [r])[..|served|] == served;
  }

  lemma SettledStep(s: State, a: Action, t: State, asked: seq<Path>, i: nat)
    requires i < |s.workers| && Settled(s, asked, i) && Step(s, a) == Some(t)
    ensures |t.workers| == |s.workers|
    ensures Settled(t, asked + if a.Local? && a.id == i && a.event.Lookup? then [a.event.path] else [], i)
  {
    hide LocalMove, Answered;
    match a
    case Local(j, e) =>
      MovePending(s.disk, s.mem, s.workers[j], e);
    case EndBody(j) =>
      AnsweredMore(s.served, t.served[|s.served|], i);
      assert Answered(s.served, i) + Pending(s.workers[i]) + [] == Answered(s.served, i) + Pending(s.workers[i]);
    case _ =>
  }

  /**
   Every lookup that hits is answered exactly once and in its turn, whatever becomes of the stat and
   the reload: over every run the answered paths of a worker are the paths it looked up, but for the
   one in its hands; and a worker that is done owes nothing.
   */
  lemma {:induction false} AnsweredOnce(run: seq<State>, acts: seq<Action>, k: nat, i: nat)
    requires Trace(run, acts) && k < |run| && i < |run[0].workers|
    ensures |run[k].workers| == |run[0].workers|
    ensures Asked(acts, k, i) == Answered(run[k].served, i) + Pending(run[k].workers[i])
    ensures run[k].workers[i].Idle? || run[k].workers[i].Sent? ==> Asked(acts, k, i) == Answered(run[k].served, i)
  {
    hide Step;
    if k > 0 {
      AnsweredOnce(run, acts, k - 1, i);
      assert Step(run[k - 1], acts[k - 1]) == Some(run[k - 1 + 1]);
      SettledStep(run[k - 1], acts[k - 1], run[k], Asked(acts, k - 1, i), i);
    }
  }

  // ---------- Going on ----------

  function PerformAll(s: State, acts: seq<Action>): Option<State>
    decreases |acts|
  {
    if acts == [] then Some(s)
    else match Step(s, acts[0]) case None => None case Some(t) => PerformAll(t, acts[1..])
  }

  predicate OwnAction(a: Action, i: nat) {
    match a
    case Local(j, _) => j == i
    case Publish(j) => j == i
    case Stamp(j) => j == i
    case EndBody(j) => j == i
    case _ => false
  }

  lemma {:induction false} ThenStep(s: State, acts: seq<Action>, t: State, a: Action, u: State)
    requires PerformAll(s, acts) == Some(t) && Step(t, a) == Some(u)
    ensures PerformAll(s, acts + [a]) == Some(u)
    decreases |acts|
  {
    hide Step;
    if acts == [] {
      assert acts + [a] == [a] && [a][1..] == [];
    } else {
      assert (acts + [a])[1..] == acts[1..] + [a];
      ThenStep(Step(s, acts[0]).value, acts[1..], t, a, u);
    }
  }

  /** No other worker holds the lock. */
  ghost predicate Alone(s: State, i: nat) {
    forall j :: 0 <= j < |s.workers| && j != i ==> !HoldsRead(s.workers[j]) && !HoldsWrite(s.workers[j])
  }

  /** A run of own steps of worker `i`, from `s` to `t`. */
  ghost predicate OwnRun(s: State, i: nat, acts: seq<Action>, t: State) {
    && PerformAll(s, acts) == Some(t) && (forall a :: a in acts ==> OwnAction(a, i))
    && Inv(t) && |t.workers| == |s.workers| && i < |t.workers| && Alone(t, i) && t.disk == s.disk
  }

  lemma StartRun(s: State, i: nat)
    requires Inv(s) && i < |s.workers| && Alone(s, i)
    ensures OwnRun(s, i, [], s)
  {
  }

  /** A worker that no other one excludes gets any lock that it does not hold yet. */
  lemma LockAvailable(s: State, i: nat, op: LockOp)
    requires LockOk(s) && i < |s.workers| && Alone(s, i)
    requires op.TakeRead? || op.TakeWrite? ==> !HoldsRead(s.workers[i]) && !HoldsWrite(s.workers[i])
    ensures Admits(s.readers, s.writer, op)
  {
    if op.TakeRead? || op.TakeWrite? {
      assert forall j: nat :: j !in s.readers && s.writer != Some(j);
    }
  }

  /** One more own step that changes only the worker and the lock. */
  lemma Go(s: State, i: nat, acts: seq<Action>, t: State, e: Event) returns (more: seq<Action>, u: State)
    requires OwnRun(s, i, acts, t) && LocalMove(t.disk, t.mem, t.workers[i], e).Some?
    ensures OwnRun(s, i, more, u) && more == acts + [Local(i, e)]
    ensures u.workers == t.workers[i := LocalMove(t.disk, t.mem, t.workers[i], e).value.0]
    ensures u.mem == t.mem && u.served == t.served
  {
    hide LocalMove, MemoryOk, WorkerOk, ResponseOk, PerformAll;
    var (w, op) := LocalMove(t.disk, t.mem, t.workers[i], e).value;
    LocalLock(t.disk, t.mem, t.workers[i], e);
    LockAvailable(t, i, op);
    u := Step(t, Local(i, e)).value;
    LocalStep(t, i, e, u);
    ThenStep(s, acts, t, Local(i, e), u);
    more := acts + [Local(i, e)];
  }

  /** One more own step on the table or the output. */
  lemma Act(s: State, i: nat, acts: seq<Action>, t: State, a: Action) returns (more: seq<Action>, u: State)
    requires OwnRun(s, i, acts, t) && Step(t, a).Some? && (a == Publish(i) || a == Stamp(i) || a == EndBody(i))
    ensures OwnRun(s, i, more, u) && more == acts + [a] && Step(t, a) == Some(u)
  {
    u := Step(t, a).value;
    assert Next(t, u);
    ActOthers(t, i, a, u);
    hide Step, Inv;
    InvStep(t, u);
    ThenStep(s, acts, t, a, u);
    more := acts + [a];
  }

  lemma ActOthers(t: State, i: nat, a: Action, u: State)
    requires Step(t, a) == Some(u) && (a == Publish(i) || a == Stamp(i) || a == EndBody(i))
    ensures |u.workers| == |t.workers| && u.disk == t.disk
    ensures forall j :: 0 <= j < |t.workers| && j != i ==> u.workers[j] == t.workers[j]
  {
  }

  /** From the moment it may serve, a worker sends the entry as it is. */
  lemma ServeEntry(s: State, i: nat, acts: seq<Action>, t: State) returns (more: seq<Action>, u: State)
    requires OwnRun(s, i, acts, t) && t.workers[i].Serving?
    ensures OwnRun(s, i, more, u) && u.workers[i].Sent? && u.mem == t.mem
    ensures var h := t.workers[i].hit;
            && h.slot < |t.mem.entries|
            && var e := t.mem.entries[h.slot];
            && e.buf in t.mem.heap
            && u.served == t.served + [Response(i, h, e.size, e.mime, Some(t.mem.heap[e.buf]))]
  {
    hide LocalMove, MemoryOk, LockOk, WorkerOk, ResponseOk, PerformAll, Alone;
    var w := t.workers[i];
    HitEntry(t.disk, t.mem, w);
    ServingMoves(t.disk, t.mem, w);
    more, u := Go(s, i, acts, t, SendHead);
    more, u := Go(s, i, more, u, StartBody);
    SendingEnds(u, i);
    more, u := Act(s, i, more, u, EndBody(i));
  }

  lemma HitEntry(d: Disk, m: Memory, w: Worker)
    requires MemoryOk(d, m) && WorkerOk(d, m, w) && w.Serving?
    ensures HitOk(m, w.hit) && m.entries[w.hit.slot].buf in m.heap
  {
    assert EntryOk(d, m, w.hit.slot);
  }

  lemma ServingMoves(d: Disk, m: Memory, w: Worker)
    requires w.Serving? && HitOk(m, w.hit)
    ensures var e := m.entries[w.hit.slot];
            var head := HeadSent(w.hit, w.since, e.size, e.mime);
            && LocalMove(d, m, w, SendHead) == Some((head, Keep))
            && LocalMove(d, m, head, StartBody) == Some((Sending(w.hit, w.since, e.size, e.mime, e.buf), Keep))
  {
  }

  lemma SendingEnds(s: State, i: nat)
    requires i < |s.workers| && s.workers[i].Sending? && s.workers[i].buf in s.mem.heap
    ensures var w := s.workers[i];
            var r := Response(i, w.hit, w.size, w.mime, Some(s.mem.heap[w.buf]));
            Step(s, EndBody(i)) == Some(s.(workers := s.workers[i := Sent(w.hit)], served := s.served + [r]))
  {
  }

  // ---------- Any request in flight ----------

  /** How far a request in flight still has to go. */
  function Stage(w: Worker): nat {
    match w
    case Found(_) => 11
    case Upgrading(_, _) => 10
    case Loading(_, Opening) => 9
    case Loading(_, HasFile(_)) => 8
    case Loading(_, Reading(_, _, _, _, _)) => 7
    case Loading(_, Finished(_, _, _, _)) => 6
    case Swapped(_, _, _) => 5
    case Loaded(_, _) => 4
    case Relocking(_, _) => 3
    case Serving(_, _) => 2
    case HeadSent(_, _, _, _) => 1
    case _ => 0
  }

  /** The bytes that a reading worker may still read. */
  function Unread(w: Worker): int {
    if w.Loading? && w.phase.Reading? then w.phase.size - |w.phase.data| else 0
  }

  lemma MoveForward(d: Disk, m: Memory, w: Worker, e: Event)
    requires InFlight(w) && LocalMove(d, m, w, e).Some?
    ensures var w' := LocalMove(d, m, w, e).value.0;
            InFlight(w') && (Stage(w') < Stage(w) || (Stage(w') == Stage(w) && 0 <= Unread(w') < Unread(w)))
  {
    hide Cache.FirstMatch;
  }

  /** Every step of its own takes a request in flight towards its answer. */
  lemma OwnStepsGoForward(s: State, a: Action, t: State, i: nat)
    requires i < |s.workers| && InFlight(s.workers[i]) && OwnAction(a, i) && Step(s, a) == Some(t)
    ensures i < |t.workers|
    ensures var w, w' := s.workers[i], t.workers[i];
            || w'.Sent?
            || (InFlight(w') && (Stage(w') < Stage(w) || (Stage(w') == Stage(w) && 0 <= Unread(w') < Unread(w))))
  {
    hide LocalMove;
    if a.Local? {
      MoveForward(s.disk, s.mem, s.workers[i], a.event);
    }
  }

  /** The event by which a worker can always go on, whatever the disk does. */
  function NextEvent(w: Worker): Event
    requires w.Found? || w.Upgrading? || w.Loading? || w.Loaded? || w.Relocking?
  {
    match w
    case Found(_) => StatFails
    case Upgrading(_, _) => WriteLock
    case Loading(_, _) => Fail
    case Loaded(_, _) => WriteUnlock
    case Relocking(_, _) => ReadLock
  }

  lemma NextMove(d: Disk, m: Memory, w: Worker)
    requires InFlight(w) && (w.Found? || w.Upgrading? || w.Loading? || w.Loaded? || w.Relocking?)
    ensures LocalMove(d, m, w, NextEvent(w)).Some?
    ensures var w' := LocalMove(d, m, w, NextEvent(w)).value.0;
            InFlight(w') && HitOf(w') == HitOf(w) && Stage(w') < Stage(w) && !w'.HeadSent? && !w'.Sending?
  {
  }

  /**
   No request is stuck: with the lock to itself, a worker sends its answer by its own steps, wherever it
   stands, and gives the lock back.
   */
  lemma EveryRequestEnds(s: State, i: nat) returns (acts: seq<Action>, t: State)
    requires Inv(s) && i < |s.workers| && Alone(s, i) && InFlight(s.workers[i])
    ensures OwnRun(s, i, acts, t) && t.workers[i] == Idle && t.readers == {} && t.writer == None
    ensures |t.served| == |s.served| + 1 && t.served[..|s.served|] == s.served
    ensures t.served[|s.served|].worker == i && t.served[|s.served|].hit == HitOf(s.workers[i])
  {
    hide Inv, LocalMove, PerformAll, Alone;
    StartRun(s, i);
    acts, t := Finish(s, i, [], s);
    acts, t := Release(s, i, acts, t);
  }

  /** After the send the worker gives the lock back, and is done. */
  lemma Release(s: State, i: nat, acts: seq<Action>, t: State) returns (more: seq<Action>, u: State)
    requires OwnRun(s, i, acts, t) && t.workers[i].Sent?
    ensures OwnRun(s, i, more, u) && u.workers[i] == Idle && u.mem == t.mem && u.served == t.served
    ensures u.readers == {} && u.writer == None
  {
    hide MemoryOk, WorkerOk, ResponseOk, PerformAll;
    more, u := Go(s, i, acts, t, ReadUnlock);
    assert forall j: nat :: j !in u.readers && u.writer != Some(j);
  }

  lemma {:induction false} Finish(s: State, i: nat, acts: seq<Action>, t: State) returns (more: seq<Action>, u: State)
    requires OwnRun(s, i, acts, t) && InFlight(t.workers[i])
    ensures OwnRun(s, i, more, u) && u.workers[i].Sent?
    ensures |u.served| == |t.served| + 1 && u.served[..|t.served|] == t.served
    ensures u.served[|t.served|].worker == i && u.served[|t.served|].hit == HitOf(t.workers[i])
    decreases Stage(t.workers[i])
  {
    hide Inv, LocalMove, PerformAll, Alone;
    var w := t.workers[i];
    if w.Serving? {
      more, u := ServeEntry(s, i, acts, t);
    } else if w.HeadSent? || w.Sending? {
      more, u := FinishSending(s, i, acts, t);
    } else if w.Swapped? {
      StampEnabled(t, i);
      more, u := Act(s, i, acts, t, Stamp(i));
      more, u := Finish(s, i, more, u);
    } else {
      NextMove(t.disk, t.mem, w);
      more, u := Go(s, i, acts, t, NextEvent(w));
      more, u := Finish(s, i, more, u);
    }
  }

  lemma StampEnabled(s: State, i: nat)
    requires Inv(s) && i < |s.workers| && s.workers[i].Swapped?
    ensures var w := s.workers[i];
            && w.hit.slot < |s.mem.entries|
            && Step(s, Stamp(i)) == Some(s.(mem := Restamp(s.mem, w.hit.slot, w.mtime),
                                            workers := s.workers[i := Loaded(w.hit, Some(w.seen))]))
  {
    assert WorkerOk(s.disk, s.mem, s.workers[i]);
  }

  lemma FinishSending(s: State, i: nat, acts: seq<Action>, t: State) returns (more: seq<Action>, u: State)
    requires OwnRun(s, i, acts, t) && (t.workers[i].HeadSent? || t.workers[i].Sending?)
    ensures OwnRun(s, i, more, u) && u.workers[i].Sent?
    ensures |u.served| == |t.served| + 1 && u.served[..|t.served|] == t.served
    ensures u.served[|t.served|].worker == i && u.served[|t.served|].hit == HitOf(t.workers[i])
  {
    hide MemoryOk, LockOk, ResponseOk, PerformAll, Alone;
    assert WorkerOk(t.disk, t.mem, t.workers[i]);
    more, u := acts, t;
    if u.workers[i].HeadSent? {
      more, u := Go(s, i, more, u, StartBody);
    }
    more, u := Act(s, i, more, u, EndBody(i));
  }

  /** The disk is free: any inode may be written, and any path made to name a new one, at any later time. */
  lemma DiskMovesFreely(s: State, ino: nat, p: Path, content: Bytes, mtime: nat)
    ensures ino < |s.disk.inodes| && s.disk.inodes[ino].mtime < mtime ==>
              var t := Step(s, Write(ino, content, mtime));
              && t.Some? && t.value == s.(disk := t.value.disk) && t.value.disk.names == s.disk.names
              && t.value.disk.inodes == s.disk.inodes[ino := Inode(content, mtime)]
    ensures (s.disk.Has(p) ==> s.disk.File(p).mtime < mtime) ==>
              var t := Step(s, Link(p, content, mtime));
              && t.Some? && t.value == s.(disk := t.value.disk) && t.value.disk.Has(p)
              && t.value.disk.File(p) == Inode(content, mtime)
              && forall q :: q != p && s.disk.Has(q) ==> t.value.disk.Has(q) && t.value.disk.File(q) == s.disk.File(q)
  {
  }

  /** And every system call may fail: the worker then goes on without the reload, or without the entry. */
  lemma CallsMayFail(d: Disk, m: Memory, h: Hit, seen: nat, p: Path, mime: string, ph: Phase)
    ensures LocalMove(d, m, Found(h), StatFails) == Some((Serving(h, None), Keep))
    ensures LocalMove(d, m, Loading(Reload(h, seen), ph), Fail) == Some((Loaded(h, None), Keep))
    ensures LocalMove(d, m, Loading(Add(p, mime), ph), Fail) == Some((Idle, DropWrite))
    ensures ph.Reading? ==> LocalMove(d, m, Loading(Add(p, mime), ph), ReadError).Some?
    ensures ph.Reading? ==> LocalMove(d, m, Loading(Reload(h, seen), ph), ReadError).Some?
  {
  }

  /** A read goes on while the file has bytes that the worker wants, and ends where the file ends, full or not. */
  lemma ReadNeverStuck(d: Disk, m: Memory, job: Job, ino: nat, size: nat, mtime: nat, same: bool, data: Bytes)
    requires ino < |d.inodes| && |data| <= size
    ensures var w, now := Loading(job, Reading(ino, size, mtime, same, data)), d.inodes[ino].content;
            if |data| < size && |data| < |now|
            then LocalMove(d, m, w, Read(1)) ==
                 Some((Loading(job, Reading(ino, size, mtime, same, data + [now[|data|]])), Keep))
            else LocalMove(d, m, w, EndRead) == Some((Loading(job, Finished(size, mtime, same, data)), Keep))
  {
    var now := d.inodes[ino].content;
    if |data| < |now| {
      assert now[|data|..|data| + 1] == [now[|data|]];
    }
  }

  // ---------- Left alone ----------

  /** What a load makes of the file at its path when nobody writes to it meanwhile. */
  function Loads(job: Job, f: Inode): Worker {
    Loading(job, Finished(|f.content|, f.mtime, true, f.content))
  }

  lemma LoadMoves(d: Disk, m: Memory, job: Job, p: Path)
    requires JobPath(m, job) == Some(p) && d.Has(p)
    requires job.Add? ==> |d.File(p).content| <= MAX_CACHE_FILE_SIZE
    ensures var f := d.File(p); var size, ino := |f.content|, d.names[p];
            var found := Loading(job, HasFile(ino));
            var reading, full := Loading(job, Reading(ino, size, f.mtime, true, "")),
                                 Loading(job, Reading(ino, size, f.mtime, true, f.content));
            && LocalMove(d, m, Loading(job, Opening), Open) == Some((found, Keep))
            && LocalMove(d, m, found, Stat) == Some((reading, Keep))
            && (size > 0 ==> LocalMove(d, m, reading, Read(size)) == Some((full, Keep)))
            && LocalMove(d, m, full, EndRead) == Some((Loads(job, f), Keep))
  {
    var content := d.File(p).content;
    assert "" + content[0..0 + |content|] == content;
  }

  lemma LoadFile(s: State, i: nat, acts: seq<Action>, t: State, job: Job, p: Path)
    returns (more: seq<Action>, u: State)
    requires OwnRun(s, i, acts, t) && t.workers[i] == Loading(job, Opening)
    requires JobPath(t.mem, job) == Some(p) && t.disk.Has(p)
    requires job.Add? ==> |t.disk.File(p).content| <= MAX_CACHE_FILE_SIZE
    ensures OwnRun(s, i, more, u) && u.mem == t.mem && u.served == t.served
    ensures u.workers[i] == Loads(job, t.disk.File(p))
  {
    hide Inv, LocalMove, PerformAll, Alone;
    LoadMoves(t.disk, t.mem, job, p);
    more, u := Go(s, i, acts, t, Open);
    more, u := Go(s, i, more, u, Stat);
    var f := t.disk.File(p);
    if f.content != "" {
      more, u := Go(s, i, more, u, Read(|f.content|));
    }
    more, u := Go(s, i, more, u, EndRead);
  }

  /** An entry that is no older than the file holds its bytes, when it was loaded faithfully. */
  lemma NoOlderIsFresh(d: Disk, m: Memory, h: Hit)
    requires MemoryOk(d, m) && HitOk(m, h) && d.Has(h.path)
    requires m.entries[h.slot].faithful && d.File(h.path).mtime <= m.entries[h.slot].lastModified
    ensures var e := m.entries[h.slot]; e.buf in m.heap && m.heap[e.buf] == d.File(h.path).content
    ensures m.entries[h.slot].size == |d.File(h.path).content|
  {
    assert EntryOk(d, m, h.slot);
  }

  lemma FindMoves(d: Disk, m: Memory, p: Path, slot: nat)
    requires MemoryOk(d, m) && Cache.FirstMatch(ViewOf(m), p) == Some(slot)
    ensures slot < |m.entries| && m.entries[slot].key == p && d.Has(p)
    ensures var h, t := Hit(p, slot), d.File(p).mtime;
            && LocalMove(d, m, Idle, Lookup(p)) == Some((Found(h), TakeRead))
            && LocalMove(d, m, Found(h), StatOk) ==
               Some(if m.entries[slot].lastModified < t then (Upgrading(h, t), DropRead)
                    else (Serving(h, Some(t)), Keep))
            && LocalMove(d, m, Upgrading(h, t), WriteLock) == Some((Loading(Reload(h, t), Opening), TakeWrite))
  {
    assert EntryOk(d, m, slot);
  }

  /** The reload, from the stat that asks for it to the retaken read lock. */
  lemma ReloadAlone(s: State, i: nat, acts: seq<Action>, t: State, h: Hit) returns (more: seq<Action>, u: State)
    requires OwnRun(s, i, acts, t) && HitOk(t.mem, h) && t.disk.Has(h.path)
    requires t.workers[i] == Loading(Reload(h, t.disk.File(h.path).mtime), Opening)
    ensures OwnRun(s, i, more, u) && u.served == t.served
    ensures u.workers[i] == Serving(h, Some(t.disk.File(h.path).mtime)) && HitOk(u.mem, h)
    ensures u.mem.entries[h.slot].lastModified == t.disk.File(h.path).mtime && u.mem.entries[h.slot].faithful
    ensures u.mem.entries[h.slot].mime == t.mem.entries[h.slot].mime
  {
    hide Inv, LocalMove, PerformAll, Alone;
    var f := t.disk.File(h.path);
    var job := Reload(h, f.mtime);
    more, u := LoadFile(s, i, acts, t, job, h.path);
    PublishEnabled(u, i, h, f.mtime, f);
    more, u := Act(s, i, more, u, Publish(i));
    StampEnabled(u, i);
    more, u := Act(s, i, more, u, Stamp(i));
    BackToServing(u.disk, u.mem, h, Some(f.mtime));
    more, u := Go(s, i, more, u, WriteUnlock);
    more, u := Go(s, i, more, u, ReadLock);
  }

  lemma PublishEnabled(s: State, i: nat, h: Hit, seen: nat, f: Inode)
    requires i < |s.workers| && s.workers[i] == Loads(Reload(h, seen), f) && HitOk(s.mem, h)
    ensures Step(s, Publish(i)) == Some(s.(mem := Swap(s.mem, h.slot, f.content, true),
                                           workers := s.workers[i := Swapped(h, seen, f.mtime)]))
    ensures HitOk(Swap(s.mem, h.slot, f.content, true), h)
    ensures var e := Swap(s.mem, h.slot, f.content, true).entries[h.slot];
            e.faithful && e.mime == s.mem.entries[h.slot].mime
  {
  }

  lemma BackToServing(d: Disk, m: Memory, h: Hit, since: Option<nat>)
    ensures LocalMove(d, m, Loaded(h, since), WriteUnlock) == Some((Relocking(h, since), DropWrite))
    ensures LocalMove(d, m, Relocking(h, since), ReadLock) == Some((Serving(h, since), TakeRead))
  {
  }

  /**
   A request left alone, whose system calls succeed: from any state of a run of faithful loads, the
   worker by its own steps finds the entry, reloads it exactly when the file is newer, and sends the
   file's present bytes under the requested path, once.
   */
  lemma UndisturbedRequest(s: State, i: nat, p: Path) returns (acts: seq<Action>, t: State)
    requires Inv(s) && FaithfulInv(s) && i < |s.workers| && Alone(s, i) && s.workers[i] == Idle
    requires Cache.FirstMatch(ViewOf(s.mem), p).Some?
    ensures OwnRun(s, i, acts, t) && t.workers[i] == Idle && t.readers == {} && t.writer == None && s.disk.Has(p)
    ensures var f := s.disk.File(p); var h := Hit(p, Cache.FirstMatch(ViewOf(s.mem), p).value);
            && HitOk(s.mem, h)
            && t.served == s.served + [Response(i, h, |f.content|, s.mem.entries[h.slot].mime, Some(f.content))]
            && (f.mtime <= s.mem.entries[h.slot].lastModified ==> t.mem == s.mem)
  {
    hide LocalMove, MemoryOk, LockOk, WorkerOk, ResponseOk, PerformAll, Alone, ViewOf, Cache.FirstMatch;
    var h := Hit(p, Cache.FirstMatch(ViewOf(s.mem), p).value);
    FindMoves(s.disk, s.mem, p, h.slot);
    StartRun(s, i);
    acts, t := Go(s, i, [], s, Lookup(p));
    acts, t := Go(s, i, acts, t, StatOk);
    if t.workers[i].Upgrading? {
      acts, t := Go(s, i, acts, t, WriteLock);
      acts, t := ReloadAlone(s, i, acts, t, h);
    }
    NoOlderIsFresh(t.disk, t.mem, h);
    acts, t := ServeEntry(s, i, acts, t);
    acts, t := Release(s, i, acts, t);
  }

  /** An add left alone appends the file as it is, under its path and type. */
  lemma UndisturbedAdd(s: State, i: nat, p: Path, mime: string) returns (acts: seq<Action>, t: State)
    requires Inv(s) && i < |s.workers| && Alone(s, i) && s.workers[i] == Idle
    requires |p| <= 255 && |s.mem.entries| < 32 && s.disk.Has(p) && |s.disk.File(p).content| <= 1048576
    ensures OwnRun(s, i, acts, t) && t.workers[i] == Idle && t.served == s.served
    ensures var f := s.disk.File(p);
            ViewOf(t.mem) == ViewOf(s.mem) + [Cache.Entry(p, f.content, CStrings.Cut(63, mime), f.mtime, true)]
  {
    hide LocalMove, MemoryOk, LockOk, WorkerOk, ResponseOk, PerformAll, Alone;
    var job, f := Add(p, mime), s.disk.File(p);
    StartRun(s, i);
    AddStarts(s.disk, s.mem, p, mime);
    acts, t := Go(s, i, [], s, StartAdd(p, mime));
    acts, t := LoadFile(s, i, acts, t, job, p);
    AddPublishes(t, i, p, mime, f);
    acts, t := Act(s, i, acts, t, Publish(i));
  }

  lemma AddStarts(d: Disk, m: Memory, p: Path, mime: string)
    requires |p| <= MAX_KEY && |m.entries| < MAX_CACHE_ENTRIES
    ensures LocalMove(d, m, Idle, StartAdd(p, mime)) == Some((Loading(Add(p, mime), Opening), TakeWrite))
  {
  }

  lemma AddPublishes(s: State, i: nat, p: Path, mime: string, f: Inode)
    requires Inv(s) && i < |s.workers| && s.workers[i] == Loads(Add(p, mime), f)
    ensures Step(s, Publish(i)).Some?
    ensures var t := Step(s, Publish(i)).value;
            && t.workers == s.workers[i := Idle] && t.served == s.served
            && ViewOf(t.mem) == ViewOf(s.mem) + [Cache.Entry(p, f.content, CStrings.Cut(63, mime), f.mtime, true)]
  {
    hide ViewOf;
    assert WorkerOk(s.disk, s.mem, s.workers[i]);
    AddIsAdded(s, i, Step(s, Publish(i)).value);
  }
}
