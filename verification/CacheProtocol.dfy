/**
 The RAM cache shared by the workers, with the lock handover of `handle_http_route` and the
 system calls of `lith_cache_add` and `lith_cache_hot_reload` as separate steps, so that the disk
 and the other workers can move between any two of them.

 A path names an inode.  A file changes in place (`Write`) or its path is made to name a new inode
 (`Link`: creation, or replacement by rename); either way the modification time seen through the
 path strictly grows.
 */
module CacheProtocol {
  import opened Wrappers
  import CStrings
  import Cache

  const MAX_CACHE_ENTRIES := Cache.MAX_CACHE_ENTRIES
  const MAX_CACHE_FILE_SIZE := Cache.MAX_CACHE_FILE_SIZE

  type Path = string
  type Bytes = string

  const MAX_KEY := 255

  // ---------- The disk ----------

  datatype Inode = Inode(content: Bytes, mtime: nat)

  datatype Disk = Disk(names: map<Path, nat>, inodes: seq<Inode>) {
    predicate Has(p: Path) {
      p in names && names[p] < |inodes|
    }

    function File(p: Path): Inode
      requires Has(p)
    {
      inodes[names[p]]
    }
  }

  /** Every path keeps a file, its time never goes back, and while its time stands still so does its inode. */
  ghost predicate Advances(d: Disk, d': Disk) {
    && |d.inodes| <= |d'.inodes|
    && forall p :: d.Has(p) ==>
      && d'.Has(p) && d.File(p).mtime <= d'.File(p).mtime
      && (d.File(p).mtime == d'.File(p).mtime ==> d'.names[p] == d.names[p] && d'.File(p) == d.File(p))
  }

  // ---------- The cache ----------

  /**
   An entry of the table; `buf` is the heap block that `content` points to.  `faithful` is history:
   the load that filled the entry opened and stat'ed the same inode, and no read error cut it short
   while the file was as it had been stat'ed.
   */
  datatype Slot = Slot(key: Path, buf: nat, size: nat, mime: string, lastModified: nat, faithful: bool)

  /** What one add or reload put into a slot. */
  datatype Version = Version(slot: nat, content: Bytes, mime: string)

  datatype Memory = Memory(entries: seq<Slot>, heap: map<nat, Bytes>, nextBuf: nat, published: set<Version>)

  /** The table as `Cache` has it, with the heap blocks in place of the pointers. */
  function ViewOf(m: Memory): (view: seq<Cache.Entry>)
    ensures |view| == |m.entries|
  {
    seq(|m.entries|, i requires 0 <= i < |m.entries| =>
      var e := m.entries[i];
      Cache.Entry(e.key, if e.buf in m.heap then m.heap[e.buf] else "", e.mime, e.lastModified, true))
  }

  // ---------- The workers ----------

  /** What a lookup found: the path asked for, and the slot that holds it. */
  datatype Hit = Hit(path: Path, slot: nat)

  datatype Job =
    | Reload(hit: Hit, seen: nat)       // lith_cache_hot_reload, called because stat saw time `seen`
    | Add(path: Path, mime: string)     // lith_cache_add

  datatype Phase =
    | Opening
    | HasFile(ino: nat)
    | Reading(ino: nat, size: nat, mtime: nat, same: bool, data: Bytes)
    | Finished(size: nat, mtime: nat, faithful: bool, data: Bytes)   // fread has returned

  /**
   `seen` is the time that the router's stat returned; it becomes None when that stat or the reload
   it asked for fails.
   */
  datatype Worker =
    | Idle
    | Found(hit: Hit)
    | Upgrading(hit: Hit, seen: nat)
    | Loading(job: Job, phase: Phase)
    | Swapped(hit: Hit, seen: nat, mtime: nat)
    | Loaded(hit: Hit, since: Option<nat>)
    | Relocking(hit: Hit, since: Option<nat>)
    | Serving(hit: Hit, since: Option<nat>)
    | HeadSent(hit: Hit, since: Option<nat>, size: nat, mime: string)
    | Sending(hit: Hit, since: Option<nat>, size: nat, mime: string, buf: nat)
    | Sent(hit: Hit)

  predicate HoldsRead(w: Worker) {
    w.Found? || w.Serving? || w.HeadSent? || w.Sending? || w.Sent?
  }

  predicate HoldsWrite(w: Worker) {
    w.Loading? || w.Swapped? || w.Loaded?
  }

  /** A response that a worker sent from the cache; `body` is None if the block had been freed. */
  datatype Response = Response(worker: nat, hit: Hit, size: nat, mime: string, body: Option<Bytes>)

  datatype State = State(disk: Disk, mem: Memory, readers: set<nat>, writer: Option<nat>,
                         workers: seq<Worker>, served: seq<Response>)

  // ---------- Steps ----------

  datatype LockOp = Keep | TakeRead | DropRead | TakeWrite | DropWrite

  datatype Event =
    | Lookup(path: Path) | StatOk | StatFails | WriteLock | StartAdd(path: Path, mime: string)
    | Open | Stat | Read(n: nat) | EndRead | ReadError | Fail
    | WriteUnlock | ReadLock | SendHead | StartBody | ReadUnlock

  datatype Action =
    | Write(ino: nat, content: Bytes, mtime: nat)
    | Link(path: Path, content: Bytes, mtime: nat)
    | Local(id: nat, event: Event)
    | Publish(id: nat)      // fread is over: install the new block and its size
    | Stamp(id: nat)        // then the new last_modified
    | EndBody(id: nat)

  function JobPath(m: Memory, job: Job): Option<Path> {
    match job
    case Reload(h, _) => if h.slot < |m.entries| then Some(m.entries[h.slot].key) else None
    case Add(p, _) => Some(p)
  }

  /** The file that the worker is reading still has the time that stat saw. */
  predicate Unchanged(d: Disk, m: Memory, w: Worker)
    requires w.Loading? && w.phase.Reading?
  {
    var p := JobPath(m, w.job);
    p.Some? && d.Has(p.value) && d.File(p.value).mtime == w.phase.mtime
  }

  /** The steps that change only the worker itself and the lock. */
  function LocalMove(d: Disk, m: Memory, w: Worker, e: Event): Option<(Worker, LockOp)> {
    match e
    case Lookup(p) =>
      if w.Idle? && Cache.FirstMatch(ViewOf(m), p).Some?
      then Some((Found(Hit(p, Cache.FirstMatch(ViewOf(m), p).value)), TakeRead)) else None
    case StatOk =>
      if w.Found? && w.hit.slot < |m.entries| && d.Has(w.hit.path) then
        var t := d.File(w.hit.path).mtime;
        if m.entries[w.hit.slot].lastModified < t then Some((Upgrading(w.hit, t), DropRead))
        else Some((Serving(w.hit, Some(t)), Keep))
      else None
    case StatFails => if w.Found? then Some((Serving(w.hit, None), Keep)) else None
    case WriteLock => if w.Upgrading? then Some((Loading(Reload(w.hit, w.seen), Opening), TakeWrite)) else None
    case StartAdd(p, mime) =>
      if w.Idle? && |p| <= MAX_KEY && |m.entries| < MAX_CACHE_ENTRIES
      then Some((Loading(Add(p, mime), Opening), TakeWrite)) else None
    case Open =>
      if w.Loading? && w.phase.Opening? && JobPath(m, w.job).Some? && d.Has(JobPath(m, w.job).value)
      then Some((Loading(w.job, HasFile(d.names[JobPath(m, w.job).value])), Keep)) else None
    case Stat =>
      if w.Loading? && w.phase.HasFile? && JobPath(m, w.job).Some? && d.Has(JobPath(m, w.job).value) then
        var p := JobPath(m, w.job).value;
        var f := d.File(p);
        if w.job.Add? && MAX_CACHE_FILE_SIZE < |f.content| then None
        else Some((Loading(w.job, Reading(w.phase.ino, |f.content|, f.mtime, w.phase.ino == d.names[p], "")), Keep))
      else None
    case Read(n) =>
      if w.Loading? && w.phase.Reading? && w.phase.ino < |d.inodes| then
        var got := |w.phase.data|;
        var now := d.inodes[w.phase.ino].content;
        if 0 < n && got + n <= w.phase.size && got + n <= |now|
        then
          var more := w.phase.data + now[got..got + n];
          Some((Loading(w.job, Reading(w.phase.ino, w.phase.size, w.phase.mtime, w.phase.same, more)), Keep))
        else None
      else None
    case EndRead =>
      // The whole stat'ed size is read, or the file ends here.
      if w.Loading? && w.phase.Reading? && w.phase.ino < |d.inodes|
         && (|w.phase.data| == w.phase.size || |d.inodes[w.phase.ino].content| <= |w.phase.data|)
      then Some((Loading(w.job, Finished(w.phase.size, w.phase.mtime, w.phase.same, w.phase.data)), Keep)) else None
    case ReadError =>
      // fread returns what it has; the code publishes that.
      if w.Loading? && w.phase.Reading? then
        var faithful := w.phase.same && !Unchanged(d, m, w);
        Some((Loading(w.job, Finished(w.phase.size, w.phase.mtime, faithful, w.phase.data)), Keep))
      else None
    case Fail =>
      if w.Loading? then
        match w.job
        case Reload(h, _) => Some((Loaded(h, None), Keep))
        case Add(_, _) => Some((Idle, DropWrite))
      else None
    case WriteUnlock => if w.Loaded? then Some((Relocking(w.hit, w.since), DropWrite)) else None
    case ReadLock => if w.Relocking? then Some((Serving(w.hit, w.since), TakeRead)) else None
    case SendHead =>
      if w.Serving? && w.hit.slot < |m.entries|
      then Some((HeadSent(w.hit, w.since, m.entries[w.hit.slot].size, m.entries[w.hit.slot].mime), Keep)) else None
    case StartBody =>
      if w.HeadSent? && w.hit.slot < |m.entries|
      then Some((Sending(w.hit, w.since, w.size, w.mime, m.entries[w.hit.slot].buf), Keep)) else None
    case ReadUnlock => if w.Sent? then Some((Idle, DropRead)) else None
  }

  /** The rwlock admits an operation of worker `i`. */
  predicate Admits(readers: set<nat>, writer: Option<nat>, op: LockOp) {
    match op
    case TakeRead => writer == None
    case TakeWrite => writer == None && readers == {}
    case _ => true
  }

  function Locked(s: State, i: nat, w: Worker, op: LockOp): State
    requires i < |s.workers|
  {
    var t := s.(workers := s.workers[i := w]);
    match op
    case Keep => t
    case TakeRead => t.(readers := s.readers + {i})
    case DropRead => t.(readers := s.readers - {i})
    case TakeWrite => t.(writer := Some(i))
    case DropWrite => t.(writer := None)
  }

  /** Free the old block of the slot and install the new one. */
  function Swap(m: Memory, e: nat, data: Bytes, faithful: bool): Memory
    requires e < |m.entries|
  {
    var was := m.entries[e];
    Memory(m.entries[e := was.(buf := m.nextBuf, size := |data|, faithful := faithful)],
           (m.heap - {was.buf})[m.nextBuf := data], m.nextBuf + 1,
           m.published + {Version(e, data, was.mime)})
  }

  /** A new entry; its MIME type is cut at 63 bytes. */
  function Append(m: Memory, p: Path, mime: string, data: Bytes, mtime: nat, faithful: bool): Memory {
    var kept := CStrings.Cut(63, mime);
    Memory(m.entries + [Slot(p, m.nextBuf, |data|, kept, mtime, faithful)],
           m.heap[m.nextBuf := data], m.nextBuf + 1,
           m.published + {Version(|m.entries|, data, kept)})
  }

  function Restamp(m: Memory, e: nat, mtime: nat): Memory
    requires e < |m.entries|
  {
    m.(entries := m.entries[e := m.entries[e].(lastModified := mtime)])
  }

  function Step(s: State, a: Action): Option<State> {
    match a
    case Write(ino, content, mtime) =>
      if ino < |s.disk.inodes| && s.disk.inodes[ino].mtime < mtime
      then Some(s.(disk := s.disk.(inodes := s.disk.inodes[ino := Inode(content, mtime)]))) else None
    case Link(p, content, mtime) =>
      if s.disk.Has(p) ==> s.disk.File(p).mtime < mtime
      then Some(s.(disk := Disk(s.disk.names[p := |s.disk.inodes|], s.disk.inodes + [Inode(content, mtime)]))) else None
    case Local(i, e) =>
      if i < |s.workers| then
        match LocalMove(s.disk, s.mem, s.workers[i], e)
        case Some((w, op)) => if Admits(s.readers, s.writer, op) then Some(Locked(s, i, w, op)) else None
        case None => None
      else None
    case Publish(i) =>
      if i < |s.workers| && s.workers[i].Loading? && s.workers[i].phase.Finished? then
        var ph := s.workers[i].phase;
        match s.workers[i].job
        case Reload(h, seen) =>
          if h.slot < |s.mem.entries|
          then Some(s.(mem := Swap(s.mem, h.slot, ph.data, ph.faithful),
                       workers := s.workers[i := Swapped(h, seen, ph.mtime)]))
          else None
        case Add(p, mime) =>
          Some(s.(mem := Append(s.mem, p, mime, ph.data, ph.mtime, ph.faithful),
               writer := None, workers := s.workers[i := Idle]))
      else None
    case Stamp(i) =>
      if i < |s.workers| && s.workers[i].Swapped? && s.workers[i].hit.slot < |s.mem.entries| then
        var w := s.workers[i];
        Some(s.(mem := Restamp(s.mem, w.hit.slot, w.mtime), workers := s.workers[i := Loaded(w.hit, Some(w.seen))]))
      else None
    case EndBody(i) =>
      if i < |s.workers| && s.workers[i].Sending? then
        var w := s.workers[i];
        var body := if w.buf in s.mem.heap then Some(s.mem.heap[w.buf]) else None;
        var response := Response(i, w.hit, w.size, w.mime, body);
        Some(s.(workers := s.workers[i := Sent(w.hit)], served := s.served + [response]))
      else None
  }

  ghost predicate Next(s: State, t: State) {
    exists a :: Step(s, a) == Some(t)
  }

  ghost predicate Initial(s: State) {
    && s.mem == Memory([], map[], 0, {})
    && s.readers == {} && s.writer == None && s.served == []
    && (forall p :: p in s.disk.names ==> s.disk.names[p] < |s.disk.inodes|)
    && forall i :: 0 <= i < |s.workers| ==> s.workers[i] == Idle
  }

  ghost predicate Run(run: seq<State>) {
    && run != [] && Initial(run[0])
    && forall k :: 0 <= k < |run| - 1 ==> Next(run[k], run[k + 1])
  }

  // ---------- The invariant ----------

  /** The block holds what the disk held, unless the disk has moved on since time `t`. */
  predicate FreshAt(d: Disk, p: Path, data: Bytes, t: nat) {
    d.Has(p) && t <= d.File(p).mtime && (t == d.File(p).mtime ==> data == d.File(p).content)
  }

  ghost predicate EntryOk(d: Disk, m: Memory, k: nat)
    requires k < |m.entries|
  {
    var e := m.entries[k];
    && |e.key| <= MAX_KEY
    && e.buf < m.nextBuf && e.buf in m.heap && |m.heap[e.buf]| == e.size
    && Version(k, m.heap[e.buf], e.mime) in m.published
    && d.Has(e.key) && e.lastModified <= d.File(e.key).mtime
    && (e.faithful ==> FreshAt(d, e.key, m.heap[e.buf], e.lastModified))
  }

  ghost predicate MemoryOk(d: Disk, m: Memory) {
    && |m.entries| <= MAX_CACHE_ENTRIES
    && (forall p :: p in d.names ==> d.names[p] < |d.inodes|)
    && (forall k :: 0 <= k < |m.entries| ==> EntryOk(d, m, k))
    && (forall j, k :: 0 <= j < k < |m.entries| ==> m.entries[j].buf != m.entries[k].buf)
  }

  ghost predicate PhaseOk(d: Disk, p: Path, ph: Phase) {
    match ph
    case Opening => true
    case HasFile(ino) => ino < |d.inodes| && d.Has(p)
    case Reading(ino, size, mtime, same, data) =>
      && ino < |d.inodes| && d.Has(p) && |data| <= size && mtime <= d.File(p).mtime
      && (same && mtime == d.File(p).mtime ==>
            ino == d.names[p] && size == |d.File(p).content| && data == d.File(p).content[..|data|])
    case Finished(size, mtime, faithful, data) =>
      && |data| <= size && Seen(d, p, mtime) && (faithful ==> FreshAt(d, p, data, mtime))
  }

  /** The slot still holds the path that was looked up. */
  ghost predicate HitOk(m: Memory, h: Hit) {
    h.slot < |m.entries| && m.entries[h.slot].key == h.path
  }

  /** A stat of the path saw time `seen`. */
  ghost predicate Seen(d: Disk, p: Path, seen: nat) {
    d.Has(p) && seen <= d.File(p).mtime
  }

  ghost predicate WorkerOk(d: Disk, m: Memory, w: Worker) {
    match w
    case Idle => true
    case Found(h) => HitOk(m, h)
    case Upgrading(h, seen) => HitOk(m, h) && Seen(d, h.path, seen)
    case Loading(Reload(h, seen), ph) =>
      && HitOk(m, h) && Seen(d, h.path, seen) && PhaseOk(d, h.path, ph)
      && (ph.Reading? || ph.Finished? ==> m.entries[h.slot].lastModified <= ph.mtime && seen <= ph.mtime)
    case Loading(Add(p, mime), ph) =>
      && |p| <= MAX_KEY && |m.entries| < MAX_CACHE_ENTRIES && PhaseOk(d, p, ph)
      && (ph.Reading? || ph.Finished? ==> ph.size <= MAX_CACHE_FILE_SIZE)
    case Swapped(h, seen, mtime) =>
      && HitOk(m, h) && m.entries[h.slot].buf in m.heap
      && m.entries[h.slot].lastModified <= mtime && seen <= mtime && Seen(d, h.path, mtime)
      && (m.entries[h.slot].faithful ==> FreshAt(d, h.path, m.heap[m.entries[h.slot].buf], mtime))
    case Loaded(h, since) => SinceOk(m, h, since)
    case Relocking(h, since) => SinceOk(m, h, since)
    case Serving(h, since) => SinceOk(m, h, since)
    case HeadSent(h, since, size, mime) =>
      SinceOk(m, h, since) && m.entries[h.slot].size == size && m.entries[h.slot].mime == mime
    case Sending(h, since, size, mime, buf) =>
      && SinceOk(m, h, since)
      && m.entries[h.slot].size == size && m.entries[h.slot].mime == mime && m.entries[h.slot].buf == buf
    case Sent(h) => HitOk(m, h)
  }

  /** The entry is at least as recent as the stat that led here. */
  ghost predicate SinceOk(m: Memory, h: Hit, since: Option<nat>) {
    HitOk(m, h) && (since.Some? ==> since.value <= m.entries[h.slot].lastModified)
  }

  ghost predicate LockOk(s: State) {
    && (forall i: nat :: i in s.readers <==> i < |s.workers| && HoldsRead(s.workers[i]))
    && (forall i: nat :: s.writer == Some(i) <==> i < |s.workers| && HoldsWrite(s.workers[i]))
    && (s.writer.Some? ==> s.readers == {})
  }

  ghost predicate ResponseOk(m: Memory, r: Response) {
    r.body.Some? && |r.body.value| == r.size && Version(r.hit.slot, r.body.value, r.mime) in m.published
  }

  ghost predicate Inv(s: State) {
    && LockOk(s)
    && MemoryOk(s.disk, s.mem)
    && (forall i :: 0 <= i < |s.workers| ==> WorkerOk(s.disk, s.mem, s.workers[i]))
    && (forall k :: 0 <= k < |s.served| ==> ResponseOk(s.mem, s.served[k]))
  }

  // ---------- Disk steps ----------

  lemma WriteAdvances(d: Disk, ino: nat, content: Bytes, mtime: nat)
    requires ino < |d.inodes| && d.inodes[ino].mtime < mtime
    ensures Advances(d, d.(inodes := d.inodes[ino := Inode(content, mtime)]))
  {
  }

  lemma LinkAdvances(d: Disk, p: Path, content: Bytes, mtime: nat)
    requires d.Has(p) ==> d.File(p).mtime < mtime
    ensures Advances(d, Disk(d.names[p := |d.inodes|], d.inodes + [Inode(content, mtime)]))
  {
  }

  lemma AdvanceEntry(d: Disk, d': Disk, m: Memory, k: nat)
    requires Advances(d, d') && k < |m.entries| && EntryOk(d, m, k)
    ensures EntryOk(d', m, k)
  {
  }

  lemma AdvancePhase(d: Disk, d': Disk, p: Path, ph: Phase)
    requires Advances(d, d') && PhaseOk(d, p, ph)
    ensures PhaseOk(d', p, ph)
  {
  }

  lemma AdvanceWorker(d: Disk, d': Disk, m: Memory, w: Worker)
    requires Advances(d, d') && WorkerOk(d, m, w)
    ensures WorkerOk(d', m, w)
  {
    match w
    case Loading(Reload(h, _), ph) => AdvancePhase(d, d', h.path, ph);
    case Loading(Add(p, _), ph) => AdvancePhase(d, d', p, ph);
    case _ =>
  }

  lemma DiskStep(s: State, d': Disk)
    requires Inv(s) && Advances(s.disk, d')
    requires forall p :: p in d'.names ==> d'.names[p] < |d'.inodes|
    ensures Inv(s.(disk := d'))
  {
    forall k | 0 <= k < |s.mem.entries| ensures EntryOk(d', s.mem, k) {
      AdvanceEntry(s.disk, d', s.mem, k);
    }
    forall i | 0 <= i < |s.workers| ensures WorkerOk(d', s.mem, s.workers[i]) {
      AdvanceWorker(s.disk, d', s.mem, s.workers[i]);
    }
  }

  // ---------- Local steps ----------

  /** The locks a worker holds change only by the lock operation. */
  predicate LockMatches(w: Worker, w': Worker, op: LockOp) {
    match op
    case Keep => HoldsRead(w') == HoldsRead(w) && HoldsWrite(w') == HoldsWrite(w)
    case TakeRead => !HoldsRead(w) && !HoldsWrite(w) && HoldsRead(w')
    case DropRead => HoldsRead(w) && !HoldsRead(w') && !HoldsWrite(w')
    case TakeWrite => !HoldsRead(w) && !HoldsWrite(w) && HoldsWrite(w')
    case DropWrite => HoldsWrite(w) && !HoldsRead(w') && !HoldsWrite(w')
  }

  lemma LocalLock(d: Disk, m: Memory, w: Worker, e: Event)
    requires LocalMove(d, m, w, e).Some?
    ensures LockMatches(w, LocalMove(d, m, w, e).value.0, LocalMove(d, m, w, e).value.1)
  {
  }

  /** The steps of a load: what stat and fread found stays true of the file until it changes. */
  lemma LoadingWorker(d: Disk, m: Memory, w: Worker, e: Event)
    requires MemoryOk(d, m) && WorkerOk(d, m, w) && LocalMove(d, m, w, e).Some?
    requires w.Loading?
    ensures WorkerOk(d, m, LocalMove(d, m, w, e).value.0)
  {
    hide Advances;
    if w.job.Reload? {
      assert EntryOk(d, m, w.job.hit.slot);
    }
  }

  /** The steps before a load. */
  lemma FindingWorker(d: Disk, m: Memory, w: Worker, e: Event)
    requires MemoryOk(d, m) && WorkerOk(d, m, w) && LocalMove(d, m, w, e).Some?
    requires w.Idle? || w.Found? || w.Upgrading?
    ensures WorkerOk(d, m, LocalMove(d, m, w, e).value.0)
  {
    hide Advances, FreshAt;
    if !w.Idle? {
      assert EntryOk(d, m, w.hit.slot);
    }
  }

  /** The steps after a load. */
  lemma ServingWorker(d: Disk, m: Memory, w: Worker, e: Event)
    requires WorkerOk(d, m, w) && LocalMove(d, m, w, e).Some?
    requires !w.Loading? && !w.Idle? && !w.Found? && !w.Upgrading?
    ensures WorkerOk(d, m, LocalMove(d, m, w, e).value.0)
  {
    hide PhaseOk, FreshAt;
  }

  lemma LocalWorker(d: Disk, m: Memory, w: Worker, e: Event)
    requires MemoryOk(d, m) && WorkerOk(d, m, w) && LocalMove(d, m, w, e).Some?
    ensures WorkerOk(d, m, LocalMove(d, m, w, e).value.0)
  {
    hide *;
    if w.Loading? {
      LoadingWorker(d, m, w, e);
    } else if w.Idle? || w.Found? || w.Upgrading? {
      FindingWorker(d, m, w, e);
    } else {
      ServingWorker(d, m, w, e);
    }
  }

  lemma LockedOk(s: State, i: nat, w: Worker, op: LockOp)
    requires LockOk(s) && i < |s.workers|
    requires LockMatches(s.workers[i], w, op) && Admits(s.readers, s.writer, op)
    ensures LockOk(Locked(s, i, w, op))
  {
  }

  lemma LocalStep(s: State, i: nat, e: Event, t: State)
    requires Inv(s) && Step(s, Local(i, e)) == Some(t)
    ensures Inv(t)
  {
    LocalLock(s.disk, s.mem, s.workers[i], e);
    LocalWorker(s.disk, s.mem, s.workers[i], e);
    var (w, op) := LocalMove(s.disk, s.mem, s.workers[i], e).value;
    LockedOk(s, i, w, op);
  }

  // ---------- Steps on the memory ----------

  /** A slot that differs, if at all, only where a reload writes, and never goes back in time. */
  predicate Successor(m: Memory, m': Memory) {
    && |m.entries| <= |m'.entries| && m.published <= m'.published
    && forall k :: 0 <= k < |m.entries| ==>
      && m'.entries[k].key == m.entries[k].key && m'.entries[k].mime == m.entries[k].mime
      && m.entries[k].lastModified <= m'.entries[k].lastModified
  }

  /** A worker that neither reads an entry nor loads one is indifferent to what others do to the memory. */
  lemma OutsiderKeeps(d: Disk, m: Memory, m': Memory, w: Worker)
    requires WorkerOk(d, m, w) && Successor(m, m') && !HoldsRead(w) && !HoldsWrite(w)
    ensures WorkerOk(d, m', w)
  {
  }

  /** The next block number is new. */
  lemma FreshBlock(d: Disk, m: Memory)
    requires MemoryOk(d, m)
    ensures forall k :: 0 <= k < |m.entries| ==> m.entries[k].buf < m.nextBuf
  {
    forall k | 0 <= k < |m.entries| ensures m.entries[k].buf < m.nextBuf {
      assert EntryOk(d, m, k);
    }
  }

  lemma PublishReload(s: State, i: nat, t: State)
    requires Inv(s) && i < |s.workers| && s.workers[i].Loading? && s.workers[i].job.Reload?
    requires Step(s, Publish(i)) == Some(t)
    ensures Inv(t) && Successor(s.mem, t.mem)
  {
    var w := s.workers[i];
    FreshBlock(s.disk, s.mem);
    assert WorkerOk(s.disk, s.mem, w) && s.writer == Some(i);
    forall k | 0 <= k < |t.mem.entries| ensures EntryOk(t.disk, t.mem, k) {
      assert EntryOk(s.disk, s.mem, k);
    }
    forall j | 0 <= j < |t.workers| ensures WorkerOk(t.disk, t.mem, t.workers[j]) {
      if j != i {
        OutsiderKeeps(s.disk, s.mem, t.mem, s.workers[j]);
      }
    }
  }

  lemma PublishAdd(s: State, i: nat, t: State)
    requires Inv(s) && i < |s.workers| && s.workers[i].Loading? && s.workers[i].job.Add?
    requires Step(s, Publish(i)) == Some(t)
    ensures Inv(t) && Successor(s.mem, t.mem)
  {
    var w := s.workers[i];
    FreshBlock(s.disk, s.mem);
    assert WorkerOk(s.disk, s.mem, w) && s.writer == Some(i);
    forall k | 0 <= k < |t.mem.entries| ensures EntryOk(t.disk, t.mem, k) {
      if k < |s.mem.entries| {
        assert EntryOk(s.disk, s.mem, k);
      }
    }
    forall j | 0 <= j < |t.workers| ensures WorkerOk(t.disk, t.mem, t.workers[j]) {
      if j != i {
        OutsiderKeeps(s.disk, s.mem, t.mem, s.workers[j]);
      }
    }
  }

  lemma StampStep(s: State, i: nat, t: State)
    requires Inv(s) && Step(s, Stamp(i)) == Some(t)
    ensures Inv(t) && Successor(s.mem, t.mem)
  {
    var w := s.workers[i];
    assert WorkerOk(s.disk, s.mem, w) && s.writer == Some(i);
    forall k | 0 <= k < |t.mem.entries| ensures EntryOk(t.disk, t.mem, k) {
      assert EntryOk(s.disk, s.mem, k);
    }
    forall j | 0 <= j < |t.workers| ensures WorkerOk(t.disk, t.mem, t.workers[j]) {
      if j != i {
        OutsiderKeeps(s.disk, s.mem, t.mem, s.workers[j]);
      }
    }
  }

  lemma EndBodyStep(s: State, i: nat, t: State)
    requires Inv(s) && Step(s, EndBody(i)) == Some(t)
    ensures Inv(t)
  {
    var w := s.workers[i];
    assert WorkerOk(s.disk, s.mem, w) && EntryOk(s.disk, s.mem, w.hit.slot);
  }

  lemma InvStep(s: State, t: State)
    requires Inv(s) && Next(s, t)
    ensures Inv(t) && Successor(s.mem, t.mem)
  {
    hide LocalMove, Swap, Append, Restamp, LockOk, WorkerOk, ResponseOk, Admits;
    var a :| Step(s, a) == Some(t);
    match a
    case Write(ino, content, mtime) =>
      WriteAdvances(s.disk, ino, content, mtime);
      DiskStep(s, t.disk);
    case Link(p, content, mtime) =>
      LinkAdvances(s.disk, p, content, mtime);
      DiskStep(s, t.disk);
    case Local(i, e) => LocalStep(s, i, e, t);
    case Publish(i) =>
      if s.workers[i].job.Reload? { PublishReload(s, i, t); } else { PublishAdd(s, i, t); }
    case Stamp(i) => StampStep(s, i, t);
    case EndBody(i) => EndBodyStep(s, i, t);
  }

  lemma {:induction false} RunInv(run: seq<State>, k: nat)
    requires Run(run) && k < |run|
    ensures Inv(run[k])
  {
    if k > 0 {
      RunInv(run, k - 1);
      assert Next(run[k - 1], run[k - 1 + 1]);
      InvStep(run[k - 1], run[k]);
    }
  }

  // ---------- The table of `Cache` ----------

  /** The answers of one load, in `Cache`'s terms. */
  function ProbeOf(ph: Phase): Cache.Probe
    requires ph.Finished?
  {
    Cache.Probe(true, Some(Cache.Stat(ph.size, ph.mtime)), true, ph.data)
  }

  /** Publishing an add is `Cache`'s insertion. */
  lemma AddIsAdded(s: State, i: nat, t: State)
    requires Inv(s) && Step(s, Publish(i)) == Some(t) && s.workers[i].job.Add?
    ensures var w := s.workers[i];
            ViewOf(t.mem) == Cache.Added(ViewOf(s.mem), w.job.path, w.job.mime, ProbeOf(w.phase))
  {
    assert WorkerOk(s.disk, s.mem, s.workers[i]);
    forall k | 0 <= k < |s.mem.entries| ensures ViewOf(t.mem)[k] == ViewOf(s.mem)[k] {
      assert EntryOk(s.disk, s.mem, k);
    }
  }

  /** While a worker loads, nobody else touches the table. */
  lemma WriterAlone(s: State, a: Action, t: State, i: nat)
    requires Inv(s) && s.writer == Some(i) && Step(s, a) == Some(t) && a != Publish(i) && a != Stamp(i)
    ensures t.mem == s.mem
  {
    hide LocalMove;
  }

  /** Publishing a reload and then stamping it, whatever the others do between, is `Cache`'s reload. */
  lemma ReloadIsReloaded(s: State, i: nat, t: State, u: State, v: State)
    requires Inv(s) && Step(s, Publish(i)) == Some(t) && s.workers[i].job.Reload?
    requires u.mem == t.mem && i < |u.workers| && u.workers[i] == t.workers[i] && Step(u, Stamp(i)) == Some(v)
    ensures var w := s.workers[i];
            && w.job.hit.slot < |s.mem.entries|
            && ViewOf(v.mem) == Cache.Reloaded(ViewOf(s.mem), w.job.hit.slot, ProbeOf(w.phase))
  {
    var w := s.workers[i];
    var e := w.job.hit.slot;
    assert WorkerOk(s.disk, s.mem, w) && EntryOk(s.disk, s.mem, e);
    forall k | 0 <= k < |s.mem.entries| && k != e ensures ViewOf(v.mem)[k] == ViewOf(s.mem)[k] {
      assert EntryOk(s.disk, s.mem, k);
    }
  }

  // ---------- The theorems ----------

  /** A run together with the actions that made it. */
  ghost predicate Trace(run: seq<State>, acts: seq<Action>) {
    && |run| == |acts| + 1 && Initial(run[0])
    && forall k :: 0 <= k < |acts| ==> Step(run[k], acts[k]) == Some(run[k + 1])
  }

  lemma TraceIsRun(run: seq<State>, acts: seq<Action>)
    requires Trace(run, acts)
    ensures Run(run)
  {
    hide Step, Initial;
    forall k | 0 <= k < |run| - 1 ensures Next(run[k], run[k + 1]) {
      assert Step(run[k], acts[k]) == Some(run[k + 1]);
    }
  }

  /** The worker is between the fopen and the stat of a load of the path. */
  predicate BetweenOpenAndStat(m: Memory, w: Worker, p: Path) {
    w.Loading? && w.phase.HasFile? && JobPath(m, w.job) == Some(p)
  }

  /** The action does not make a path name another inode while a load stands between its fopen and its stat. */
  predicate NotReplaced(s: State, a: Action) {
    a.Link? ==> forall i :: 0 <= i < |s.workers| ==> !BetweenOpenAndStat(s.mem, s.workers[i], a.path)
  }

  /** The action is not a read error, unless the file has changed since it was stat'ed. */
  predicate NoReadError(s: State, a: Action) {
    a.Local? && a.event.ReadError? && a.id < |s.workers|
    && s.workers[a.id].Loading? && s.workers[a.id].phase.Reading? ==>
      !Unchanged(s.disk, s.mem, s.workers[a.id])
  }

  /**
   Writes in place may come anywhere, and replacements anywhere except between the fopen and the stat
   of a load of the same path.
   */
  ghost predicate NeverReplacedInLoad(run: seq<State>, acts: seq<Action>)
    requires Trace(run, acts)
  {
    forall k :: 0 <= k < |acts| ==> NotReplaced(run[k], acts[k])
  }

  /** An fread may end where the file ends at that moment, but not on an error while the file is unchanged. */
  ghost predicate NeverReadError(run: seq<State>, acts: seq<Action>)
    requires Trace(run, acts)
  {
    forall k :: 0 <= k < |acts| ==> NoReadError(run[k], acts[k])
  }

  /** The opened inode is still the path's, what was stat'ed was the opened inode, and its read was faithful. */
  predicate SameFile(d: Disk, m: Memory, w: Worker) {
    w.Loading? ==>
      match w.phase
      case Opening => true
      case HasFile(ino) =>
        JobPath(m, w.job).Some? && JobPath(m, w.job).value in d.names && d.names[JobPath(m, w.job).value] == ino
      case Reading(_, _, _, same, _) => same
      case Finished(_, _, faithful, _) => faithful
  }

  ghost predicate FaithfulInv(s: State) {
    && (forall e :: 0 <= e < |s.mem.entries| ==> s.mem.entries[e].faithful)
    && (forall i :: 0 <= i < |s.workers| ==> SameFile(s.disk, s.mem, s.workers[i]))
  }

  lemma SameFileMove(d: Disk, m: Memory, w: Worker, e: Event)
    requires SameFile(d, m, w) && LocalMove(d, m, w, e).Some?
    requires e.ReadError? && w.Loading? && w.phase.Reading? ==> !Unchanged(d, m, w)
    ensures SameFile(d, m, LocalMove(d, m, w, e).value.0)
  {
    hide Cache.FirstMatch;
  }

  lemma FaithfulStep(s: State, a: Action, t: State)
    requires FaithfulInv(s) && Step(s, a) == Some(t) && NotReplaced(s, a) && NoReadError(s, a)
    ensures FaithfulInv(t)
  {
    hide LocalMove, Unchanged;
    match a
    case Local(i, e) =>
      assert SameFile(s.disk, s.mem, s.workers[i]);
      SameFileMove(s.disk, s.mem, s.workers[i], e);
    case Link(p, _, _) =>
      forall i | 0 <= i < |t.workers| ensures SameFile(t.disk, t.mem, t.workers[i]) {
        assert SameFile(s.disk, s.mem, s.workers[i]) && !BetweenOpenAndStat(s.mem, s.workers[i], p);
      }
    case Publish(i) => assert SameFile(s.disk, s.mem, s.workers[i]);
    case _ =>
  }

  lemma {:induction false} EveryLoadFaithful(run: seq<State>, acts: seq<Action>, k: nat)
    requires Trace(run, acts) && NeverReplacedInLoad(run, acts) && NeverReadError(run, acts) && k < |run|
    ensures FaithfulInv(run[k])
  {
    hide Step, NotReplaced, NoReadError;
    if k > 0 {
      EveryLoadFaithful(run, acts, k - 1);
      assert NotReplaced(run[k - 1], acts[k - 1]) && NoReadError(run[k - 1], acts[k - 1]);
      FaithfulStep(run[k - 1], acts[k - 1], run[k]);
    }
  }

  /**
   Freshness: in every reachable state the time of an entry is no later than the disk's, and when
   they are equal the entry holds what is on the disk, whatever was written in place between the
   system calls of the load.
   */
  lemma Freshness(run: seq<State>, acts: seq<Action>, k: nat, e: nat)
    requires Trace(run, acts) && NeverReplacedInLoad(run, acts) && NeverReadError(run, acts)
    requires k < |run| && e < |run[k].mem.entries|
    ensures var s := run[k]; var entry := s.mem.entries[e];
            && s.disk.Has(entry.key) && entry.buf in s.mem.heap
            && entry.lastModified <= s.disk.File(entry.key).mtime
            && (entry.lastModified == s.disk.File(entry.key).mtime ==>
                  s.mem.heap[entry.buf] == s.disk.File(entry.key).content)
  {
    hide Trace, NeverReplacedInLoad, NeverReadError;
    TraceIsRun(run, acts);
    RunInv(run, k);
    EveryLoadFaithful(run, acts, k);
    assert EntryOk(run[k].disk, run[k].mem, e);
  }

  /**
   A request whose stat, and reload if it needed one, succeeded: at every moment of the send, if the
   file at the requested path has not changed since that stat, the bytes being sent are the file's.
   */
  lemma ServedBytesAreFresh(run: seq<State>, acts: seq<Action>, k: nat, i: nat)
    requires Trace(run, acts) && NeverReplacedInLoad(run, acts) && NeverReadError(run, acts)
    requires k < |run| && i < |run[k].workers| && run[k].workers[i].Sending? && run[k].workers[i].since.Some?
    ensures var s := run[k]; var w := s.workers[i];
            && s.disk.Has(w.hit.path)
            && (s.disk.File(w.hit.path).mtime == w.since.value ==>
                  w.buf in s.mem.heap && s.mem.heap[w.buf] == s.disk.File(w.hit.path).content)
  {
    hide Trace, NeverReplacedInLoad, NeverReadError;
    TraceIsRun(run, acts);
    RunInv(run, k);
    assert WorkerOk(run[k].disk, run[k].mem, run[k].workers[i]);
    Freshness(run, acts, k, run[k].workers[i].hit.slot);
  }

  lemma SuccessorSelf(m: Memory)
    ensures Successor(m, m)
  {
  }

  lemma SuccessorTransitive(m1: Memory, m2: Memory, m3: Memory)
    requires Successor(m1, m2) && Successor(m2, m3)
    ensures Successor(m1, m3)
  {
  }

  lemma RunStep(run: seq<State>, k: nat)
    requires Run(run) && k + 1 < |run|
    ensures Successor(run[k].mem, run[k + 1].mem)
  {
    RunInv(run, k);
    assert Next(run[k], run[k + 1]);
    InvStep(run[k], run[k + 1]);
  }

  /** Slots keep their key and MIME type, are never removed, and never go back in time. */
  lemma {:induction false} SlotsOnlyAdvance(run: seq<State>, j: nat, k: nat)
    requires Run(run) && j <= k < |run|
    ensures Successor(run[j].mem, run[k].mem)
    decreases k - j
  {
    hide Run, Successor;
    SuccessorSelf(run[j].mem);
    if j < k {
      SlotsOnlyAdvance(run, j, k - 1);
      RunStep(run, k - 1);
      SuccessorTransitive(run[j].mem, run[k - 1].mem, run[k].mem);
    }
  }

  lemma AtMost32Entries(run: seq<State>, k: nat)
    requires Run(run) && k < |run|
    ensures |run[k].mem.entries| <= MAX_CACHE_ENTRIES
  {
    RunInv(run, k);
  }

  /**
   Lock safety: a worker inside hot_reload or add excludes every other holder, and a worker that is
   done with its request holds nothing.
   */
  lemma LockSafety(run: seq<State>, k: nat, i: nat, j: nat)
    requires Run(run) && k < |run| && i < |run[k].workers| && j < |run[k].workers| && i != j
    ensures HoldsWrite(run[k].workers[i]) ==> !HoldsRead(run[k].workers[j]) && !HoldsWrite(run[k].workers[j])
    ensures run[k].workers[i].Idle? ==> i !in run[k].readers && run[k].writer != Some(i)
  {
    RunInv(run, k);
  }

  /** The block that a worker is sending is live and is the one its header described. */
  lemma NeverFreedWhileSent(run: seq<State>, k: nat, i: nat)
    requires Run(run) && k < |run| && i < |run[k].workers| && run[k].workers[i].Sending?
    ensures var w := run[k].workers[i];
            && w.buf in run[k].mem.heap && |run[k].mem.heap[w.buf]| == w.size
            && Version(w.hit.slot, run[k].mem.heap[w.buf], w.mime) in run[k].mem.published
  {
    RunInv(run, k);
    assert WorkerOk(run[k].disk, run[k].mem, run[k].workers[i]);
    assert EntryOk(run[k].disk, run[k].mem, run[k].workers[i].hit.slot);
  }

  /** Every response's length, type and bytes come from one and the same add or reload. */
  lemma SnapshotConsistency(run: seq<State>, k: nat, r: nat)
    requires Run(run) && k < |run| && r < |run[k].served|
    ensures ResponseOk(run[k].mem, run[k].served[r])
  {
    RunInv(run, k);
  }

  // ---------- Why neither condition can be dropped ----------

  /** One worker, and one file "f" written at time 1. */
  function OneFile(content: Bytes): State {
    State(Disk(map["f" := 0], [Inode(content, 1)]), Memory([], map[], 0, {}), {}, None, [Idle], [])
  }

  /** The worker adding that file, in a phase of the load. */
  function AddingFile(disk: Disk, phase: Phase): State {
    State(disk, Memory([], map[], 0, {}), {}, Some(0), [Loading(Add("f", "text/html"), phase)], [])
  }

  /** The one entry pairs other bytes with the file's present time. */
  predicate LooksFreshButIsNot(s: State) {
    && |s.mem.entries| == 1 && s.disk.Has(s.mem.entries[0].key)
    && s.mem.entries[0].lastModified == s.disk.File(s.mem.entries[0].key).mtime
    && s.mem.entries[0].buf in s.mem.heap
    && s.mem.heap[s.mem.entries[0].buf] != s.disk.File(s.mem.entries[0].key).content
  }

  /** One more action at the end of a run. */
  lemma Extend(run: seq<State>, acts: seq<Action>, a: Action, t: State)
    requires Trace(run, acts) && Step(run[|run| - 1], a) == Some(t)
    ensures Trace(run + [t], acts + [a])
    ensures NeverReplacedInLoad(run, acts) && NotReplaced(run[|run| - 1], a) ==>
              NeverReplacedInLoad(run + [t], acts + [a])
    ensures NeverReadError(run, acts) && NoReadError(run[|run| - 1], a) ==> NeverReadError(run + [t], acts + [a])
  {
    hide Step, Initial, NotReplaced, NoReadError;
  }

  /** The file has been opened for the add. */
  lemma OpenedRun(content: Bytes) returns (run: seq<State>, acts: seq<Action>)
    ensures Trace(run, acts) && |acts| == 2 && run[2] == AddingFile(OneFile(content).disk, HasFile(0))
    ensures NeverReplacedInLoad(run, acts) && NeverReadError(run, acts)
  {
    var s0 := OneFile(content);
    var job := Add("f", "text/html");
    assert [Idle][0 := Loading(job, Opening)] == [Loading(job, Opening)];
    assert [Loading(job, Opening)][0 := Loading(job, HasFile(0))] == [Loading(job, HasFile(0))];
    var s1, s2 := AddingFile(s0.disk, Opening), AddingFile(s0.disk, HasFile(0));
    run, acts := [s0, s1, s2], [Local(0, StartAdd("f", "text/html")), Local(0, Open)];
    assert Step(s0, acts[0]) == Some(s1);
    assert Step(s1, acts[1]) == Some(s2);
  }

  /** The published entry when the read has not got a byte. */
  function AddedEmpty(disk: Disk, mtime: nat, faithful: bool): State {
    State(disk, Append(Memory([], map[], 0, {}), "f", "text/html", "", mtime, faithful), {}, None, [Idle], [])
  }

  lemma PublishEmpty(disk: Disk, size: nat, mtime: nat, faithful: bool)
    ensures Step(AddingFile(disk, Finished(size, mtime, faithful, "")), Publish(0)) ==
            Some(AddedEmpty(disk, mtime, faithful))
  {
    var w := Loading(Add("f", "text/html"), Finished(size, mtime, faithful, ""));
    assert [w][0 := Idle] == [Idle];
  }

  /** The fread that ends at once, on the end of the opened inode or on an error. */
  lemma EndOfRead(disk: Disk, size: nat, mtime: nat, same: bool, e: Event)
    requires disk.Has("f") && disk.File("f").mtime == mtime
    requires e.ReadError? || (e.EndRead? && |disk.inodes| > 0 && disk.inodes[0].content == "")
    ensures Step(AddingFile(disk, Reading(0, size, mtime, same, "")), Local(0, e)) ==
            Some(AddingFile(disk, Finished(size, mtime, same && e.EndRead?, "")))
  {
    var job := Add("f", "text/html");
    var w, w' := Loading(job, Reading(0, size, mtime, same, "")),
                 Loading(job, Finished(size, mtime, same && e.EndRead?, ""));
    assert [w][0 := w'] == [w'];
  }

  /**
   Stat before fread is not enough when the file is replaced by rename between fopen and stat: the
   entry then pairs the old inode's bytes with the new inode's time, and keeps looking fresh.
   */
  lemma RenameBreaksFreshness() returns (run: seq<State>, acts: seq<Action>)
    ensures Trace(run, acts) && NeverReadError(run, acts) && LooksFreshButIsNot(run[|run| - 1])
  {
    hide Step, AddedEmpty, NeverReadError;
    run, acts := OpenedRun("");
    var disk := Disk(map["f" := 1], [Inode("", 1), Inode("new", 2)]);
    var s3, s4 := AddingFile(disk, HasFile(0)), AddingFile(disk, Reading(0, 3, 2, false, ""));
    var s5 := AddingFile(disk, Finished(3, 2, false, ""));
    ReplacedSteps();
    Extend(run, acts, Link("f", "new", 2), s3);
    Extend(run + [s3], acts + [Link("f", "new", 2)], Local(0, Stat), s4);
    run, acts := run + [s3] + [s4], acts + [Link("f", "new", 2)] + [Local(0, Stat)];
    EndOfRead(disk, 3, 2, false, EndRead);
    Extend(run, acts, Local(0, EndRead), s5);
    run, acts := run + [s5], acts + [Local(0, EndRead)];
    PublishEmpty(disk, 3, 2, false);
    EmptyIsNot(disk, 2, false);
    Extend(run, acts, Publish(0), AddedEmpty(disk, 2, false));
    run, acts := run + [AddedEmpty(disk, 2, false)], acts + [Publish(0)];
  }

  lemma ReplacedSteps()
    ensures var disk := Disk(map["f" := 1], [Inode("", 1), Inode("new", 2)]);
            && Step(AddingFile(OneFile("").disk, HasFile(0)), Link("f", "new", 2)) == Some(AddingFile(disk, HasFile(0)))
            && Step(AddingFile(disk, HasFile(0)), Local(0, Stat)) ==
               Some(AddingFile(disk, Reading(0, 3, 2, false, "")))
  {
    hide LocalMove;
    var disk := Disk(map["f" := 1], [Inode("", 1), Inode("new", 2)]);
    assert map["f" := 0]["f" := 1] == map["f" := 1];
    assert [Inode("", 1)] + [Inode("new", 2)] == disk.inodes;
    StatInAdding(disk, 3, 2, false);
  }

  /** The stat of the load. */
  lemma StatInAdding(disk: Disk, size: nat, mtime: nat, same: bool)
    requires disk.Has("f") && disk.File("f") == Inode(disk.File("f").content, mtime)
    requires size == |disk.File("f").content| <= 3 && same == (disk.names["f"] == 0)
    ensures Step(AddingFile(disk, HasFile(0)), Local(0, Stat)) ==
            Some(AddingFile(disk, Reading(0, size, mtime, same, "")))
  {
    var job := Add("f", "text/html");
    assert [Loading(job, HasFile(0))][0 := Loading(job, Reading(0, size, mtime, same, ""))] ==
           [Loading(job, Reading(0, size, mtime, same, ""))];
  }

  /** Nor when fread stops early on an error. */
  lemma ShortReadBreaksFreshness() returns (run: seq<State>, acts: seq<Action>)
    ensures Trace(run, acts) && NeverReplacedInLoad(run, acts) && LooksFreshButIsNot(run[|run| - 1])
  {
    hide Step, AddedEmpty, NeverReplacedInLoad;
    run, acts := OpenedRun("old");
    var disk := OneFile("old").disk;
    var s3, s4 := AddingFile(disk, Reading(0, 3, 1, true, "")), AddingFile(disk, Finished(3, 1, false, ""));
    StatInAdding(disk, 3, 1, true);
    Extend(run, acts, Local(0, Stat), s3);
    run, acts := run + [s3], acts + [Local(0, Stat)];
    EndOfRead(disk, 3, 1, true, ReadError);
    Extend(run, acts, Local(0, ReadError), s4);
    run, acts := run + [s4], acts + [Local(0, ReadError)];
    PublishEmpty(disk, 3, 1, false);
    EmptyIsNot(disk, 1, false);
    Extend(run, acts, Publish(0), AddedEmpty(disk, 1, false));
    run, acts := run + [AddedEmpty(disk, 1, false)], acts + [Publish(0)];
  }

  lemma EmptyIsNot(disk: Disk, mtime: nat, faithful: bool)
    requires disk.Has("f") && disk.File("f").mtime == mtime && disk.File("f").content != ""
    ensures LooksFreshButIsNot(AddedEmpty(disk, mtime, faithful))
  {
  }
}
