/**
 The RAM cache as one thread sees it: `lith_cache_add`, `lith_cache_lookup` and
 `lith_cache_hot_reload`, with the lock that the calling thread holds after each.
 `CacheProtocol` has the interleavings.
 */
module Cache {
  import opened Wrappers
  import opened CStrings

  const MAX_CACHE_ENTRIES := 32
  const MAX_CACHE_FILE_SIZE := 1024 * 1024

  /** `size` is the length of `content`. */
  datatype Entry = Entry(filepath: string, content: string, mime: string, lastModified: int, active: bool)

  datatype Stat = Stat(size: nat, mtime: int)

  /** What fopen, stat, malloc and fread answer during one load. */
  datatype Probe = Probe(openOk: bool, stat: Option<Stat>, mallocOk: bool, data: string)

  /** What the calling thread holds. */
  datatype Lock = Unlocked | ReadLocked | WriteLocked

  // ---------- Specification ----------

  /** The earliest active entry with the key. */
  function FirstMatch(view: seq<Entry>, filepath: string): (r: Option<nat>)
    ensures r.Some? ==> r.value < |view| && view[r.value].active && view[r.value].filepath == filepath
    ensures r.Some? ==> forall j :: 0 <= j < r.value ==> !(view[j].active && view[j].filepath == filepath)
    ensures r.None? ==> forall j :: 0 <= j < |view| ==> !(view[j].active && view[j].filepath == filepath)
  {
    if view == [] then None
    else if view[0].active && view[0].filepath == filepath then Some(0)
    else match FirstMatch(view[1..], filepath) case None => None case Some(j) => Some(j + 1)
  }

  /** The return code of an add; the tests come in this order. */
  function AddCode(view: seq<Entry>, p: Probe): int {
    if |view| >= MAX_CACHE_ENTRIES then -1
    else if !p.openOk then -2
    else if p.stat == None then -5
    else if p.stat.value.size > MAX_CACHE_FILE_SIZE then -3
    else if !p.mallocOk then -4
    else 0
  }

  /** fread into a block of the stat'ed size. */
  function ReadBytes(p: Probe): string
    requires p.stat.Some?
  {
    Cut(p.stat.value.size, p.data)
  }

  function NewEntry(filepath: string, mime: string, p: Probe): Entry
    requires p.stat.Some?
  {
    Entry(Cut(255, filepath), ReadBytes(p), Cut(63, mime), p.stat.value.mtime, true)
  }

  function Added(view: seq<Entry>, filepath: string, mime: string, p: Probe): seq<Entry> {
    if AddCode(view, p) == 0 then view + [NewEntry(filepath, mime, p)] else view
  }

  function ReloadOk(p: Probe): bool {
    p.openOk && p.stat.Some? && p.mallocOk
  }

  function Reloaded(view: seq<Entry>, idx: nat, p: Probe): seq<Entry>
    requires idx < |view|
  {
    if ReloadOk(p)
    then view[idx := view[idx].(content := ReadBytes(p), lastModified := p.stat.value.mtime)]
    else view
  }

  // ---------- The code ----------

  class LithCache {
    const entries: array<Entry>
    var entryCount: nat
    var lock: Lock

    ghost predicate Valid()
      reads this
    {
      entries.Length == MAX_CACHE_ENTRIES && entryCount <= MAX_CACHE_ENTRIES
    }

    ghost function View(): seq<Entry>
      requires Valid()
      reads this, entries
    {
      entries[..entryCount]
    }

    constructor ()
      ensures Valid() && View() == [] && lock == Unlocked && fresh(entries)
    {
      entries := new Entry[MAX_CACHE_ENTRIES](_ => Entry("", "", "", 0, false));
      entryCount, lock := 0, Unlocked;
    }

    /** A thread takes the lock only when it holds nothing. */
    method RdLock()
      requires lock == Unlocked
      modifies this`lock
      ensures lock == ReadLocked
    {
      lock := ReadLocked;
    }

    method WrLock()
      requires lock == Unlocked
      modifies this`lock
      ensures lock == WriteLocked
    {
      lock := WriteLocked;
    }

    method Unlock()
      requires lock != Unlocked
      modifies this`lock
      ensures lock == Unlocked
    {
      lock := Unlocked;
    }

    /** What the other workers did while this one held no lock: the table is `view` now. */
    method OthersRan(view: seq<Entry>)
      requires Valid() && lock == Unlocked && |view| <= MAX_CACHE_ENTRIES
      modifies this`entryCount, entries
      ensures Valid() && lock == Unlocked && View() == view
    {
      forall i | 0 <= i < |view| {
        entries[i] := view[i];
      }
      entryCount := |view|;
    }

    /** An entry may be looked at only under a lock. */
    method Get(idx: nat) returns (e: Entry)
      requires Valid() && lock != Unlocked && idx < entryCount
      ensures e == View()[idx]
    {
      e := entries[idx];
    }

    method Add(filepath: string, mime: string, p: Probe) returns (code: int)
      requires Valid() && lock == Unlocked
      modifies this, entries
      ensures Valid() && lock == Unlocked
      ensures code == AddCode(old(View()), p)
      ensures View() == Added(old(View()), filepath, mime, p)
    {
      WrLock();
      if entryCount >= MAX_CACHE_ENTRIES {
        Unlock();
        return -1;
      }
      if !p.openOk {
        Unlock();
        return -2;
      }
      if p.stat == None {
        Unlock();
        return -5;
      }
      if p.stat.value.size > MAX_CACHE_FILE_SIZE {
        Unlock();
        return -3;
      }
      if !p.mallocOk {
        Unlock();
        return -4;
      }
      var idx := entryCount;
      entries[idx] := Entry(Cut(255, filepath), ReadBytes(p), Cut(63, mime), p.stat.value.mtime, true);
      entryCount := entryCount + 1;
      Unlock();
      return 0;
    }

    /** Returns an index that stands for the entry's address, and then keeps the read lock. */
    method Lookup(filepath: string) returns (r: Option<nat>)
      requires Valid() && lock == Unlocked
      modifies this`lock
      ensures Valid() && View() == old(View())
      ensures r == FirstMatch(View(), filepath)
      ensures lock == if r.Some? then ReadLocked else Unlocked
    {
      RdLock();
      var i := 0;
      while i < entryCount
        invariant 0 <= i <= entryCount && lock == ReadLocked
        invariant forall j :: 0 <= j < i ==> !(entries[j].active && entries[j].filepath == filepath)
      {
        if entries[i].active && entries[i].filepath == filepath {
          FirstMatchIs(View(), filepath, i);
          return Some(i);
        }
        i := i + 1;
      }
      Unlock();
      return None;
    }

    /** To be called under the write lock; it neither takes nor drops it. */
    method HotReload(idx: nat, p: Probe) returns (ok: bool)
      requires Valid() && lock == WriteLocked && idx < entryCount
      modifies entries
      ensures Valid() && ok == ReloadOk(p)
      ensures View() == Reloaded(old(View()), idx, p)
    {
      if !p.openOk {
        return false;
      }
      if p.stat == None {
        return false;
      }
      if !p.mallocOk {
        return false;
      }
      entries[idx] := entries[idx].(content := ReadBytes(p), lastModified := p.stat.value.mtime);
      return true;
    }
  }

  lemma FirstMatchIs(view: seq<Entry>, filepath: string, i: nat)
    requires i < |view| && view[i].active && view[i].filepath == filepath
    requires forall j :: 0 <= j < i ==> !(view[j].active && view[j].filepath == filepath)
    ensures FirstMatch(view, filepath) == Some(i)
  {
  }

  // ---------- Properties ----------

  /** The return codes, each by the first thing that fails, and what an add leaves in the table. */
  lemma AddMeaning(view: seq<Entry>, filepath: string, mime: string, p: Probe)
    ensures var code, full := AddCode(view, p), 32 <= |view|;
            var large := p.stat.Some? && 1048576 < p.stat.value.size;
            && (code == -1 <==> full)
            && (code == -2 <==> !full && !p.openOk)
            && (code == -5 <==> !full && p.openOk && p.stat == None)
            && (code == -3 <==> !full && p.openOk && large)
            && (code == -4 <==> !full && p.openOk && p.stat.Some? && !large && !p.mallocOk)
            && (code == 0 <==> !full && p.openOk && p.stat.Some? && !large && p.mallocOk)
    ensures var after := Added(view, filepath, mime, p);
            if AddCode(view, p) != 0 then after == view
            else after == view + [Entry(Cut(255, filepath), Cut(p.stat.value.size, p.data), Cut(63, mime),
                                        p.stat.value.mtime, true)]
  {
  }

  /** A reload changes nothing when a call fails, and else just the bytes and the time of its slot. */
  lemma ReloadMeaning(view: seq<Entry>, idx: nat, p: Probe)
    requires idx < |view|
    ensures !p.openOk || p.stat == None || !p.mallocOk ==> !ReloadOk(p) && Reloaded(view, idx, p) == view
    ensures p.openOk && p.stat.Some? && p.mallocOk ==>
              var after := Reloaded(view, idx, p);
              && ReloadOk(p) && |after| == |view| && (forall j :: 0 <= j < |view| && j != idx ==> after[j] == view[j])
              && after[idx].filepath == view[idx].filepath && after[idx].mime == view[idx].mime
              && after[idx].active == view[idx].active
              && after[idx].content == Cut(p.stat.value.size, p.data) && after[idx].lastModified == p.stat.value.mtime
  {
  }

  /** An add is an insertion at the end: it answers for its key only if no earlier entry does. */
  lemma LookupAfterAdd(view: seq<Entry>, filepath: string, mime: string, p: Probe, q: string)
    ensures FirstMatch(Added(view, filepath, mime, p), q) ==
            if FirstMatch(view, q) == None && AddCode(view, p) == 0 && q == Cut(255, filepath)
            then Some(|view|) else FirstMatch(view, q)
  {
    var after := Added(view, filepath, mime, p);
    if AddCode(view, p) == 0 {
      assert after[..|view|] == view;
      match FirstMatch(view, q)
      case Some(i) =>
        assert forall j :: 0 <= j < i ==> after[j] == view[j];
        FirstMatchIs(after, q, i);
      case None =>
        assert forall j :: 0 <= j < |view| ==> after[j] == view[j];
        if q == Cut(255, filepath) {
          FirstMatchIs(after, q, |view|);
        }
    }
  }

  datatype Op =
    | AddOp(filepath: string, mime: string, probe: Probe)
    | ReloadOp(idx: nat, probe: Probe)

  function Perform(view: seq<Entry>, op: Op): seq<Entry> {
    match op
    case AddOp(filepath, mime, p) => Added(view, filepath, mime, p)
    case ReloadOp(idx, p) => if idx < |view| then Reloaded(view, idx, p) else view
  }

  function PerformAll(view: seq<Entry>, ops: seq<Op>): seq<Entry>
    decreases |ops|
  {
    if ops == [] then view else PerformAll(Perform(view, ops[0]), ops[1..])
  }

  /** The table only grows, to 32 entries, and no slot ever changes its key or MIME type. */
  predicate Extends(view: seq<Entry>, after: seq<Entry>) {
    && |view| <= |after|
    && forall i :: 0 <= i < |view| ==>
         after[i].filepath == view[i].filepath && after[i].mime == view[i].mime && after[i].active == view[i].active
  }

  lemma {:induction false} RunsExtend(view: seq<Entry>, ops: seq<Op>)
    requires |view| <= MAX_CACHE_ENTRIES
    ensures |PerformAll(view, ops)| <= MAX_CACHE_ENTRIES && Extends(view, PerformAll(view, ops))
    decreases |ops|
  {
    if ops != [] {
      RunsExtend(Perform(view, ops[0]), ops[1..]);
    }
  }

  /** So a lookup that succeeds keeps giving the same slot, whatever is added or reloaded meanwhile. */
  lemma LookupIsStable(view: seq<Entry>, ops: seq<Op>, q: string)
    requires |view| <= MAX_CACHE_ENTRIES && FirstMatch(view, q).Some?
    ensures FirstMatch(PerformAll(view, ops), q) == FirstMatch(view, q)
  {
    RunsExtend(view, ops);
    FirstMatchIs(PerformAll(view, ops), q, FirstMatch(view, q).value);
  }
}
