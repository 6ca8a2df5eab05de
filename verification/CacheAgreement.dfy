/**
 The two views of the cache brought together: in every reachable state of the interleaved protocol,
 what the router would answer from the cache is what it would answer from the disk.
 */
module CacheAgreement {
  import opened Wrappers
  import opened CacheProtocol
  import Cache
  import Framing
  import HttpParser
  import Paths
  import Router

  /** The disk as `Router` has it: what each path leads to. */
  function DiskOf(d: Disk): Router.Disk {
    map p | p in d.names && d.Has(p) :: Router.File(d.File(p).content, d.File(p).mtime)
  }

  /** An add names the type that the file's name has, as the two adds of the server do. */
  predicate TypedAdd(a: Action) {
    a.Local? && a.event.StartAdd? ==> a.event.mime == HttpParser.GetMimeType(a.event.path)
  }

  /** The runs of the server: in-place writes under its loads, no read errors, and typed adds. */
  ghost predicate ServerRun(run: seq<State>, acts: seq<Action>) {
    && Trace(run, acts) && NeverReplacedInLoad(run, acts) && NeverReadError(run, acts)
    && forall k :: 0 <= k < |acts| ==> TypedAdd(acts[k])
  }

  /** Entries, and the entries to come, carry the type of their name. */
  ghost predicate TypedInv(s: State) {
    && (forall e :: 0 <= e < |s.mem.entries| ==> s.mem.entries[e].mime == HttpParser.GetMimeType(s.mem.entries[e].key))
    && (forall i :: 0 <= i < |s.workers| ==> TypedWorker(s.workers[i]))
  }

  predicate TypedWorker(w: Worker) {
    w.Loading? && w.job.Add? ==> w.job.mime == HttpParser.GetMimeType(w.job.path)
  }

  lemma TypedMove(d: Disk, m: Memory, w: Worker, i: nat, e: Event)
    requires TypedWorker(w) && LocalMove(d, m, w, e).Some? && TypedAdd(Local(i, e))
    ensures TypedWorker(LocalMove(d, m, w, e).value.0)
  {
    hide HttpParser.GetMimeType, Cache.FirstMatch;
  }

  lemma TypedStep(s: State, a: Action, t: State)
    requires TypedInv(s) && Step(s, a) == Some(t) && TypedAdd(a)
    ensures TypedInv(t)
  {
    hide LocalMove, HttpParser.GetMimeType;
    match a
    case Local(i, e) =>
      assert TypedWorker(s.workers[i]);
      TypedMove(s.disk, s.mem, s.workers[i], i, e);
    case Publish(i) => assert TypedWorker(s.workers[i]);
    case _ =>
  }

  lemma {:induction false} EveryEntryTyped(run: seq<State>, acts: seq<Action>, k: nat)
    requires ServerRun(run, acts) && k < |run|
    ensures TypedInv(run[k])
  {
    hide Step, HttpParser.GetMimeType, NeverReplacedInLoad, NeverReadError;
    if k > 0 {
      EveryEntryTyped(run, acts, k - 1);
      TypedStep(run[k - 1], acts[k - 1], run[k]);
    }
  }

  lemma ReachableAgrees(run: seq<State>, acts: seq<Action>, k: nat)
    requires ServerRun(run, acts) && k < |run|
    ensures Router.Agrees(ViewOf(run[k].mem), DiskOf(run[k].disk))
    ensures forall i :: 0 <= i < |run[k].mem.entries| ==> run[k].mem.entries[i].key in DiskOf(run[k].disk)
  {
    hide HttpParser.GetMimeType, Trace, NeverReplacedInLoad, NeverReadError;
    EveryEntryTyped(run, acts, k);
    forall e | 0 <= e < |run[k].mem.entries|
      ensures var s := run[k]; var entry := s.mem.entries[e];
              && s.disk.Has(entry.key) && entry.buf in s.mem.heap
              && entry.lastModified <= s.disk.File(entry.key).mtime
              && (entry.lastModified == s.disk.File(entry.key).mtime ==>
                    s.mem.heap[entry.buf] == s.disk.File(entry.key).content)
    {
      Freshness(run, acts, k, e);
    }
  }

  /**
   Cache transparency over every run: at any moment of any interleaving, a GET answered through the
   cache gets the bytes that the disk alone would give it.
   */
  lemma TransparentInEveryRun(run: seq<State>, acts: seq<Action>, k: nat, req: HttpParser.Request, dir: string,
                              pages: Router.Pages)
    requires ServerRun(run, acts) && k < |run|
    requires req.httpMethod == HttpParser.GET && Paths.IsSafePath(req.path)
    ensures var s := Router.Still(ViewOf(run[k].mem), DiskOf(run[k].disk), Paths.Join(dir, req.path));
            Router.Route(req, dir, 1, s, pages) == Router.Route(req, dir, 0, s, pages)
  {
    hide Router.Agrees, Router.Route, DiskOf, ServerRun;
    ReachableAgrees(run, acts, k);
    Router.TransparencyIff(ViewOf(run[k].mem), DiskOf(run[k].disk), req, dir, pages);
  }

  /**
   The same for a response that is being sent while disk and workers move on: as long as the file at
   the requested path has not changed since the request's stat, head and block are the disk fallback's.
   */
  lemma SentAsFromDisk(run: seq<State>, acts: seq<Action>, k: nat, i: nat, keepAlive: bool, pages: Router.Pages)
    requires ServerRun(run, acts) && k < |run|
    requires i < |run[k].workers| && run[k].workers[i].Sending? && run[k].workers[i].since.Some?
    ensures var s := run[k]; var w := s.workers[i]; var path := w.hit.path;
            && w.buf in s.mem.heap && s.disk.Has(path)
            && (s.disk.File(path).mtime == w.since.value ==>
                  && w.size == |s.disk.File(path).content|
                  && Framing.Ok(w.mime, s.mem.heap[w.buf], keepAlive) ==
                     Router.FileResponse(Router.OnDisk(s.disk.File(path).content), path, keepAlive, pages))
  {
    hide Framing.Ok, Framing.Error, HttpParser.GetMimeType, Trace, NeverReplacedInLoad, NeverReadError;
    TraceIsRun(run, acts);
    ServedBytesAreFresh(run, acts, k, i);
    NeverFreedWhileSent(run, k, i);
    EveryEntryTyped(run, acts, k);
    RunInv(run, k);
    assert WorkerOk(run[k].disk, run[k].mem, run[k].workers[i]);
  }
}
