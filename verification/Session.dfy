/**
 The keep-alive session of `lith_client_handler`: reading requests, completing POST bodies,
 answering, and deciding when to stop.
 */
module Session {
  import opened Wrappers
  import opened CStrings
  import opened Decimal
  import opened HttpParser
  import opened Framing
  import opened RequestText
  import opened Router
  import Cache

  const BUFFER_SIZE := 4096

  // ---------- The peer ----------

  /**
   What the peer sends, cut into the pieces that SSL_read finds waiting; an empty piece is a read
   that fails (the 3-second timeout, say).  Every behaviour of SSL_read is one of these scripts.
   */
  type Script = seq<string>

  function Size(script: Script): nat {
    if script == [] then 0 else |script[0]| + 1 + Size(script[1..])
  }

  /** The bytes of one `SSL_read(ssl, p, max)`; none when it fails. */
  function Got(script: Script, max: nat): (s: string)
    ensures |s| <= max
  {
    if script == [] then "" else Cut(max, script[0])
  }

  function Left(script: Script, max: nat): (rest: Script)
    ensures Size(rest) <= Size(script)
    ensures Got(script, max) != "" ==> Size(rest) < Size(script)
  {
    if script == [] then []
    else if |script[0]| <= max then script[1..]
    else [script[0][max..]] + script[1..]
  }

  /** All the bytes of a script. */
  function Bytes(script: Script): string {
    if script == [] then "" else script[0] + Bytes(script[1..])
  }

  lemma ReadKeepsBytes(script: Script, max: nat)
    ensures Bytes(script) == Got(script, max) + Bytes(Left(script, max))
  {
    if script != [] && max < |script[0]| {
      assert script[0] == script[0][..max] + script[0][max..];
      assert Left(script, max)[1..] == script[1..];
    }
  }

  // ---------- Completing a POST body ----------

  datatype Filled = Filled(rest: Script, data: string, body: int, failed: bool)

  /** The accumulation loop: `data` is what the buffer holds, `body` the body bytes counted so far. */
  function Fill(script: Script, data: string, body: int, want: int): (f: Filled)
    requires |data| <= BUFFER_SIZE - 1
    ensures Size(f.rest) <= Size(script)
    decreases BUFFER_SIZE - |data|
  {
    if body < want && |data| < BUFFER_SIZE - 1 then
      var chunk := Got(script, BUFFER_SIZE - 1 - |data|);
      var rest := Left(script, BUFFER_SIZE - 1 - |data|);
      if chunk == "" then Filled(rest, data, body, true) else Fill(rest, data + chunk, body + |chunk|, want)
    else Filled(script, data, body, false)
  }

  /**
   The loop ends with the body complete, the buffer full or the peer failed; it keeps the buffer's
   bound, counts exactly the bytes it adds, and holds exactly the bytes that were read, in order.
   */
  lemma {:induction false} FillProperties(script: Script, data: string, body: int, want: int)
    requires |data| <= BUFFER_SIZE - 1
    ensures var f := Fill(script, data, body, want);
            && |f.data| <= BUFFER_SIZE - 1 && data <= f.data
            && f.body - |f.data| == body - |data|
            && (f.failed || f.body >= want || |f.data| == BUFFER_SIZE - 1)
            && f.data + Bytes(f.rest) == data + Bytes(script)
    decreases BUFFER_SIZE - |data|
  {
    hide Got, Left, Bytes;
    if body < want && |data| < BUFFER_SIZE - 1 {
      var max := BUFFER_SIZE - 1 - |data|;
      var chunk, rest := Got(script, max), Left(script, max);
      ReadKeepsBytes(script, max);
      assert (data + chunk) + Bytes(rest) == data + Bytes(script);
      if chunk != "" {
        FillProperties(rest, data + chunk, body + |chunk|, want);
      } else {
        assert data + chunk == data;
      }
    }
  }

  // ---------- The session ----------

  /** What the session runs against: the `k`-th request meets `world(k)`. */
  datatype Context = Context(dir: string, useCache: int, world: nat -> Snapshot, pages: Pages)

  /** A response, and the request it answers; None for the final 400. */
  datatype Reply = Reply(request: Option<Request>, response: Response)

  /** `byChoice` tells whether the server stopped itself or found nothing more to read. */
  datatype Transcript = Transcript(replies: seq<Reply>, byChoice: bool, rest: Script)

  function BadRequest(c: Context): Response {
    Error(400, "Bad Request", c.pages(400), false)
  }

  /** The body bytes that came with the head. */
  function BodyReceived(req: Request, received: nat): int {
    if req.bodyStart.Some? then received - req.bodyStart.value else 0
  }

  /** What is left to read after the request that `first` began. */
  function AfterBody(req: Request, first: string, rest: Script): (after: Script)
    requires |first| <= BUFFER_SIZE - 1
    ensures Size(after) <= Size(rest)
  {
    if req.httpMethod == POST && req.contentLength > 0
    then Fill(rest, first, BodyReceived(req, |first|), req.contentLength).rest
    else rest
  }

  function Serve(c: Context, script: Script, k: nat): Transcript
    decreases Size(script)
  {
    var first, rest := Got(script, BUFFER_SIZE - 1), Left(script, BUFFER_SIZE - 1);
    if first == "" then Transcript([], false, rest)
    else match Parse(CStr(first))
      case None => Transcript([Reply(None, BadRequest(c))], true, rest)
      case Some(req) =>
        var reply := Reply(Some(req), Route(req, c.dir, c.useCache, c.world(k), c.pages));
        var after := AfterBody(req, first, rest);
        if !req.keepAlive then Transcript([reply], true, after)
        else
          var t := Serve(c, after, k + 1);
          t.(replies := [reply] + t.replies)
  }

  function Responses(replies: seq<Reply>): seq<Response> {
    if replies == [] then [] else [replies[0].response] + Responses(replies[1..])
  }

  // ---------- The code ----------

  /** The receiving side of the SSL session. */
  class Source {
    var script: Script

    constructor (script: Script)
      ensures this.script == script
    {
      this.script := script;
    }

    /** `SSL_read(ssl, buffer + at, max)`; 0 stands for every failure. */
    method Read(buffer: array<char>, at: nat, max: nat) returns (n: nat)
      requires at + max <= buffer.Length
      modifies this, buffer
      ensures n == |Got(old(script), max)| && script == Left(old(script), max)
      ensures forall i :: 0 <= i < at || at + n <= i < buffer.Length ==> buffer[i] == old(buffer[i])
      ensures forall i :: at <= i < at + n ==> buffer[i] == Got(old(script), max)[i - at]
    {
      var s := Got(script, max);
      script := Left(script, max);
      n := |s|;
      forall i | at <= i < at + n {
        buffer[i] := s[i - at];
      }
    }
  }

  /** The buffer holds exactly the received bytes and a NUL after them. */
  ghost predicate Received(buffer: array<char>, data: string)
    reads buffer
  {
    buffer.Length == BUFFER_SIZE && |data| < BUFFER_SIZE && buffer[|data|] == NUL
    && forall i :: 0 <= i < |data| ==> buffer[i] == data[i]
  }

  lemma ReceivedCStr(buffer: array<char>, data: string)
    requires Received(buffer, data)
    ensures Terminated(buffer[..]) && CStr(buffer[..]) == CStr(data)
  {
    var t := CStr(data);
    assert buffer[..][..|t|] == t;
    CStrIs(buffer[..], t);
  }

  /** One more read behind the bytes held, and the NUL after them. */
  method ReadMore(ssl: Source, buffer: array<char>, ghost data: string, received: nat) returns (chunk: nat)
    requires Received(buffer, data) && received == |data| && received < BUFFER_SIZE - 1
    modifies ssl, buffer
    ensures chunk == |Got(old(ssl.script), BUFFER_SIZE - 1 - received)|
    ensures ssl.script == Left(old(ssl.script), BUFFER_SIZE - 1 - received)
    ensures Received(buffer, data + Got(old(ssl.script), BUFFER_SIZE - 1 - received))
  {
    hide Got, Left;
    chunk := ssl.Read(buffer, received, BUFFER_SIZE - 1 - received);
    buffer[received + chunk] := NUL;
  }

  /** The POST loop, with the bytes accumulated in place. */
  method FillBody(ssl: Source, buffer: array<char>, ghost data: string, received0: nat, bodyStart: Option<nat>,
                  want: int)
    returns (received: nat, ghost all: string)
    requires Received(buffer, data) && received0 == |data| < BUFFER_SIZE
    requires bodyStart.Some? ==> bodyStart.value <= |data|
    modifies ssl, buffer
    ensures var body := if bodyStart.Some? then |data| - bodyStart.value else 0;
            var f := Fill(old(ssl.script), data, body, want);
            all == f.data && ssl.script == f.rest && received == |all|
    ensures Received(buffer, all)
  {
    hide Got, Left, Received;
    received, all := received0, data;
    var bodyReceived := 0;
    if bodyStart.Some? {
      bodyReceived := received - bodyStart.value;
    }
    ghost var f := Fill(ssl.script, data, bodyReceived, want);
    while bodyReceived < want && received < BUFFER_SIZE - 1
      invariant received == |all| <= BUFFER_SIZE - 1 && Received(buffer, all)
      invariant bodyStart.Some? ==> bodyReceived == received - bodyStart.value
      invariant Fill(ssl.script, all, bodyReceived, want) == f
      decreases BUFFER_SIZE - received
    {
      ghost var text := Got(ssl.script, BUFFER_SIZE - 1 - received);
      var chunk := ReadMore(ssl, buffer, all, received);
      if chunk <= 0 {
        assert all + text == all;
        break;
      }
      received := received + chunk;
      bodyReceived := bodyReceived + chunk;
      all := all + text;
    }
  }

  /** The directory as the client context holds it, and the cache of the pool, not locked by this worker. */
  ghost predicate Ready(cache: Cache.LithCache, publicDir: array<char>, c: Context)
    reads cache, publicDir
  {
    && cache.Valid() && cache.lock == Cache.Unlocked
    && publicDir.Length == 256 && Terminated(publicDir[..]) && CStr(publicDir[..]) == c.dir
  }

  /** One request: its body, its response through the router, and whether the session goes on. */
  method HandleRequest(cache: Cache.LithCache, ssl: Source, sink: Sink, publicDir: array<char>, c: Context, k: nat,
                       req: HttpRequest, buffer: array<char>, ghost first: string, received0: nat)
    returns (keepRunning: bool, ghost reply: Reply)
    requires Received(buffer, first) && received0 == |first| < BUFFER_SIZE
    requires req.path.Length == MAX_PATH_SIZE && req.path != buffer
    requires Ready(cache, publicDir, c) && publicDir != buffer && publicDir != req.path
    requires |c.world(k).view| <= Cache.MAX_CACHE_ENTRIES
    modifies cache, cache.entries, ssl, sink, req, req.path, buffer
    ensures Ready(cache, publicDir, c)
    ensures match Parse(CStr(first))
            case None => reply == Reply(None, BadRequest(c)) && !keepRunning && ssl.script == old(ssl.script)
            case Some(r) =>
              && reply == Reply(Some(r), Route(r, c.dir, c.useCache, c.world(k), c.pages))
              && keepRunning == r.keepAlive && ssl.script == AfterBody(r, first, old(ssl.script))
    ensures sink.out == old(sink.out) + Wire(reply.response)
  {
    hide Parse, Route, Fill, Received, Wire, BadRequest;
    ReceivedCStr(buffer, first);
    var r := ParseHttpRequest(buffer, req);
    if r == 0 {
      ghost var parsed := req.View();
      BodyStartInside(first);
      if req.httpMethod == POST && req.contentLength > 0 {
        ghost var all;
        var received;
        received, all := FillBody(ssl, buffer, first, received0, req.bodyStart, req.contentLength);
      }
      cache.OthersRan(c.world(k).view);
      HandleHttpRoute(cache, sink, publicDir, req, c.useCache, c.world(k), c.pages);
      reply := Reply(Some(parsed), Route(parsed, c.dir, c.useCache, c.world(k), c.pages));
      keepRunning := req.keepAlive;
    } else {
      sink.Send(BadRequest(c));
      reply := Reply(None, BadRequest(c));
      keepRunning := false;
    }
  }

  /** The body pointer points into the bytes received. */
  lemma BodyStartInside(first: string)
    ensures Parse(CStr(first)).Some? && Parse(CStr(first)).value.bodyStart.Some? ==>
              Parse(CStr(first)).value.bodyStart.value <= |first|
  {
    hide Parse;
  }

  /** The read that begins a request, into the cleared buffer. */
  method ReadFirst(ssl: Source, buffer: array<char>) returns (received: nat)
    requires buffer.Length == BUFFER_SIZE
    modifies ssl, buffer
    ensures received == |Got(old(ssl.script), BUFFER_SIZE - 1)| < BUFFER_SIZE
    ensures ssl.script == Left(old(ssl.script), BUFFER_SIZE - 1)
    ensures Received(buffer, Got(old(ssl.script), BUFFER_SIZE - 1))
  {
    hide Got, Left;
    forall i | 0 <= i < buffer.Length { buffer[i] := NUL; }
    received := ssl.Read(buffer, 0, BUFFER_SIZE - 1);
    buffer[received] := NUL;
  }

  /** The inner loop of the worker, on an established session. */
  method ServeSession(cache: Cache.LithCache, ssl: Source, sink: Sink, publicDir: array<char>, c: Context)
    returns (ghost t: Transcript)
    requires Ready(cache, publicDir, c)
    requires forall k: nat :: |c.world(k).view| <= Cache.MAX_CACHE_ENTRIES
    modifies cache, cache.entries, ssl, sink
    ensures Ready(cache, publicDir, c)
    ensures t == Serve(c, old(ssl.script), 0)
    ensures ssl.script == t.rest
    ensures sink.out == old(sink.out) + WireAll(Responses(t.replies))
  {
    hide Parse, Route, Got, Left, Wire, WireAll, Responses, AfterBody, BadRequest, CStr, Received;
    var req := new HttpRequest();
    var buffer := new char[BUFFER_SIZE];
    var keepRunning := true;
    var k := 0;
    ghost var done: seq<Reply> := [];
    t := Serve(c, ssl.script, 0);
    NothingSent();
    while keepRunning
      invariant fresh(req) && fresh(req.path) && fresh(buffer) && buffer.Length == BUFFER_SIZE
      invariant req.path.Length == MAX_PATH_SIZE && req.path != buffer && Ready(cache, publicDir, c)
      invariant sink.out == old(sink.out) + WireAll(Responses(done))
      invariant keepRunning ==> t == Prepend(done, Serve(c, ssl.script, k))
      invariant !keepRunning ==> t.replies == done && t.rest == ssl.script
      decreases keepRunning, Size(ssl.script)
    {
      ghost var first := Got(ssl.script, BUFFER_SIZE - 1);
      var received := ReadFirst(ssl, buffer);
      if received > 0 {
        ghost var rest := ssl.script;
        ghost var reply;
        keepRunning, reply := HandleRequest(cache, ssl, sink, publicDir, c, k, req, buffer, first, received);
        WireAppend(done, reply);
        PrependMore(done, reply, Serve(c, ssl.script, k + 1));
        done := done + [reply];
        k := k + 1;
      } else {
        keepRunning := false;
      }
    }
  }

  lemma NothingSent()
    ensures WireAll(Responses([])) == ""
  {
  }

  /** Replies already sent, in front of what is to come. */
  function Prepend(done: seq<Reply>, t: Transcript): Transcript {
    t.(replies := done + t.replies)
  }

  lemma PrependMore(done: seq<Reply>, reply: Reply, t: Transcript)
    ensures Prepend(done, t.(replies := [reply] + t.replies)) == Prepend(done + [reply], t)
  {
    assert done + ([reply] + t.replies) == (done + [reply]) + t.replies;
  }

  lemma {:induction false} WireAppend(replies: seq<Reply>, reply: Reply)
    ensures WireAll(Responses(replies + [reply])) == WireAll(Responses(replies)) + Wire(reply.response)
    decreases |replies|
  {
    var more := replies + [reply];
    if replies == [] {
      assert more[1..] == [];
      assert Responses(more) == [reply.response];
      assert WireAll([reply.response]) == Wire(reply.response) + WireAll([]);
    } else {
      assert more[1..] == replies[1..] + [reply];
      WireAppend(replies[1..], reply);
      assert Responses(more) == [replies[0].response] + Responses(more[1..]);
      assert Responses(more)[1..] == Responses(more[1..]);
      assert Responses(replies)[1..] == Responses(replies[1..]);
    }
  }

  // ---------- The theorems ----------

  /** Everything that the session's requests meet is small enough for the `int` lengths. */
  ghost predicate ContextOk(c: Context) {
    PagesOk(c.pages) && forall k: nat :: SnapshotOk(c.world(k))
  }

  predicate ReplyOk(r: Reply) {
    && FramedAs(r.response, r.request.Some? && r.request.value.keepAlive)
    && (r.request.Some? ==> r.request.value.httpMethod != UNKNOWN)
  }

  /**
   The replies of a session: all but the last answer a request that asked to stay; the last one
   does not exactly when the server stopped by its own choice.
   */
  predicate Shape(t: Transcript) {
    && (t.byChoice ==> t.replies != [])
    && forall i :: 0 <= i < |t.replies| ==>
         (t.replies[i].request == None || !t.replies[i].request.value.keepAlive <==> i == |t.replies| - 1 && t.byChoice)
  }

  lemma {:induction false} ServeShape(c: Context, script: Script, k: nat)
    requires ContextOk(c)
    ensures var t := Serve(c, script, k); Shape(t) && forall i :: 0 <= i < |t.replies| ==> ReplyOk(t.replies[i])
    decreases Size(script)
  {
    hide Parse, Route, FramedAs, Got, Left, AfterBody, SnapshotOk, CStr, Error, LONG_MIN, LONG_MAX;
    var first, rest := Got(script, BUFFER_SIZE - 1), Left(script, BUFFER_SIZE - 1);
    if first != "" {
      match Parse(CStr(first))
      case None =>
        ErrorFramedAs(400, "Bad Request", c.pages(400), false);
      case Some(req) =>
        assert SnapshotOk(c.world(k));
        RouteFramed(req, c.dir, c.useCache, c.world(k), c.pages);
        if req.keepAlive {
          ServeShape(c, AfterBody(req, first, rest), k + 1);
        }
    }
  }

  lemma {:induction false} ResponsesAt(replies: seq<Reply>)
    ensures |Responses(replies)| == |replies|
    ensures forall i :: 0 <= i < |replies| ==> Responses(replies)[i] == replies[i].response
  {
    if replies != [] {
      ResponsesAt(replies[1..]);
    }
  }

  /**
   Session framing: whatever the peer sends and however it is cut, a client that reads heads and
   Content-Length bytes recovers from the whole output exactly the responses, one for each parsed
   request and at most one final 400.
   */
  lemma SessionRoundTrip(c: Context, script: Script)
    requires ContextOk(c)
    ensures var t := Serve(c, script, 0);
            && DecodeAll(WireAll(Responses(t.replies))) == Some(Messages(Responses(t.replies)))
            && |Responses(t.replies)| == |t.replies|
            && forall i :: 0 <= i < |t.replies| - 1 ==> t.replies[i].request.Some?
  {
    hide Serve, DecodeAll, WireAll, Framed, AnnouncesClose, AnnouncesStay;
    var t := Serve(c, script, 0);
    ServeShape(c, script, 0);
    ResponsesAt(t.replies);
    assert forall i :: 0 <= i < |t.replies| ==> ReplyOk(t.replies[i]);
    StreamRoundTrip(Responses(t.replies));
  }

  /**
   Persistence agreement: the server stops by its own choice after a response exactly when that
   response carries `Connection: close`; every other one carries `Connection: keep-alive`, and no
   request of an unknown method was routed.
   */
  lemma PersistenceAgreement(c: Context, script: Script)
    requires ContextOk(c)
    ensures var t := Serve(c, script, 0);
            forall i :: 0 <= i < |t.replies| ==>
              && (AnnouncesClose(MessageOf(t.replies[i].response)) <==> i == |t.replies| - 1 && t.byChoice)
              && (AnnouncesStay(MessageOf(t.replies[i].response)) <==> !(i == |t.replies| - 1 && t.byChoice))
              && (t.replies[i].request.Some? ==> t.replies[i].request.value.httpMethod != UNKNOWN)
  {
    hide Serve, AnnouncesClose, AnnouncesStay, MessageOf;
    ServeShape(c, script, 0);
    var t := Serve(c, script, 0);
    assert forall i :: 0 <= i < |t.replies| ==> ReplyOk(t.replies[i]);
  }

  /** No head of a session is ever cut by its 384-byte buffer: every line of it is sent. */
  lemma HeadsNeverCut(c: Context, script: Script)
    requires ContextOk(c)
    ensures var t := Serve(c, script, 0);
            forall i :: 0 <= i < |t.replies| ==>
              HeadBytes(t.replies[i].response) == Unlines(t.replies[i].response.lines)
  {
    hide Serve, AnnouncesClose, AnnouncesStay, MessageOf, Unlines;
    ServeShape(c, script, 0);
    var t := Serve(c, script, 0);
    assert forall i :: 0 <= i < |t.replies| ==> ReplyOk(t.replies[i]);
  }

  // ---------- A client that waits for its answers ----------

  /** A request whose head comes in one piece with `first`, the rest of the body in any pieces. */
  datatype Sending = Sending(httpMethod: HttpMethod, path: string, conn: Option<string>, first: string,
                             more: seq<string>)

  function BodyOf(q: Sending): string {
    q.first + Bytes(q.more)
  }

  /** The pieces on the wire; the announced length is the body's. */
  function Pieces(q: Sending): Script
    requires q.httpMethod != UNKNOWN
  {
    [FirstPiece(q)] + q.more
  }

  /** The first piece of a request: its head, and what comes with it. */
  function FirstPiece(q: Sending): string
    requires q.httpMethod != UNKNOWN
  {
    Print(q.httpMethod, q.path, |BodyOf(q)|, q.conn, q.first)
  }

  /** The request is well formed, its first piece fits the buffer, and only a POST has a body. */
  predicate WellFormed(q: Sending) {
    && q.httpMethod != UNKNOWN && PathOk(q.path) && ConnOk(q.conn) && NamesClear(q.path, q.conn, CStr(q.first))
    && |FirstPiece(q)| <= 4095 && |BodyOf(q)| <= LONG_MAX
    && (forall i :: 0 <= i < |q.more| ==> q.more[i] != "")
    && (q.httpMethod == GET ==> BodyOf(q) == "")
  }

  /** Head and body together fit the buffer. */
  predicate Fits(q: Sending)
    requires q.httpMethod != UNKNOWN
  {
    |FirstPiece(q)| + |Bytes(q.more)| <= 4095
  }

  /** What the server should make of it. */
  function RequestOf(q: Sending): Request
    requires q.httpMethod != UNKNOWN
  {
    Request(q.httpMethod, q.path, |BodyOf(q)|,
            Some(|FirstPiece(q)| - |q.first|), Stays(q.conn))
  }

  lemma {:induction false} FillExact(more: seq<string>, after: Script, data: string, body: int, want: int)
    requires |data| + |Bytes(more)| <= BUFFER_SIZE - 1 && body + |Bytes(more)| == want
    requires forall i :: 0 <= i < |more| ==> more[i] != ""
    ensures Fill(more + after, data, body, want).rest == after
    decreases |more|
  {
    if more == [] {
      assert more + after == after;
    } else {
      var script := more + after;
      assert script[0] == more[0] && script[1..] == more[1..] + after;
      assert Got(script, BUFFER_SIZE - 1 - |data|) == more[0];
      FillExact(more[1..], after, data + more[0], body + |more[0]|, want);
    }
  }

  lemma RequestRead(q: Sending, after: Script)
    requires WellFormed(q)
    ensures var first := FirstPiece(q);
            && first != "" && |q.first| <= |first|
            && Got(Pieces(q) + after, BUFFER_SIZE - 1) == first
            && Left(Pieces(q) + after, BUFFER_SIZE - 1) == q.more + after
            && Parse(CStr(first)) == Some(RequestOf(q))
  {
    hide Print, Parse, NamesClear, PathOk, CStr, Bytes;
    var script := Pieces(q) + after;
    assert script[0] == FirstPiece(q) && script[1..] == q.more + after;
    PrintSplit(q.httpMethod, q.path, |BodyOf(q)|, q.conn, q.first);
    RequestRoundTrip(q.httpMethod, q.path, |BodyOf(q)|, q.conn, q.first);
    PrintNotEmpty(q.httpMethod, q.path, |BodyOf(q)|, q.conn, q.first);
  }

  lemma BodyConsumed(q: Sending, after: Script)
    requires WellFormed(q) && Fits(q)
    ensures AfterBody(RequestOf(q), FirstPiece(q), q.more + after) == after
  {
    hide Print, Parse, Fill, NamesClear, PathOk, CStr;
    RequestRead(q, after);
    if q.httpMethod == POST && |BodyOf(q)| > 0 {
      FillExact(q.more, after, FirstPiece(q), |q.first|, |BodyOf(q)|);
    } else {
      NoBytes(q.more);
      assert q.more + after == after;
    }
  }

  lemma PrintNotEmpty(m: HttpMethod, path: string, n: int, conn: Option<string>, body: string)
    requires m != UNKNOWN
    ensures Print(m, path, n, conn, body) != ""
  {
  }

  /** Pieces that hold no byte are no pieces. */
  lemma NoBytes(more: seq<string>)
    requires forall i :: 0 <= i < |more| ==> more[i] != ""
    ensures |Bytes(more)| == 0 ==> more == []
  {
  }

  function AllPieces(qs: seq<Sending>): Script
    requires forall i :: 0 <= i < |qs| ==> qs[i].httpMethod != UNKNOWN
  {
    if qs == [] then [] else Pieces(qs[0]) + AllPieces(qs[1..])
  }

  /** The replies in order, up to the first request that asks to close. */
  function Expected(c: Context, qs: seq<Sending>, k: nat): seq<Reply>
    requires forall i :: 0 <= i < |qs| ==> qs[i].httpMethod != UNKNOWN
  {
    if qs == [] then []
    else
      var reply := ReplyTo(c, qs[0], k);
      if !Stays(qs[0].conn) then [reply] else [reply] + Expected(c, qs[1..], k + 1)
  }

  /**
   A client that sends well-formed requests that fit the buffer, each head in one piece and the bodies
   cut anywhere, is answered request by request, in order, until one asks to close: no body byte is
   ever taken for a request, and no request for a body.
   */
  lemma {:induction false} AnsweredInOrder(c: Context, qs: seq<Sending>, k: nat)
    requires forall i :: 0 <= i < |qs| ==> qs[i].httpMethod != UNKNOWN && WellFormed(qs[i]) && Fits(qs[i])
    ensures Serve(c, AllPieces(qs), k).replies == Expected(c, qs, k)
    decreases |qs|
  {
    hide Print, Parse, Route, Got, Left, AfterBody, WellFormed, Fits, Pieces, CStr, FirstPiece;
    if qs == [] {
      NothingToRead();
    } else {
      FirstServed(c, qs[0], AllPieces(qs[1..]), k);
      BodyConsumed(qs[0], AllPieces(qs[1..]));
      if Stays(qs[0].conn) {
        AnsweredInOrder(c, qs[1..], k + 1);
      }
    }
  }

  lemma NothingToRead()
    ensures Got([], BUFFER_SIZE - 1) == ""
  {
  }

  function ReplyTo(c: Context, q: Sending, k: nat): Reply
    requires q.httpMethod != UNKNOWN
  {
    Reply(Some(RequestOf(q)), Route(RequestOf(q), c.dir, c.useCache, c.world(k), c.pages))
  }

  /** A well-formed first piece is answered, and what its body loop leaves of the rest is read next. */
  lemma FirstReadServed(c: Context, q: Sending, rest: Script, k: nat)
    requires WellFormed(q)
    ensures Serve(c, [FirstPiece(q)] + rest, k).replies ==
            [ReplyTo(c, q, k)] + (if !Stays(q.conn) then []
                                  else Serve(c, AfterBody(RequestOf(q), FirstPiece(q), rest), k + 1).replies)
  {
    hide Print, Parse, Route, AfterBody, CStr, NamesClear, PathOk;
    var script := [FirstPiece(q)] + rest;
    assert script[0] == FirstPiece(q) && script[1..] == rest;
    RequestRead(q, []);
  }
  lemma FirstServed(c: Context, q: Sending, after: Script, k: nat)
    requires WellFormed(q)
    ensures Serve(c, Pieces(q) + after, k).replies ==
            [ReplyTo(c, q, k)] + (if !Stays(q.conn) then []
                                  else Serve(c, AfterBody(RequestOf(q), FirstPiece(q), q.more + after), k + 1).replies)
  {
    hide Serve, AfterBody, RequestOf, NamesClear, PathOk;
    assert Pieces(q) + after == [FirstPiece(q)] + (q.more + after);
    FirstReadServed(c, q, q.more + after, k);
  }

  /** Only the body of a POST is read: what a GET announces, or a POST beyond it, is left for the next read. */
  lemma NoBodyRead(req: Request, first: string, rest: Script)
    requires |first| <= BUFFER_SIZE - 1
    requires req.httpMethod != POST || req.contentLength <= 0 || req.contentLength <= BodyReceived(req, |first|)
    ensures AfterBody(req, first, rest) == rest
  {
  }

  // ---------- A head cut short ----------

  /**
   A POST whose blank line has not come with its first read: the loop then takes every further byte,
   also of the head, for the body, and stops after the announced number of them.
   */
  lemma HeadTakenForBody(req: Request, first: string, more: seq<string>, after: Script)
    requires req.httpMethod == POST && req.bodyStart == None && req.contentLength == |Bytes(more)| > 0
    requires |first| + |Bytes(more)| <= BUFFER_SIZE - 1 && forall i :: 0 <= i < |more| ==> more[i] != ""
    ensures AfterBody(req, first, more + after) == after
  {
    hide Fill;
    FillExact(more, after, first, 0, req.contentLength);
  }

  // ---------- What does not fit ----------

  lemma {:induction false} BytesAppend(x: Script, y: Script)
    ensures Bytes(x + y) == Bytes(x) + Bytes(y)
  {
    if x == [] {
      assert x + y == y;
    } else {
      assert (x + y)[1..] == x[1..] + y;
      BytesAppend(x[1..], y);
    }
  }

  /** A body that does not fit fills the buffer to its last byte. */
  lemma {:induction false} FillFull(more: seq<string>, after: Script, data: string, body: int, want: int)
    requires |data| <= BUFFER_SIZE - 1 < |data| + |Bytes(more)| && body + |Bytes(more)| == want
    requires forall i :: 0 <= i < |more| ==> more[i] != ""
    ensures |Fill(more + after, data, body, want).data| == BUFFER_SIZE - 1
    decreases |more|
  {
    var script := more + after;
    assert script[0] == more[0] && script[1..] == more[1..] + after;
    var max := BUFFER_SIZE - 1 - |data|;
    if 0 < max && |more[0]| <= max {
      FillFull(more[1..], after, data + more[0], body + |more[0]|, want);
    }
  }

  /**
   The body loop leaves exactly the bytes that did not fit behind the first 4095; so a request that
   fits leaves what follows it, and a longer one leaves the end of its own body in front of that.
   */
  lemma LeftOver(q: Sending, after: Script)
    requires WellFormed(q)
    ensures var rest := AfterBody(RequestOf(q), FirstPiece(q), q.more + after);
            var all := FirstPiece(q) + Bytes(q.more);
            && Bytes(rest) == all[|Cut(BUFFER_SIZE - 1, all)|..] + Bytes(after)
            && (Bytes(rest) == Bytes(after) <==> Fits(q))
  {
    hide Print, Parse, Fill, NamesClear, PathOk, CStr, Bytes;
    var first, all := FirstPiece(q), FirstPiece(q) + Bytes(q.more);
    if Fits(q) {
      BodyConsumed(q, after);
    } else {
      var f := Fill(q.more + after, first, |q.first|, |BodyOf(q)|);
      RequestRead(q, after);
      FillFull(q.more, after, first, |q.first|, |BodyOf(q)|);
      FillProperties(q.more + after, first, |q.first|, |BodyOf(q)|);
      BytesAppend(q.more, after);
      assert f.data + Bytes(f.rest) == all + Bytes(after);
      assert (all + Bytes(after))[BUFFER_SIZE - 1..] == all[BUFFER_SIZE - 1..] + Bytes(after);
      assert (f.data + Bytes(f.rest))[BUFFER_SIZE - 1..] == Bytes(f.rest);
      assert |Bytes(f.rest)| > |Bytes(after)|;
    }
  }

  /** A request too long for the buffer: the end of its own body is read as the next request. */
  lemma BodyTakenForRequest(c: Context, q: Sending, after: Script, k: nat) returns (rest: Script)
    requires WellFormed(q) && !Fits(q) && Stays(q.conn)
    ensures Serve(c, Pieces(q) + after, k).replies == [ReplyTo(c, q, k)] + Serve(c, rest, k + 1).replies
    ensures Bytes(rest) == (FirstPiece(q) + Bytes(q.more))[BUFFER_SIZE - 1..] + Bytes(after)
  {
    hide AfterBody, Serve, Bytes, RequestOf, NamesClear, PathOk;
    rest := AfterBody(RequestOf(q), FirstPiece(q), q.more + after);
    FirstServed(c, q, after, k);
    LeftOver(q, after);
  }

  /** A request whose body came whole in its first read, with anything behind it. */
  lemma ServedInOneRead(c: Context, first: string, req: Request, after: Script, k: nat)
    requires first != "" && |first| <= BUFFER_SIZE - 1
    ensures Parse(CStr(first)) == Some(req) && req.contentLength <= BodyReceived(req, |first|) ==>
              Serve(c, [first] + after, k).replies ==
              [Reply(Some(req), Route(req, c.dir, c.useCache, c.world(k), c.pages))]
              + (if req.keepAlive then Serve(c, after, k + 1).replies else [])
  {
    hide Parse, Route, CStr;
    var script := [first] + after;
    assert script[0] == first && script[1..] == after;
  }

  /** Where the text after the head begins does not depend on that text. */
  lemma HeadLength(m: HttpMethod, path: string, n: int, conn: Option<string>, x: string, y: string)
    requires m != UNKNOWN
    ensures |Print(m, path, n, conn, x)| - |x| == |Print(m, path, n, conn, y)| - |y| >= 0
  {
    PrintSplit(m, path, n, conn, x);
    PrintSplit(m, path, n, conn, y);
  }

  /**
   Bytes that come behind a request in the same read are lost: with a connection line of its own the
   request is answered, and the session goes on, as if they had not been sent.
   */
  lemma BytesBehindAreLost(c: Context, m: HttpMethod, path: string, v: string, body: string, extra: string,
                           after: Script, k: nat)
    requires m != UNKNOWN && PathOk(path) && !Contains(path, "Content-Length:") && !Contains(path, "Connection:")
    requires ConnOk(Some(v))
    requires |Print(m, path, |body|, Some(v), body + extra)| <= BUFFER_SIZE - 1
    ensures Serve(c, [Print(m, path, |body|, Some(v), body + extra)] + after, k).replies ==
            Serve(c, [Print(m, path, |body|, Some(v), body)] + after, k).replies
  {
    hide Print, Parse, Route, CStr, PathOk, Serve, Contains;
    HeadLength(m, path, |body|, Some(v), body + extra, body);
    RequestRoundTrip(m, path, |body|, Some(v), body + extra);
    RequestRoundTrip(m, path, |body|, Some(v), body);
    var first1 := Print(m, path, |body|, Some(v), body + extra);
    PrintNotEmpty(m, path, |body|, Some(v), body + extra);
    ServedInOneRead(c, first1, Request(m, path, |body|, Some(|first1| - |body + extra|), Stays(Some(v))), after, k);
    var first2 := Print(m, path, |body|, Some(v), body);
    PrintNotEmpty(m, path, |body|, Some(v), body);
    ServedInOneRead(c, first2, Request(m, path, |body|, Some(|first2| - |body|), Stays(Some(v))), after, k);
  }

  /**
   Without one, the parser takes the first connection header of the whole buffer for the request's
   own: the bytes behind change nothing exactly when they do not change that option.
   */
  lemma BytesBehindIff(c: Context, m: HttpMethod, path: string, body: string, extra: string, after: Script, k: nat)
    requires m != UNKNOWN && PathOk(path) && PathClear(path)
    requires |Print(m, path, |body|, None, body + extra)| <= BUFFER_SIZE - 1
    ensures Serve(c, [Print(m, path, |body|, None, body + extra)] + after, k).replies ==
            Serve(c, [Print(m, path, |body|, None, body)] + after, k).replies
            <==> KeepAliveOf(CStr(body + extra)) == KeepAliveOf(CStr(body))
  {
    hide Print, Parse, Route, CStr, PathOk, PathClear, Serve, KeepAliveOf;
    HeadLength(m, path, |body|, None, body + extra, body);
    BorrowedConnection(m, path, |body|, body + extra);
    BorrowedConnection(m, path, |body|, body);
    var all, whole := body + extra, KeepAliveOf(CStr(body + extra));
    var first1, first2 := Print(m, path, |body|, None, all), Print(m, path, |body|, None, body);
    PrintNotEmpty(m, path, |body|, None, all);
    PrintNotEmpty(m, path, |body|, None, body);
    var own := KeepAliveOf(CStr(body));
    ServedInOneRead(c, first1, Request(m, path, |body|, Some(|first1| - |all|), whole), after, k);
    ServedInOneRead(c, first2, Request(m, path, |body|, Some(|first2| - |body|), own), after, k);
    assert Serve(c, [first1] + after, k).replies[0].request.value.keepAlive == whole;
    assert Serve(c, [first2] + after, k).replies[0].request.value.keepAlive == own;
  }

  /** For example, the `Connection: close` of a second request behind it ends the session after the first. */
  lemma PipelinedCloseTaken(c: Context, path: string, next: string, v: string, after: Script, k: nat)
    requires PathOk(path) && PathClear(path) && PathOk(next) && PathClear(next)
    requires ConnOk(Some(v)) && !Stays(Some(v))
    requires |Print(GET, path, 0, None, Print(GET, next, 0, Some(v), ""))| <= BUFFER_SIZE - 1
    ensures var t := Serve(c, [Print(GET, path, 0, None, Print(GET, next, 0, Some(v), ""))] + after, k);
            |t.replies| == 1 && t.replies[0].request.Some? && t.replies[0].request.value.path == path
            && !t.replies[0].request.value.keepAlive
  {
    hide Print, Parse, Route, CStr, PathOk, Serve, KeepAliveOf;
    var second := Print(GET, next, 0, Some(v), "");
    BorrowedConnection(GET, path, 0, second);
    RequestRoundTrip(GET, next, 0, Some(v), "");
    ParsedKeepAlive(CStr(second));
    var first := Print(GET, path, 0, None, second);
    PrintNotEmpty(GET, path, 0, None, second);
    ServedInOneRead(c, first, Request(GET, path, 0, Some(|first| - |second|), KeepAliveOf(CStr(second))), after, k);
  }

  lemma ParsedKeepAlive(s: string)
    requires Parse(s).Some?
    ensures Parse(s).value.keepAlive == KeepAliveOf(s)
  {
  }

  lemma {:induction false} FillPast(more: seq<string>, last: string, extra: string, after: Script, data: string,
                                    body: int, want: int)
    requires |data| + |Bytes(more)| + |last| + |extra| <= BUFFER_SIZE - 1 && body + |Bytes(more)| + |last| == want
    requires last != "" && forall i :: 0 <= i < |more| ==> more[i] != ""
    ensures Fill(more + [last + extra] + after, data, body, want).rest == after
    decreases |more|
  {
    var script := more + [last + extra] + after;
    if more == [] {
      assert script[0] == last + extra && script[1..] == after;
      assert Got(script, BUFFER_SIZE - 1 - |data|) == last + extra;
    } else {
      assert script[0] == more[0] && script[1..] == more[1..] + [last + extra] + after;
      assert Got(script, BUFFER_SIZE - 1 - |data|) == more[0];
      FillPast(more[1..], last, extra, after, data + more[0], body + |more[0]|, want);
    }
  }

  /** Nor does what comes behind the end of a body in the read that completes it. */
  lemma BytesBehindBodyAreLost(c: Context, q: Sending, last: string, extra: string, after: Script, k: nat)
    requires WellFormed(q) && q.more != [] && q.more[|q.more| - 1] == last
    requires |FirstPiece(q)| + |Bytes(q.more)| + |extra| <= BUFFER_SIZE - 1
    ensures var front := [FirstPiece(q)] + q.more[..|q.more| - 1];
            Serve(c, front + [last + extra] + after, k).replies == Serve(c, Pieces(q) + after, k).replies
  {
    hide Serve, AfterBody, Bytes, RequestOf, FirstPiece, NamesClear, PathOk;
    var before := q.more[..|q.more| - 1];
    assert q.more == before + [last];
    BytesAppend(before, [last]);
    OnePiece(last);
    var rest := before + [last + extra] + after;
    assert [FirstPiece(q)] + before + [last + extra] + after == [FirstPiece(q)] + rest;
    FirstReadServed(c, q, rest, k);
    BodyConsumedPast(q, before, last, extra, after);
    FirstServed(c, q, after, k);
    BodyConsumed(q, after);
  }

  lemma BodyConsumedPast(q: Sending, before: seq<string>, last: string, extra: string, after: Script)
    requires WellFormed(q) && q.more == before + [last]
    requires |FirstPiece(q)| + |Bytes(before)| + |last| + |extra| <= BUFFER_SIZE - 1
    ensures AfterBody(RequestOf(q), FirstPiece(q), before + [last + extra] + after) == after
  {
    hide Print, Parse, Fill, NamesClear, PathOk, CStr, Bytes;
    BytesAppend(before, [last]);
    OnePiece(last);
    RequestRead(q, after);
    LongBody(q);
    assert last == q.more[|before|];
    forall i | 0 <= i < |before| ensures before[i] != "" {
      assert before[i] == q.more[i];
    }
    FillPast(before, last, extra, after, FirstPiece(q), |q.first|, |BodyOf(q)|);
  }

  lemma OnePiece(x: string)
    ensures Bytes([x]) == x
  {
    assert [x][1..] == [];
  }

  lemma LongBody(q: Sending)
    requires WellFormed(q) && q.more != []
    ensures q.httpMethod == POST && |BodyOf(q)| > 0
  {
    assert q.more[0] != "";
  }

}
