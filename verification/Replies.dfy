/**
 What a client reads from the answers: the status, the fields and the content of every response that
 the server sends, in terms of the request and of what cache and disk hold.
 */
module Replies {
  import opened Wrappers
  import opened CStrings
  import opened Decimal
  import opened HttpParser
  import opened Framing
  import opened Cache
  import opened Router
  import Paths
  import Redirect
  import Session

  // ---------- The client ----------

  /** The status line: the version, three digits and a reason (section 4 of RFC 9112). */
  function StatusOf(m: Message): Option<int> {
    if m.lines != [] && 13 <= |m.lines[0]| && m.lines[0][..9] == "HTTP/1.1 " && m.lines[0][12] == ' '
       && DigitSpan(m.lines[0][9..12]) == 3
    then
      assert m.lines[0][9..12][..3] == m.lines[0][9..12];
      Some(Value(m.lines[0][9..12]))
    else None
  }

  function FieldOf(m: Message, name: string): Option<string> {
    if m.lines == [] then None else Field(m.lines[1..], name)
  }

  /** What the client reads back from the bytes of one response, all of them. */
  function ReadBack(r: Response): Option<Message> {
    match DecodeOne(Wire(r))
    case Some((m, rest)) => if rest == "" then Some(m) else None
    case None => None
  }

  // ---------- Reading the two kinds of head ----------

  lemma StatusRead(first: string, status: nat, text: string, lines: seq<string>, content: string)
    requires 100 <= status < 1000 && first == "HTTP/1.1 " + Dec(status) + " " + text
    requires lines != [] && lines[0] == first
    ensures StatusOf(Message(lines, content)) == Some(status)
  {
    ThreeDigits(status);
    ValueDec(status);
    var d := Dec(status);
    assert first[..9] == "HTTP/1.1 " && first[9..12] == d && first[12] == ' ';
    DigitSpanAppend(d, "");
    assert d + "" == d;
  }

  lemma ThreeDigits(n: nat)
    requires 100 <= n < 1000
    ensures |Dec(n)| == 3
  {
    assert Dec(n) == Dec(n / 10) + [Digit(n % 10)];
    assert Dec(n / 10) == Dec(n / 10 / 10) + [Digit(n / 10 % 10)];
  }

  /** The type field of a head. */
  lemma TypeRead(first: string, length: nat, mime: string, state: string, more: seq<string>)
    ensures Field((Head(first, length, mime, state) + more)[1..], "Content-Type") == Some(mime)
  {
    var ls := (Head(first, length, mime, state) + more)[1..];
    assert "Content-Type" + ": " == "Content-Type: ";
    assert ls[0][8] == 'L' && "Content-Type: "[8] == 'T';
    FieldAt(ls, "Content-Type", mime, 1);
  }

  lemma KeepAliveField(first: string, length: nat, mime: string, state: string, value: string)
    ensures Field((Head(first, length, mime, state) + ["Keep-Alive: " + value])[1..], "Keep-Alive") == Some(value)
  {
    var ls := (Head(first, length, mime, state) + ["Keep-Alive: " + value])[1..];
    assert "Keep-Alive" + ": " == "Keep-Alive: ";
    assert ls[0][0] == 'C' && ls[1][0] == 'C' && ls[2][0] == 'C';
    FieldAt(ls, "Keep-Alive", value, 3);
  }

  lemma WholeRead(r: Response)
    requires Framed(r) && |r.content| < 0x8000_0000
    ensures ReadBack(r) == Some(MessageOf(r))
  {
    hide DecodeOne, Wire, Framed;
    RoundTripIff(r);
  }

  /** The message has this status, type and content, and the connection field that goes with `stays`. */
  predicate Reads(m: Message, status: int, mime: string, content: string, stays: bool) {
    && StatusOf(m) == Some(status) && FieldOf(m, "Content-Type") == Some(mime) && m.content == content
    && FieldOf(m, "Content-Length") == Some(Dec(|content|))
    && FieldOf(m, "Connection") == Some(if stays then "keep-alive" else "close")
  }

  lemma OkLines(mime: string, content: string, keepAlive: bool)
    ensures var r := Ok(mime, content, keepAlive);
            && r.lines != []
            && r.lines == Head("HTTP/1.1 200 OK", |content|, mime, if keepAlive then "keep-alive" else "close")
                          + ["Keep-Alive: " + "timeout=3, max=100"]
  {
    hide Dec;
    assert "Keep-Alive: " + "timeout=3, max=100" == "Keep-Alive: timeout=3, max=100";
  }

  /** The fields of a 200 head. */
  lemma OkFields(mime: string, content: string, keepAlive: bool)
    ensures var m := MessageOf(Ok(mime, content, keepAlive));
            && FieldOf(m, "Content-Length") == Some(Dec(|content|)) && FieldOf(m, "Content-Type") == Some(mime)
            && FieldOf(m, "Connection") == Some(if keepAlive then "keep-alive" else "close")
            && FieldOf(m, "Keep-Alive") == Some("timeout=3, max=100")
  {
    hide Field, Dec, Head, Ok;
    var first, state := "HTTP/1.1 200 OK", if keepAlive then "keep-alive" else "close";
    OkLines(mime, content, keepAlive);
    HeadFields(first, |content|, mime, state, ["Keep-Alive: " + "timeout=3, max=100"]);
    TypeRead(first, |content|, mime, state, ["Keep-Alive: " + "timeout=3, max=100"]);
    KeepAliveField(first, |content|, mime, state, "timeout=3, max=100");
  }

  lemma OkStatus(mime: string, content: string, keepAlive: bool)
    ensures StatusOf(MessageOf(Ok(mime, content, keepAlive))) == Some(200)
  {
    hide Dec, StatusOf;
    var r := Ok(mime, content, keepAlive);
    TwoHundred();
    StatusRead("HTTP/1.1 200 OK", 200, "OK", r.lines, content);
  }

  /** A 200 response, read back. */
  lemma OkReads(mime: string, content: string, keepAlive: bool)
    requires '\r' !in mime && |mime| <= 63 && |content| < 0x8000_0000
    ensures var m := ReadBack(Ok(mime, content, keepAlive));
            m.Some? && Reads(m.value, 200, mime, content, keepAlive)
            && FieldOf(m.value, "Keep-Alive") == Some("timeout=3, max=100")
  {
    hide Framed, FieldOf, StatusOf, ReadBack, Dec, Ok;
    OkFramed(mime, content, keepAlive);
    OkContent(mime, content, keepAlive);
    WholeRead(Ok(mime, content, keepAlive));
    OkFields(mime, content, keepAlive);
    OkStatus(mime, content, keepAlive);
  }

  lemma TwoHundred()
    ensures "HTTP/1.1 200 OK" == "HTTP/1.1 " + Dec(200) + " " + "OK"
  {
    assert Dec(200 / 10 / 10) == "2" && Dec(200 / 10) == "20" && Dec(200) == "200";
  }

  /** An error page, read back. */
  lemma ErrorReads(status: nat, text: string, page: string, keepAlive: bool)
    requires 100 <= status < 1000 && '\r' !in text && |text| <= 40 && |page| < 2048
    ensures var m := ReadBack(Error(status, text, page, keepAlive));
            m.Some? && Reads(m.value, status, "text/html", page, status != 400 && keepAlive)
  {
    hide Framed, Field, ReadBack, Dec;
    var r := Error(status, text, page, keepAlive);
    ErrorFramed(status, text, page, keepAlive);
    WholeRead(r);
    var first := "HTTP/1.1 " + Dec(status) + " " + text;
    var state := if status == 400 then "close" else ConnState(keepAlive);
    StatusRead(first, status, text, r.lines, page);
    HeadFields(first, |page|, "text/html", state, []);
    TypeRead(first, |page|, "text/html", state, []);
    assert r.lines + [] == r.lines;
  }

  // ---------- GET ----------

  /** The filter accepts exactly the paths without two dots in a row. */
  lemma SafeIff(path: string)
    ensures Paths.IsSafePath(path) <==> !Contains(path, "..")
  {
  }

  /** The bytes that the cache sends from slot `i`: the reloaded ones when stat saw a newer file and no call failed. */
  function CachedBytes(s: Snapshot, i: nat): string
    requires i < |s.view|
  {
    if s.stat.Some? && s.view[i].lastModified < s.stat.value.mtime
       && s.reload.openOk && s.reload.stat.Some? && s.reload.mallocOk
    then Cut(s.reload.stat.value.size, s.reload.data)
    else s.view[i].content
  }

  /**
   Every answer to a GET, as the client reads it: 403 exactly when the path holds two dots in a row;
   otherwise the cached entry's type and bytes if there is one for the joined path and the cache is in
   use; otherwise the file with the type of its name, or 404 if there is none.
   */
  lemma GetReads(req: Request, dir: string, useCache: int, s: Snapshot, pages: Pages)
    requires req.httpMethod == GET && SnapshotOk(s) && PagesOk(pages)
    ensures var m := ReadBack(Route(req, dir, useCache, s, pages));
            var path := dir + if req.path == "/" then "/index.html" else req.path;
            var hit := if useCache == 1 then FirstMatch(s.view, path) else None;
            && m.Some?
            && if Contains(req.path, "..") then Reads(m.value, 403, "text/html", pages(403), req.keepAlive)
               else if hit.Some? then
                 Reads(m.value, 200, s.view[hit.value].mime, CachedBytes(s, hit.value), req.keepAlive)
               else if s.file.Some? then Reads(m.value, 200, GetMimeType(path), s.file.value, req.keepAlive)
               else Reads(m.value, 404, "text/html", pages(404), req.keepAlive)
  {
    hide ReadBack, Reads, Ok, Error, GetMimeType, FirstMatch, Contains, Paths.IsSafePath, SnapshotOk;
    SafeIff(req.path);
    var path := Paths.Join(dir, req.path);
    if Contains(req.path, "..") {
      ErrorReads(403, "Forbidden", pages(403), req.keepAlive);
    } else {
      FetchOk(useCache, path, s);
      match Fetch(useCache, path, s)
      case Cached(mime, content) => OkReads(mime, content, req.keepAlive);
      case OnDisk(content) => OkReads(GetMimeType(path), content, req.keepAlive);
      case Missing => ErrorReads(404, "Not Found", pages(404), req.keepAlive);
    }
  }

  // ---------- POST ----------

  /** The JSON object, up to the number that it ends with. */
  const POST_START :=
    "{\"status\":\"success\",\"message\":\"Data received successfully secure by LITH\",\"bytes_processed\":"

  /** Every answer to a POST: 200 with a JSON object whose last member reads as the announced length. */
  lemma PostReads(req: Request, dir: string, useCache: int, s: Snapshot, pages: Pages)
    requires req.httpMethod == POST && LONG_MIN <= req.contentLength <= LONG_MAX
    ensures var m := ReadBack(Route(req, dir, useCache, s, pages));
            && m.Some? && Reads(m.value, 200, "application/json", m.value.content, req.keepAlive)
            && POST_START <= m.value.content && m.value.content[|m.value.content| - 1] == '}'
            && Strtol(m.value.content[|POST_START|..]) == req.contentLength
  {
    hide ReadBack, Ok, Strtol, DecInt, StatusOf, FieldOf;
    var n := req.contentLength;
    PostBodyWhole(n);
    OkReads("application/json", PostBody(n), req.keepAlive);
    var text := PostText(n);
    assert text == POST_START + (DecInt(n) + "}");
    assert text[|POST_START|..] == DecInt(n) + "}";
    StrtolDec(n, "}");
  }

  // ---------- Sessions ----------

  /** The `i`-th reply is the router's to the `i`-th request, or the refusal. */
  predicate ReplyIs(c: Session.Context, reply: Session.Reply, k: nat) {
    match reply.request
    case None => reply.response == Error(400, "Bad Request", c.pages(400), false)
    case Some(req) => reply.response == Route(req, c.dir, c.useCache, c.world(k), c.pages)
  }

  predicate RepliesAre(c: Session.Context, replies: seq<Session.Reply>, k: nat) {
    forall i :: 0 <= i < |replies| ==> ReplyIs(c, replies[i], k + i)
  }

  lemma {:induction false} ServeReplies(c: Session.Context, script: Session.Script, k: nat)
    ensures RepliesAre(c, Session.Serve(c, script, k).replies, k)
    decreases Session.Size(script)
  {
    hide Parse, Route, Session.Got, Session.Left, Session.AfterBody, CStr, Error;
    var max := Session.BUFFER_SIZE - 1;
    var first, rest := Session.Got(script, max), Session.Left(script, max);
    if first != "" && Parse(CStr(first)).Some? {
      var req := Parse(CStr(first)).value;
      if req.keepAlive {
        var after := Session.AfterBody(req, first, rest);
        ServeReplies(c, after, k + 1);
        LaterReplies(c, Session.Serve(c, after, k + 1).replies, Session.Serve(c, script, k).replies, k);
      }
    }
  }

  /** One reply in front shifts the others by one. */
  lemma LaterReplies(c: Session.Context, later: seq<Session.Reply>, all: seq<Session.Reply>, k: nat)
    requires RepliesAre(c, later, k + 1)
    requires |all| == |later| + 1 && all[1..] == later && ReplyIs(c, all[0], k)
    ensures RepliesAre(c, all, k)
  {
    hide ReplyIs;
    forall i | 0 <= i < |all| ensures ReplyIs(c, all[i], k + i) {
      if i > 0 {
        assert all[i] == later[i - 1];
        assert k + 1 + (i - 1) == k + i;
      }
    }
  }

  /**
   What a client reads from a whole session: one message for each reply; to a request it is what the
   router's answer to that request reads as, and text that does not parse gets 400 and the close.
   */
  lemma SessionReads(c: Session.Context, script: Session.Script)
    requires Session.ContextOk(c)
    ensures var t := Session.Serve(c, script, 0);
            var ms := DecodeAll(WireAll(Session.Responses(t.replies)));
            && ms.Some? && |ms.value| == |t.replies|
            && forall i :: 0 <= i < |t.replies| ==>
                 match t.replies[i].request
                 case None => Reads(ms.value[i], 400, "text/html", c.pages(400), false)
                 case Some(req) => ReadBack(Route(req, c.dir, c.useCache, c.world(i), c.pages)) == Some(ms.value[i])
  {
    hide Session.Serve, Session.Shape, DecodeAll, WireAll, Framed, AnnouncesClose, AnnouncesStay;
    hide ReadBack, Reads, Route, Error;
    var t := Session.Serve(c, script, 0);
    Session.SessionRoundTrip(c, script);
    Session.ResponsesAt(t.replies);
    Session.ServeShape(c, script, 0);
    ServeReplies(c, script, 0);
    forall i | 0 <= i < |t.replies|
      ensures match t.replies[i].request
              case None => Reads(MessageOf(t.replies[i].response), 400, "text/html", c.pages(400), false)
              case Some(req) =>
                ReadBack(Route(req, c.dir, c.useCache, c.world(i), c.pages)) == Some(MessageOf(t.replies[i].response))
    {
      assert ReplyIs(c, t.replies[i], 0 + i) && Session.ReplyOk(t.replies[i]);
      WholeRead(t.replies[i].response);
      if t.replies[i].request == None {
        ErrorReads(400, "Bad Request", c.pages(400), false);
      }
    }
  }

  // ---------- Redirects ----------

  /** The status line that every cleartext client gets, whatever it sent. */
  lemma RedirectStatus(arrived: string)
    ensures "HTTP/1.1 301 Moved Permanently" + CRLF <= Redirect.Redirected(arrived)
  {
    hide Redirect.Answer, Redirect.HostHeader, Redirect.TargetPath, Unlines, Redirect.Peeked;
    var p := Redirect.Peeked(arrived);
    var host, path := Redirect.HostHeader(p), Redirect.TargetPath(p);
    Redirect.NeverCut(p);
    Redirect.AnswerText(host, path);
  }

  /** A redirect, read back: 301, no content, the Location, and the close. */
  lemma RedirectReads(arrived: string)
    requires !Contains(Redirect.TargetPath(Redirect.Peeked(arrived)), CRLF)
    ensures var p := Redirect.Peeked(arrived);
            var d := DecodeOne(Redirect.Redirected(arrived));
            && d.Some? && d.value.1 == "" && var m := d.value.0;
            && StatusOf(m) == Some(301) && m.content == ""
            && FieldOf(m, "Location") == Some("https://" + Redirect.HostHeader(p) + Redirect.TargetPath(p))
            && FieldOf(m, "Server") == Some("LITH/1.0.9") && FieldOf(m, "Connection") == Some("close")
  {
    hide Redirect.Answer, Redirect.HostHeader, Redirect.TargetPath, Redirect.Peeked, DecodeOne, Field, Contains;
    var p := Redirect.Peeked(arrived);
    Redirect.AnswerFramed(p);
    RedirectFields(Redirect.HostHeader(p), Redirect.TargetPath(p));
  }

  /** When the peek fails, the client is sent to the start page of the default host. */
  lemma DefaultRedirect()
    ensures Redirect.HostHeader(Redirect.Peeked("")) == "localhost:8090"
    ensures Redirect.TargetPath(Redirect.Peeked("")) == "/"
  {
    Redirect.NothingPeeked();
  }

  lemma RedirectFields(host: string, path: string)
    ensures var ls := Redirect.Lines301(host, path);
            && StatusOf(Message(ls, "")) == Some(301)
            && Field(ls[1..], "Server") == Some("LITH/1.0.9") && Field(ls[1..], "Connection") == Some("close")
  {
    hide Field, StatusOf, Dec;
    var ls := Redirect.Lines301(host, path);
    ThreeOhOne();
    StatusRead(ls[0], 301, "Moved Permanently", ls, "");
    var fields := ls[1..];
    assert "Server" + ": " == "Server: " && "Connection" + ": " == "Connection: ";
    assert "Server: LITH/" + "1.0.9" == "Server: " + "LITH/1.0.9";
    FieldAt(fields, "Server", "LITH/1.0.9", 0);
    assert fields[0][0] == 'S' && fields[1][0] == 'L' && fields[2][3] == 't' && "Connection: "[3] == 'n';
    FieldAt(fields, "Connection", "close", 3);
  }

  lemma ThreeOhOne()
    ensures "HTTP/1.1 301 Moved Permanently" == "HTTP/1.1 " + Dec(301) + " " + "Moved Permanently"
  {
    assert Dec(301 / 10 / 10) == "3" && Dec(301 / 10) == "30" && Dec(301) == "301";
  }
}
