/**
 Responses as bytes on the wire, and a client that cuts the stream back into messages by
 Content-Length (sections 6.2 and 6.3 of RFC 9112).
 */
module Framing {
  import opened Wrappers
  import opened CStrings
  import opened Decimal

  const CRLF: string := "\r\n"

  /** The size of every header buffer. */
  const HEADER_SIZE := 384

  /** The lines of the head and the bytes handed to SSL_write after it. */
  datatype Response = Response(lines: seq<string>, content: string)

  function Unlines(lines: seq<string>): string {
    if lines == [] then CRLF else lines[0] + CRLF + Unlines(lines[1..])
  }

  /** What snprintf leaves in the header buffer, which SSL_write sends up to its NUL. */
  function HeadBytes(r: Response): string {
    Snprintf(HEADER_SIZE, Unlines(r.lines))
  }

  /** `SSL_write(ssl, content, (int)size)`: a negative length writes nothing. */
  function BodyBytes(content: string): (b: string)
    ensures b == content <==> |content| < 0x8000_0000
  {
    var n := IntCast(|content|);
    if 0 <= n then content[..n] else ""
  }

  function Wire(r: Response): string {
    HeadBytes(r) + BodyBytes(r.content)
  }

  function WireAll(rs: seq<Response>): string {
    if rs == [] then "" else Wire(rs[0]) + WireAll(rs[1..])
  }

  // ---------- The responses of the server ----------

  function ConnState(keepAlive: bool): string {
    if keepAlive then "keep-alive" else "close"
  }

  /** The four lines that every response starts with. */
  function Head(first: string, length: nat, mime: string, state: string): seq<string> {
    [first, "Content-Length: " + Dec(length), "Content-Type: " + mime, "Connection: " + state]
  }

  /** The 200 responses of handle_http_route. */
  function Ok(mime: string, content: string, keepAlive: bool): Response {
    Response(Head("HTTP/1.1 200 OK", |content|, mime, ConnState(keepAlive)) + ["Keep-Alive: timeout=3, max=100"],
             content)
  }

  /** `send_http_error` with the page that `get_error_html` made. */
  function Error(status: nat, text: string, page: string, keepAlive: bool): Response {
    Response(Head("HTTP/1.1 " + Dec(status) + " " + text, |page|, "text/html",
                  if status == 400 then "close" else ConnState(keepAlive)), page)
  }

  function PostText(announced: int): string {
    "{\"status\":\"success\",\"message\":\"Data received successfully secure by LITH\",\"bytes_processed\":"
    + DecInt(announced) + "}"
  }

  /** The answer to a POST, which echoes the announced length. */
  function PostBody(announced: int): string {
    Snprintf(512, PostText(announced))
  }

  // ---------- The client ----------

  datatype Message = Message(lines: seq<string>, content: string)

  /** Lines up to the first empty one, and what follows. */
  function ReadHead(s: string): (r: Option<(seq<string>, string)>)
    ensures r.Some? ==> |r.value.1| < |s|
    decreases |s|
  {
    match Find(s, CRLF, 0)
    case None => None
    case Some(k) =>
      if k == 0 then Some(([], s[2..]))
      else match ReadHead(s[k + 2..])
        case None => None
        case Some((ls, rest)) => Some(([s[..k]] + ls, rest))
  }

  /** The value of the first field line with the name. */
  function Field(lines: seq<string>, name: string): Option<string> {
    if lines == [] then None
    else if name + ": " <= lines[0] then Some(lines[0][|name| + 2..])
    else Field(lines[1..], name)
  }

  /** One message: a head, then Content-Length bytes. */
  function DecodeOne(s: string): (r: Option<(Message, string)>)
    ensures r.Some? ==> |r.value.1| < |s|
  {
    match ReadHead(s)
    case None => None
    case Some((lines, rest)) =>
      if lines == [] then None
      else match Field(lines[1..], "Content-Length")
        case None => None
        case Some(v) =>
          if v == "" || DigitSpan(v) < |v| then None
          else
            assert v[..DigitSpan(v)] == v;
            var n := Value(v);
            if |rest| < n then None else Some((Message(lines, rest[..n]), rest[n..]))
  }

  function DecodeAll(s: string): Option<seq<Message>>
    decreases |s|
  {
    if s == "" then Some([])
    else match DecodeOne(s)
      case None => None
      case Some((m, rest)) =>
        match DecodeAll(rest)
        case None => None
        case Some(ms) => Some([m] + ms)
  }

  /** The server has announced that it will not read another request (section 9.6 of RFC 9112). */
  predicate AnnouncesClose(m: Message) {
    m.lines != [] && Field(m.lines[1..], "Connection") == Some("close")
  }

  /** The server has announced that it will read another request. */
  predicate AnnouncesStay(m: Message) {
    m.lines != [] && Field(m.lines[1..], "Connection") == Some("keep-alive")
  }

  // ---------- Framing ----------

  predicate LineOk(l: string) {
    l != "" && '\r' !in l
  }

  /** The head fits its buffer, and its length field tells the size of the content. */
  predicate Framed(r: Response) {
    && r.lines != []
    && (forall i :: 0 <= i < |r.lines| ==> LineOk(r.lines[i]))
    && |Unlines(r.lines)| < HEADER_SIZE
    && Field(r.lines[1..], "Content-Length") == Some(Dec(|r.content|))
  }

  lemma {:induction false} ReadHeadUnlines(lines: seq<string>, rest: string)
    requires forall i :: 0 <= i < |lines| ==> LineOk(lines[i])
    ensures ReadHead(Unlines(lines) + rest) == Some((lines, rest))
  {
    var s := Unlines(lines) + rest;
    if lines == [] {
      assert s[0..0 + 2] == CRLF;
      assert s[2..] == rest;
    } else {
      var tail := Unlines(lines[1..]) + rest;
      assert s == lines[0] + CRLF + tail;
      FindAfter(lines[0], CRLF, tail);
      assert s[|lines[0]| + 2..] == tail && s[..|lines[0]|] == lines[0];
      ReadHeadUnlines(lines[1..], rest);
      assert [lines[0]] + lines[1..] == lines;
    }
  }

  lemma DecodeFramed(r: Response, body: string, rest: string)
    requires Framed(r)
    ensures var s := HeadBytes(r) + body + rest;
            DecodeOne(s) == if |body + rest| < |r.content| then None
                            else Some((Message(r.lines, (body + rest)[..|r.content|]), (body + rest)[|r.content|..]))
  {
    var s := HeadBytes(r) + body + rest;
    assert s == Unlines(r.lines) + (body + rest);
    ReadHeadUnlines(r.lines, body + rest);
    var v := Dec(|r.content|);
    DigitSpanAppend(v, "");
    assert v + "" == v;
    ValueDec(|r.content|);
  }

  /**
   A framed response is read back as itself exactly when its content survives the conversion of its
   length to `int`, that is, when it is shorter than 2 GiB.
   */
  lemma RoundTripIff(r: Response)
    requires Framed(r)
    ensures DecodeOne(Wire(r)) == Some((Message(r.lines, r.content), "")) <==> |r.content| < 0x8000_0000
  {
    var b := BodyBytes(r.content);
    DecodeFramed(r, b, "");
    assert HeadBytes(r) + b + "" == Wire(r) && b + "" == b;
    assert |b| == |r.content| ==> b[..|r.content|] == b;
  }

  function MessageOf(r: Response): Message {
    Message(r.lines, r.content)
  }

  function Messages(rs: seq<Response>): seq<Message> {
    seq(|rs|, i requires 0 <= i < |rs| => MessageOf(rs[i]))
  }

  /** The client recovers exactly the responses from the concatenated stream. */
  lemma {:induction false} StreamRoundTrip(rs: seq<Response>)
    requires forall i :: 0 <= i < |rs| ==> Framed(rs[i]) && |rs[i].content| < 0x8000_0000
    ensures DecodeAll(WireAll(rs)) == Some(Messages(rs))
  {
    hide DecodeOne, HeadBytes, Framed, IntCast;
    if rs != [] {
      var r, more := rs[0], WireAll(rs[1..]);
      DecodeFramed(r, r.content, more);
      var s := WireAll(rs);
      assert s == HeadBytes(r) + r.content + more;
      assert (r.content + more)[..|r.content|] == r.content && (r.content + more)[|r.content|..] == more;
      StreamRoundTrip(rs[1..]);
      assert Messages(rs) == [MessageOf(r)] + Messages(rs[1..]);
      assert s != "";
    }
  }

  lemma {:induction false} UnlinesLength(lines: seq<string>, bound: nat)
    requires forall i :: 0 <= i < |lines| ==> |lines[i]| <= bound
    ensures |Unlines(lines)| <= |lines| * (bound + 2) + 2
  {
    if lines != [] {
      UnlinesLength(lines[1..], bound);
    }
  }

  lemma FieldAt(lines: seq<string>, name: string, value: string, i: nat)
    requires i < |lines| && lines[i] == name + ": " + value
    requires forall j :: 0 <= j < i ==> !(name + ": " <= lines[j])
    ensures Field(lines, name) == Some(value)
  {
    if i == 0 {
      assert lines[0][|name| + 2..] == value;
    } else {
      FieldAt(lines[1..], name, value, i - 1);
    }
  }

  /** The length and connection fields of a head, whatever lines come after the four. */
  lemma HeadFields(first: string, length: nat, mime: string, state: string, more: seq<string>)
    ensures Field((Head(first, length, mime, state) + more)[1..], "Content-Length") == Some(Dec(length))
    ensures Field((Head(first, length, mime, state) + more)[1..], "Connection") == Some(state)
  {
    var ls := (Head(first, length, mime, state) + more)[1..];
    assert "Content-Length" + ": " == "Content-Length: ";
    FieldAt(ls, "Content-Length", Dec(length), 0);
    var name := "Connection" + ": ";
    assert name == "Connection: ";
    assert name[3] == 'n' && ls[0][3] == 't' && ls[1][3] == 't';
    FieldAt(ls, "Connection", state, 2);
  }

  lemma HeadLines(first: string, length: nat, mime: string, state: string)
    requires LineOk(first) && |first| <= 77 && '\r' !in mime && |mime| <= 63 && '\r' !in state && |state| <= 10
    requires length < 0x1_0000_0000_0000_0000
    ensures var ls := Head(first, length, mime, state); forall i :: 0 <= i < 4 ==> LineOk(ls[i]) && |ls[i]| <= 77
  {
    DecSizeT(length);
  }

  /** Every head that the server prints fits its 384-byte buffer: no header is ever cut. */
  lemma HeadFits(lines: seq<string>)
    requires || |lines| <= 4
             || (|lines| == 5 && lines[4] == "Keep-Alive: timeout=3, max=100" && |lines[0]| <= 20 && |lines[3]| <= 22)
    requires forall i :: 0 <= i < |lines| ==> |lines[i]| <= 77
    ensures |Unlines(lines)| < HEADER_SIZE
  {
    if |lines| <= 4 {
      UnlinesLength(lines, 77);
    } else {
      var l1, l2, l3, l4 := lines[1..], lines[2..], lines[3..], lines[4..];
      assert l1[1..] == l2 && l2[1..] == l3 && l3[1..] == l4 && l4[1..] == [];
      assert l1[0] == lines[1] && l2[0] == lines[2] && l3[0] == lines[3] && l4[0] == lines[4];
      assert |Unlines(l4)| == 34;
    }
  }

  /** Every 200 response is framed, and its Connection field says whether the server stays. */
  lemma OkFramed(mime: string, content: string, keepAlive: bool)
    requires '\r' !in mime && |mime| <= 63 && |content| < 0x1_0000_0000_0000_0000
    ensures Framed(Ok(mime, content, keepAlive))
    ensures AnnouncesClose(MessageOf(Ok(mime, content, keepAlive))) <==> !keepAlive
    ensures AnnouncesStay(MessageOf(Ok(mime, content, keepAlive))) <==> keepAlive
  {
    hide Unlines, Field, Dec;
    var first, state := "HTTP/1.1 200 OK", ConnState(keepAlive);
    HeadFields(first, |content|, mime, state, ["Keep-Alive: timeout=3, max=100"]);
    HeadLines(first, |content|, mime, state);
    HeadFits(Ok(mime, content, keepAlive).lines);
    assert ConnState(true)[0] != ConnState(false)[0];
  }

  lemma ErrorFramed(status: nat, text: string, page: string, keepAlive: bool)
    requires status < 1000 && '\r' !in text && |text| <= 40 && |page| < 0x1_0000_0000_0000_0000
    ensures Framed(Error(status, text, page, keepAlive))
    ensures AnnouncesClose(MessageOf(Error(status, text, page, keepAlive))) <==> status == 400 || !keepAlive
    ensures AnnouncesStay(MessageOf(Error(status, text, page, keepAlive))) <==> status != 400 && keepAlive
  {
    hide Unlines, Field;
    var first := "HTTP/1.1 " + Dec(status) + " " + text;
    var state := if status == 400 then "close" else ConnState(keepAlive);
    DecSizeT(status);
    HeadFields(first, |page|, "text/html", state, []);
    HeadLines(first, |page|, "text/html", state);
    var lines := Error(status, text, page, keepAlive).lines;
    assert lines + [] == lines;
    HeadFits(lines);
    assert ConnState(true)[0] != ConnState(false)[0];
  }

  /** The POST answer is never cut: it is the whole JSON object. */
  lemma PostBodyWhole(announced: int)
    requires LONG_MIN <= announced <= LONG_MAX
    ensures PostBody(announced) == PostText(announced)
  {
    DecSizeT(if announced < 0 then -announced else announced);
  }
}
