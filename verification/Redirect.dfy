/** The cleartext branch of `lith_client_handler`: the 301 answer built from the peeked request. */
module Redirect {
  import opened Wrappers
  import opened CStrings
  import opened Decimal
  import opened Framing

  const LITH_VERSION := "1.0.9"
  const PEEK_SIZE := 1024
  const PIECE_SIZE := 256
  const RESPONSE_SIZE := 1024
  const DEFAULT_HOST := "localhost:8090"

  /** What the second peek leaves in its zero-filled buffer of what has arrived: at most 1023 bytes. */
  function Peeked(arrived: string): (p: string)
    ensures |p| <= PEEK_SIZE - 1 && p <= arrived
  {
    CStr(Cut(PEEK_SIZE - 1, arrived))
  }

  /** The text between `start` and `end` when it fits a 256-byte buffer, else the default. */
  function Piece(req: string, start: nat, end: Option<nat>, default: string): string
    requires end.Some? ==> start <= end.value <= |req|
  {
    if end.Some? && end.value - start < PIECE_SIZE then req[start..end.value] else default
  }

  function TargetPath(req: string): string {
    match Find(req, " ", 0)
    case None => "/"
    case Some(i) => Piece(req, i + 1, Find(req, " ", i + 1), "/")
  }

  function HostEnd(req: string, start: nat): (r: Option<nat>)
    ensures r.Some? ==> start <= r.value <= |req|
  {
    if Find(req, "\r", start).Some? then Find(req, "\r", start) else Find(req, "\n", start)
  }

  function HostHeader(req: string): string {
    match Find(req, "Host: ", 0)
    case None => DEFAULT_HOST
    case Some(i) => Piece(req, i + 6, HostEnd(req, i + 6), DEFAULT_HOST)
  }

  function Lines301(host: string, path: string): seq<string> {
    ["HTTP/1.1 301 Moved Permanently",
     "Server: LITH/" + LITH_VERSION,
     "Location: " + ("https://" + host + path),
     "Content-Length: 0",
     "Connection: close"]
  }

  /** The bytes sent for a peeked request. */
  function Answer(req: string): string {
    Snprintf(RESPONSE_SIZE, Unlines(Lines301(HostHeader(req), TargetPath(req))))
  }

  /** The redirect of a request of which `arrived` has arrived. */
  function Redirected(arrived: string): string {
    Answer(Peeked(arrived))
  }

  /** The peek takes all that has arrived, up to 1023 bytes; a NUL ends what the string calls see of it. */
  lemma PeekedIs(arrived: string)
    requires NUL !in arrived
    ensures Peeked(arrived) == if |arrived| <= 1023 then arrived else arrived[..1023]
  {
    CStrIs(Cut(PEEK_SIZE - 1, arrived), Cut(PEEK_SIZE - 1, arrived));
  }

  // ---------- The code ----------

  /** `strncpy(dst, start, len); dst[len] = 0` with `len = end - start`, when it fits. */
  method CopyPiece(req: array<char>, start: nat, end: Option<nat>, dst: array<char>)
    requires Terminated(req[..]) && dst.Length == PIECE_SIZE && dst != req
    requires start <= StrLen(req[..]) && (end.Some? ==> start <= end.value <= StrLen(req[..]))
    requires Terminated(dst[..])
    modifies dst
    ensures Terminated(dst[..])
    ensures CStr(dst[..]) == Piece(CStr(req[..]), start, end, old(CStr(dst[..])))
  {
    if end.Some? && end.value - start < dst.Length {
      var len := end.value - start;
      ghost var text := CStr(req[..])[start..end.value];
      assert NUL !in text;
      StrNCpy(dst, CStr(req[..])[start..], len);
      dst[len] := NUL;
      assert dst[..][..len] == text;
      CStrIs(dst[..], text);
    }
  }

  /** `recv(client_socket, peek_req, sizeof(peek_req) - 1, MSG_PEEK)` into zeros; 0 also stands for a failure. */
  method Peek(arrived: string) returns (peekReq: array<char>, reqLen: nat)
    ensures fresh(peekReq) && Terminated(peekReq[..]) && CStr(peekReq[..]) == Peeked(arrived)
    ensures reqLen == 0 <==> arrived == ""
  {
    var got := Cut(PEEK_SIZE - 1, arrived);
    peekReq := new char[PEEK_SIZE](_ => NUL);
    reqLen := |got|;
    forall i | 0 <= i < reqLen {
      peekReq[i] := got[i];
    }
    var t := CStr(got);
    assert peekReq[..][..reqLen] == got;
    assert peekReq[..][..|t|] == t;
    CStrIs(peekReq[..], t);
  }

  /** The path, when two blanks are there; else the default stays. */
  method ExtractPath(peekReq: array<char>, targetPath: array<char>)
    requires Terminated(peekReq[..]) && targetPath.Length == PIECE_SIZE && targetPath != peekReq
    requires Terminated(targetPath[..]) && CStr(targetPath[..]) == "/"
    modifies targetPath
    ensures Terminated(targetPath[..]) && CStr(targetPath[..]) == TargetPath(CStr(peekReq[..]))
  {
    hide Find, StrLen;
    var req := CStr(peekReq[..]);
    var pathStart := Find(req, " ", 0);
    if pathStart != None {
      CopyPiece(peekReq, pathStart.value + 1, Find(req, " ", pathStart.value + 1), targetPath);
    }
  }

  method ExtractHost(peekReq: array<char>, hostHeader: array<char>)
    requires Terminated(peekReq[..]) && hostHeader.Length == PIECE_SIZE && hostHeader != peekReq
    requires Terminated(hostHeader[..]) && CStr(hostHeader[..]) == DEFAULT_HOST
    modifies hostHeader
    ensures Terminated(hostHeader[..]) && CStr(hostHeader[..]) == HostHeader(CStr(peekReq[..]))
  {
    hide Find, StrLen;
    var req := CStr(peekReq[..]);
    var hostStart := Find(req, "Host: ", 0);
    if hostStart != None {
      var start := hostStart.value + 6;
      var hostEnd := Find(req, "\r", start);
      if hostEnd == None {
        hostEnd := Find(req, "\n", start);
      }
      CopyPiece(peekReq, start, hostEnd, hostHeader);
    }
  }

  /** `arrived` is what the client has sent so far, or nothing when the peek fails. */
  method BuildRedirect(arrived: string) returns (sent: string)
    ensures sent == Redirected(arrived)
  {
    hide Lines301, Unlines, StrLen, CStr, Terminated;
    var targetPath := new char[PIECE_SIZE];
    var hostHeader := new char[PIECE_SIZE];
    BoundedCopy(targetPath, "/");
    BoundedCopy(hostHeader, DEFAULT_HOST);
    var peekReq, reqLen := Peek(arrived);
    if reqLen > 0 {
      ExtractPath(peekReq, targetPath);
      ExtractHost(peekReq, hostHeader);
    } else {
      NothingPeeked();
    }
    sent := Snprintf(RESPONSE_SIZE, Unlines(Lines301(CStr(hostHeader[..]), CStr(targetPath[..]))));
  }

  lemma NothingPeeked()
    ensures Peeked("") == "" && TargetPath("") == "/" && HostHeader("") == DEFAULT_HOST
  {
  }

  // ---------- Properties ----------

  lemma PiecesFit(req: string)
    ensures |TargetPath(req)| <= 255 && |HostHeader(req)| <= 255
  {
  }

  lemma UnlinesCons(l: string, ls: seq<string>)
    ensures Unlines([l] + ls) == l + CRLF + Unlines(ls)
  {
    assert ([l] + ls)[1..] == ls;
  }

  lemma AnswerText(host: string, path: string)
    ensures var ls := Lines301(host, path);
            Unlines(ls) == ls[0] + CRLF + (ls[1] + CRLF + (ls[2] + CRLF + (ls[3] + CRLF + (ls[4] + CRLF + CRLF))))
  {
    hide Lines301, Unlines;
    var ls := Lines301(host, path);
    FiveLines(host, path);
    UnlinesCons(ls[4], []);
    UnlinesCons(ls[3], [ls[4]]);
    UnlinesCons(ls[2], [ls[3]] + [ls[4]]);
    UnlinesCons(ls[1], [ls[2]] + ([ls[3]] + [ls[4]]));
    UnlinesCons(ls[0], [ls[1]] + ([ls[2]] + ([ls[3]] + [ls[4]])));
    assert [ls[4]] + [] == [ls[4]];
    assert ls == [ls[0]] + ([ls[1]] + ([ls[2]] + ([ls[3]] + [ls[4]])));
  }

  lemma FiveLines(host: string, path: string)
    ensures |Lines301(host, path)| == 5 && Unlines([]) == CRLF
    ensures |Lines301(host, path)[0]| == 30 && |Lines301(host, path)[1]| == 18
    ensures |Lines301(host, path)[2]| == 18 + |host| + |path| && Lines301(host, path)[2][18..] == host + path
    ensures |Lines301(host, path)[3]| == 17 && |Lines301(host, path)[4]| == 17
  {
    assert "Location: " + ("https://" + host + path) == ("Location: " + "https://") + (host + path);
  }

  lemma AnswerLength(host: string, path: string)
    ensures |Unlines(Lines301(host, path))| == 112 + |host| + |path|
  {
    hide Lines301, Unlines;
    AnswerText(host, path);
    FiveLines(host, path);
  }

  /** Whatever was peeked, the answer is at most 622 bytes and is never cut by its buffer. */
  lemma NeverCut(req: string)
    ensures |Answer(req)| <= 622
    ensures Answer(req) == Unlines(Lines301(HostHeader(req), TargetPath(req)))
  {
    PiecesFit(req);
    AnswerLength(HostHeader(req), TargetPath(req));
  }

  predicate TokenOk(t: string) {
    ' ' !in t
  }

  /** The request line. */
  function StartLine(m: string, path: string, more: string): string {
    m + [' '] + (path + [' '] + ("HTTP/1.1\r\n" + more))
  }

  /** A request as a browser sends it in clear: any headers `pre`, the host line, and anything after it. */
  function RequestText(m: string, path: string, pre: string, host: string, rest: string): string {
    StartLine(m, path, pre) + "Host: " + HostLine(host, rest)
  }

  /** From the host's value on. */
  function HostLine(host: string, rest: string): string {
    host + "\r" + ("\n" + rest)
  }

  /** Where the text at `n` holds `c`, a one-byte search that skips the bytes before it finds it. */
  lemma FindByte(s: string, c: char, from: nat, n: nat)
    requires from <= n < |s| && s[n] == c && forall i :: from <= i < n ==> s[i] != c
    ensures Find(s, [c], from) == Some(n)
  {
    forall j: nat | from <= j < n ensures !OccursAt(s, [c], j) {
      OccursByte(s, [c], j, 0);
    }
    assert s[n..n + 1] == [c];
    FindIs(s, [c], from, n);
  }

  /** The same, counted from where the search starts. */
  lemma ByteFound(s: string, start: nat, c: char, e: nat)
    requires start + e < |s| && s[start..][e] == c && c !in s[start..][..e]
    ensures Find(s, [c], start) == Some(start + e) && s[start..start + e] == s[start..][..e]
  {
    hide Find;
    forall i | start <= i < start + e ensures s[i] != c {
      assert s[start..][..e][i - start] == s[i];
    }
    FindByte(s, c, start, start + e);
  }

  /** An occurrence that has arrived whole. */
  lemma OccursInPrefix(s: string, p: string, pat: string, j: nat)
    requires p <= s
    ensures OccursAt(p, pat, j) <==> OccursAt(s, pat, j) && j + |pat| <= |p|
  {
    if j + |pat| <= |p| {
      assert p[j..j + |pat|] == s[j..j + |pat|];
    }
  }

  /** Searching in what has arrived of a text. */
  lemma FindInPrefix(s: string, p: string, pat: string, from: nat)
    requires p <= s
    ensures Find(p, pat, from) == match Find(s, pat, from)
                                  case None => None
                                  case Some(j) => if j + |pat| <= |p| then Some(j) else None
  {
    hide Find, OccursAt;
    forall j: nat ensures OccursAt(p, pat, j) <==> OccursAt(s, pat, j) && j + |pat| <= |p| {
      OccursInPrefix(s, p, pat, j);
    }
    match Find(s, pat, from)
    case None =>
    case Some(j) =>
      if j + |pat| <= |p| {
        FindIs(p, pat, from, j);
      }
  }

  /** The first two blanks stand around the path. */
  lemma Blanks(m: string, path: string, more: string)
    requires TokenOk(m) && TokenOk(path)
    ensures var s, b := m + [' '] + (path + [' '] + more), |m| + 1 + |path|;
            && b < |s| && s[|m| + 1..b] == path
            && Find(s, " ", 0) == Some(|m|) && Find(s, " ", |m| + 1) == Some(b)
  {
    hide Find;
    var s := m + [' '] + (path + [' '] + more);
    var a, b := |m|, |m| + 1 + |path|;
    var after := path + [' '] + more;
    assert s[0..] == s && s[..a] == m && s[a + 1..] == after && after[..|path|] == path;
    ByteFound(s, 0, ' ', a);
    ByteFound(s, a + 1, ' ', |path|);
  }

  /** The path is read once the blank after it has arrived. */
  lemma PathExtracted(m: string, path: string, more: string, p: string)
    requires TokenOk(m) && TokenOk(path) && p <= m + [' '] + (path + [' '] + more)
    ensures TargetPath(p) == if |path| <= 255 && |m| + 1 + |path| < |p| then path else "/"
  {
    hide Find;
    var s := m + [' '] + (path + [' '] + more);
    var a, b := |m|, |m| + 1 + |path|;
    Blanks(m, path, more);
    FindInPrefix(s, p, " ", 0);
    FindInPrefix(s, p, " ", a + 1);
    if b < |p| {
      assert p[a + 1..b] == s[a + 1..b];
    }
  }

  lemma PathOfRequest(m: string, path: string, pre: string, host: string, rest: string, p: string)
    requires TokenOk(m) && TokenOk(path) && p <= RequestText(m, path, pre, host, rest)
    ensures TargetPath(p) == if |path| <= 255 && |m| + 1 + |path| < |p| then path else "/"
  {
    hide TargetPath, HostLine;
    var more := "HTTP/1.1\r\n" + pre;
    var after := "Host: " + HostLine(host, rest);
    assert m + [' '] + (path + [' '] + (more + after)) == m + [' '] + (path + [' '] + more) + after;
    assert RequestText(m, path, pre, host, rest) == StartLine(m, path, pre) + after;
    PathExtracted(m, path, more + after, p);
  }

  /** The header's name does not overlap itself: the first one is inside the text before, or is the one after it. */
  lemma FirstHost(x: string, y: string)
    ensures Find(x + "Host: " + y, "Host: ", 0) ==
            if Find(x, "Host: ", 0).Some? then Find(x, "Host: ", 0) else Some(|x|)
  {
    hide Find;
    var s := x + "Host: " + y;
    assert s[|x|..|x| + 6] == "Host: ";
    forall j: nat | j < |x| ensures OccursAt(s, "Host: ", j) <==> OccursAt(x, "Host: ", j) {
      if j + 6 <= |x| {
        assert s[j..j + 6] == x[j..j + 6];
      } else {
        OccursByte(s, "Host: ", j, |x| - j);
        OccursByte(s, "Host: ", |x|, 0);
      }
    }
    FindIs(s, "Host: ", 0, if Find(x, "Host: ", 0).Some? then Find(x, "Host: ", 0).value else |x|);
  }

  /** The byte that ends the host: the first carriage return, or a newline if there is none. */
  function Stop(after: string): char {
    if '\r' in after then '\r' else '\n'
  }

  /**
   What stands after the header's name is read as the host: exactly it up to the stop, or the
   default when there is no stop within 256 bytes.
   */
  predicate Names(after: string, host: string) {
    if Stop(after) in Cut(PIECE_SIZE, after) then Stop(after) !in host && host + [Stop(after)] <= after
    else host == DEFAULT_HOST
  }

  lemma NoStop(s: string, start: nat, c: char)
    requires start <= |s| && c !in s[start..]
    ensures Find(s, [c], start) == None
  {
    hide Find;
    assert forall i :: start <= i < |s| ==> s[start..][i - start] == s[i];
    forall j: nat | start <= j ensures !OccursAt(s, [c], j) {
      OccursByte(s, [c], j, 0);
    }
  }

  /** The host runs to the first stop. */
  lemma HostEndIs(s: string, start: nat, e: nat)
    requires start <= |s| && e < |s[start..]|
    requires s[start..][e] == Stop(s[start..]) && Stop(s[start..]) !in s[start..][..e]
    ensures HostEnd(s, start) == Some(start + e) && s[start..start + e] == s[start..][..e]
  {
    hide Find;
    ByteFound(s, start, Stop(s[start..]), e);
    if '\r' !in s[start..] {
      NoStop(s, start, '\r');
    }
  }

  lemma HostUpToStop(s: string, j: nat, after: string, e: nat)
    requires Find(s, "Host: ", 0) == Some(j) && j + 6 <= |s| && after == s[j + 6..]
    requires e < |after| && after[e] == Stop(after) && Stop(after) !in after[..e]
    ensures HostHeader(s) == if e < PIECE_SIZE then after[..e] else DEFAULT_HOST
  {
    hide *;
    HostEndIs(s, j + 6, e);
    HostIsPiece(s, j);
    PieceIs(s, j + 6, e);
  }

  lemma HostIsPiece(s: string, j: nat)
    requires Find(s, "Host: ", 0) == Some(j) && j + 6 <= |s|
    ensures HostHeader(s) == Piece(s, j + 6, HostEnd(s, j + 6), DEFAULT_HOST)
  {
    hide Find, OccursAt, HostEnd, Piece;
  }

  lemma PieceIs(s: string, start: nat, e: nat)
    requires start + e <= |s| && s[start..start + e] == s[start..][..e]
    ensures Piece(s, start, Some(start + e), DEFAULT_HOST) == if e < PIECE_SIZE then s[start..][..e] else DEFAULT_HOST
  {
  }

  lemma HostWithoutStop(s: string, j: nat)
    requires Find(s, "Host: ", 0) == Some(j) && j + 6 <= |s| && Stop(s[j + 6..]) !in s[j + 6..]
    ensures HostHeader(s) == DEFAULT_HOST
  {
    hide Find, OccursAt;
    NoStop(s, j + 6, '\r');
    NoStop(s, j + 6, '\n');
  }

  /** Text up to the first stop, as a prefix. */
  lemma UpToStop(after: string, c: char, e: nat, host: string)
    requires e < |after| && after[e] == c && c !in after[..e]
    ensures after[..e] == host <==> c !in host && host + [c] <= after
  {
    assert after[..e + 1] == after[..e] + [c];
    if c !in host && host + [c] <= after {
      assert after[|host|] == (host + [c])[|host|] == c;
      assert after[..|host|] == (host + [c])[..|host|] == host;
      assert forall i :: 0 <= i < e ==> after[i] in after[..e];
      assert forall i :: 0 <= i < |host| ==> after[i] in after[..|host|];
    }
  }

  lemma HostRead(s: string, j: nat, host: string)
    requires Find(s, "Host: ", 0) == Some(j) && j + 6 <= |s|
    ensures HostHeader(s) == host <==> Names(s[j + 6..], host)
  {
    hide Find, OccursAt, HostHeader, Stop;
    var after := s[j + 6..];
    if Stop(after) in after {
      var e := FirstOf(after, Stop(after));
      HostUpToStop(s, j, after, e);
      UpToStop(after, Stop(after), e, host);
      StopWithin(after, Stop(after), e);
    } else {
      HostWithoutStop(s, j);
      assert Stop(after) !in Cut(PIECE_SIZE, after);
    }
  }

  lemma StopWithin(after: string, c: char, e: nat)
    requires e < |after| && after[e] == c && c !in after[..e]
    ensures c in Cut(PIECE_SIZE, after) <==> e < PIECE_SIZE
  {
    if e < PIECE_SIZE {
      assert Cut(PIECE_SIZE, after)[e] == c;
    } else {
      assert Cut(PIECE_SIZE, after) <= after[..e];
    }
  }

  lemma FirstOf(t: string, c: char) returns (e: nat)
    requires c in t
    ensures e < |t| && t[e] == c && c !in t[..e]
  {
    if t[0] == c {
      e := 0;
    } else {
      e := FirstOf(t[1..], c);
      e := e + 1;
    }
  }

  /** The request's path, or one that equals the default, has been read. */
  predicate PathArrived(m: string, path: string, p: string) {
    |m| + 1 + |path| < |p| || path == "/"
  }

  /**
   The header that decides: the first `Host: ` of the peeked text, wherever it stands.  When nothing
   before the host line reads like it, the host must have arrived with its carriage return; otherwise
   the earlier text must name the same host; and the default serves only the default host.
   */
  predicate HostArrived(m: string, path: string, pre: string, host: string, p: string) {
    match Find(StartLine(m, path, pre), "Host: ", 0)
    case None => |StartLine(m, path, pre)| + 6 + |host| < |p| || host == DEFAULT_HOST
    case Some(j) => if j + 6 <= |p| then Names(p[j + 6..], host) else host == DEFAULT_HOST
  }

  /** What has arrived of the host line's value. */
  lemma OwnLine(host: string, rest: string, after: string)
    requires after <= HostLine(host, rest) && '\r' !in host && |host| <= 255
    ensures Names(after, host) <==> |host| < |after| || host == DEFAULT_HOST
  {
    if |host| < |after| {
      assert after[|host|] == '\r' && host + "\r" == after[..|host| + 1];
      assert Cut(PIECE_SIZE, after)[|host|] == '\r';
    } else {
      assert after == host[..|after|];
      assert Cut(PIECE_SIZE, after) == after;
      assert '\n' !in DEFAULT_HOST;
    }
  }

  lemma HostOfRequest(m: string, path: string, pre: string, host: string, rest: string, p: string)
    requires '\r' !in host && |host| <= 255 && p <= RequestText(m, path, pre, host, rest)
    ensures HostHeader(p) == host <==> HostArrived(m, path, pre, host, p)
  {
    hide Find, Names, StartLine;
    var x, y := StartLine(m, path, pre), HostLine(host, rest);
    var s := RequestText(m, path, pre, host, rest);
    FirstHost(x, y);
    FindInPrefix(s, p, "Host: ", 0);
    var first := Find(p, "Host: ", 0);
    if first.Some? {
      HostRead(p, first.value, host);
      if Find(x, "Host: ", 0).None? {
        assert s[|x| + 6..] == y && p[|x| + 6..] <= y;
        OwnLine(host, rest, p[|x| + 6..]);
      }
    }
  }

  /** A request as browsers write it: no colon in the method, a path from the root, no slash in the host. */
  predicate OriginForm(m: string, path: string, host: string) {
    ':' !in m && path != "" && path[0] == '/' && '/' !in host
  }

  /** A request line that has not arrived whole names no host. */
  lemma NoHostYet(m: string, path: string, more: string, p: string)
    requires TokenOk(m) && TokenOk(path) && ':' !in m && p <= m + [' '] + (path + [' '] + more)
    requires |p| <= |m| + 1 + |path|
    ensures Find(p, "Host: ", 0) == None
  {
    hide Find;
    assert forall i :: |m| < i < |p| ==> p[i] == path[i - |m| - 1];
    forall j: nat ensures !OccursAt(p, "Host: ", j) {
      OccursByte(p, "Host: ", j, 5);
      OccursByte(p, "Host: ", j, 4);
    }
  }

  /**
   The redirect names the request's own host and path exactly when both have arrived within the
   peeked bytes and the first `Host: ` is the header's own or names the same host.  The answer's
   bytes are then those of the right redirect, and only then when the request line has arrived or
   is of the ordinary form.
   */
  lemma RedirectTarget(m: string, path: string, pre: string, host: string, rest: string, arrived: string)
    requires TokenOk(m) && TokenOk(path) && '\r' !in host && |host| <= 255 && |path| <= 255
    requires arrived <= RequestText(m, path, pre, host, rest)
    ensures var p := Peeked(arrived);
            var right := PathArrived(m, path, p) && HostArrived(m, path, pre, host, p);
            && (TargetPath(p) == path && HostHeader(p) == host <==> right)
            && (right ==> Redirected(arrived) == Unlines(Lines301(host, path)))
            && (Redirected(arrived) == Unlines(Lines301(host, path)) ==>
                  right || (|p| <= |m| + 1 + |path| && !OriginForm(m, path, host)))
  {
    hide RequestText, Answer, Lines301, TargetPath, HostHeader, HostArrived, Unlines, OriginForm, Peeked;
    var p := Peeked(arrived);
    NeverCut(p);
    PathOfRequest(m, path, pre, host, rest, p);
    HostOfRequest(m, path, pre, host, rest, p);
    if HostHeader(p) + TargetPath(p) != host + path {
      LocationDiffers(HostHeader(p), TargetPath(p), host, path);
    } else if |p| <= |m| + 1 + |path| && OriginForm(m, path, host) {
      CutInLine(m, path, pre, host, rest, p);
    } else if |m| + 1 + |path| < |p| {
      SamePath(HostHeader(p), host, path);
    }
  }

  lemma SamePath(h1: string, h2: string, path: string)
    requires h1 + path == h2 + path
    ensures h1 == h2
  {
    assert |h1| == |h2|;
    assert (h1 + path)[..|h1|] == h1 && (h2 + path)[..|h2|] == h2;
  }

  /** Cut inside its request line, an ordinary request is sent to the default, which is its own only by chance. */
  lemma CutInLine(m: string, path: string, pre: string, host: string, rest: string, p: string)
    requires TokenOk(m) && TokenOk(path) && OriginForm(m, path, host)
    requires p <= RequestText(m, path, pre, host, rest) && |p| <= |m| + 1 + |path|
    requires HostHeader(p) + TargetPath(p) == host + path
    ensures HostHeader(p) == host && TargetPath(p) == path
  {
    hide Find, StartLine, HostLine;
    PathOfRequest(m, path, pre, host, rest, p);
    var more := "HTTP/1.1\r\n" + pre;
    RequestStart(m, path, pre, host, rest);
    assert p <= m + [' '] + (path + [' '] + more);
    NoHostYet(m, path, more, p);
    SlashSplits(DEFAULT_HOST, "/", host, path);
  }

  lemma RequestStart(m: string, path: string, pre: string, host: string, rest: string)
    ensures m + [' '] + (path + [' '] + ("HTTP/1.1\r\n" + pre)) <= RequestText(m, path, pre, host, rest)
    ensures |m| + 1 + |path| < |m + [' '] + (path + [' '] + ("HTTP/1.1\r\n" + pre))|
  {
  }

  /** The first slash of a Location ends its host. */
  lemma SlashSplits(h1: string, p1: string, h2: string, p2: string)
    requires '/' !in h1 && '/' !in h2 && p1 != "" && p1[0] == '/' && p2 != "" && p2[0] == '/'
    requires h1 + p1 == h2 + p2
    ensures h1 == h2 && p1 == p2
  {
    var l := h1 + p1;
    assert l[|h1|] == '/' && l[|h2|] == '/';
    assert forall i :: 0 <= i < |h1| ==> l[i] == h1[i] && h1[i] in h1;
    assert forall i :: 0 <= i < |h2| ==> l[i] == h2[i] && h2[i] in h2;
    assert l[..|h1|] == h1 && l[..|h2|] == h2 && l[|h1|..] == p1 && l[|h2|..] == p2;
  }

  /** Where host and path stand in the answer. */
  lemma AnswerHost(host: string, path: string)
    ensures |Unlines(Lines301(host, path))| == 112 + |host| + |path|
    ensures Unlines(Lines301(host, path))[70..70 + |host| + |path|] == host + path
  {
    hide Lines301, Unlines;
    AnswerText(host, path);
    FiveLines(host, path);
    AnswerLength(host, path);
    var ls := Lines301(host, path);
    var all := Unlines(ls);
    var third := ls[2] + CRLF + (ls[3] + CRLF + (ls[4] + CRLF + CRLF));
    assert all == ls[0] + CRLF + (ls[1] + CRLF + third);
    assert all[52..] == third;
    assert third[18..18 + |host| + |path|] == ls[2][18..];
    assert all[70..70 + |host| + |path|] == all[52..][18..18 + |host| + |path|];
  }

  lemma LocationDiffers(h1: string, p1: string, h2: string, p2: string)
    requires h1 + p1 != h2 + p2
    ensures Unlines(Lines301(h1, p1)) != Unlines(Lines301(h2, p2))
  {
    hide Unlines, Lines301;
    AnswerHost(h1, p1);
    AnswerHost(h2, p2);
  }

  /** A piece over 255 bytes, or one whose end has not arrived, falls back to its default. */
  lemma DefaultsWhenTooLong(m: string, path: string, pre: string, host: string, rest: string, arrived: string)
    requires TokenOk(m) && TokenOk(path) && !Contains(StartLine(m, path, pre), "Host: ") && '\r' !in host
    requires arrived <= RequestText(m, path, pre, host, rest)
    ensures var p := Peeked(arrived);
            var hostArrived := |StartLine(m, path, pre)| + 6 + |host| < |p|;
            hostArrived || '\n' !in host ==>
              Redirected(arrived) == Unlines(Lines301(if |host| <= 255 && hostArrived then host else DEFAULT_HOST,
                                                      if |path| <= 255 && |m| + 1 + |path| < |p| then path else "/"))
  {
    hide Answer, Lines301, TargetPath, HostHeader, Unlines, Find, StartLine, Peeked;
    var s, x, y := RequestText(m, path, pre, host, rest), StartLine(m, path, pre), HostLine(host, rest);
    var p := Peeked(arrived);
    NeverCut(p);
    PathOfRequest(m, path, pre, host, rest, p);
    FirstHost(x, y);
    FindInPrefix(s, p, "Host: ", 0);
    if |p| < |x| + 6 {
      NoHost(p);
    } else if '\n' !in host || |x| + 6 + |host| < |p| {
      var after := p[|x| + 6..];
      assert s[|x| + 6..] == y && after <= y;
      OwnHost(p, |x|, host, rest, after);
    }
  }

  lemma NoHost(p: string)
    requires Find(p, "Host: ", 0) == None
    ensures HostHeader(p) == DEFAULT_HOST
  {
  }

  lemma OwnHost(p: string, j: nat, host: string, rest: string, after: string)
    requires Find(p, "Host: ", 0) == Some(j) && j + 6 <= |p| && after == p[j + 6..] && after <= HostLine(host, rest)
    requires '\r' !in host && (|host| < |after| || '\n' !in host)
    ensures HostHeader(p) == if |host| <= 255 && |host| < |after| then host else DEFAULT_HOST
  {
    hide Find, HostHeader, OccursAt, Stop;
    OwnStop(host, rest, after);
    if |host| < |after| {
      HostUpToStop(p, j, after, |host|);
    } else {
      HostWithoutStop(p, j);
    }
  }

  /** Where what has arrived of the host line stops. */
  lemma OwnStop(host: string, rest: string, after: string)
    requires after <= HostLine(host, rest) && '\r' !in host && (|host| < |after| || '\n' !in host)
    ensures |host| < |after| ==> after[..|host|] == host && after[|host|] == Stop(after) == '\r'
    ensures |host| >= |after| ==> Stop(after) !in after
  {
    if |host| < |after| {
      assert after[|host|] == '\r' && after[..|host|] == host;
    } else {
      assert after == host[..|after|];
    }
  }

  /** So a host line that ends beyond the peeked bytes is missed, whatever it says. */
  lemma LateHostMissed(m: string, path: string, pre: string, host: string, rest: string, arrived: string)
    requires TokenOk(m) && TokenOk(path) && |path| <= 255 && !Contains(StartLine(m, path, pre), "Host: ")
    requires '\r' !in host && '\n' !in host && PEEK_SIZE - 1 <= |StartLine(m, path, pre)| + 6 + |host|
    requires arrived <= RequestText(m, path, pre, host, rest) && |m| + 1 + |path| < |Peeked(arrived)|
    ensures Redirected(arrived) == Unlines(Lines301(DEFAULT_HOST, path))
  {
    hide StartLine, Lines301, Unlines, Answer;
    DefaultsWhenTooLong(m, path, pre, host, rest, arrived);
  }

  lemma NoColon(x: string)
    requires ':' !in x
    ensures Find(x, "Host: ", 0) == None
  {
    hide Find;
    forall j: nat ensures !OccursAt(x, "Host: ", j) {
      OccursByte(x, "Host: ", j, 4);
    }
  }

  /** The host is what the first `Host: ` of the text names, once that has arrived. */
  lemma HostAfter(x: string, named: string, more: string, p: string)
    requires ':' !in x && '\r' !in named && |named| <= 255
    requires p <= x + "Host: " + (named + "\r" + more) && |x| + 6 + |named| < |p|
    ensures HostHeader(p) == named
  {
    hide Find, HostHeader;
    var y := named + "\r" + more;
    var s := x + "Host: " + y;
    NoColon(x);
    FirstHost(x, y);
    FindInPrefix(s, p, "Host: ", 0);
    var after := p[|x| + 6..];
    assert s[|x| + 6..] == y && after <= y;
    assert after[|named|] == y[|named|] == '\r' && after[..|named|] == named;
    HostUpToStop(p, |x|, after, |named|);
  }

  /** A first header `X-Forwarded-Host` is taken for the host, whatever the host line says. */
  lemma ForwardedHostWins(m: string, path: string, other: string, more: string, host: string, rest: string,
                          arrived: string)
    requires TokenOk(m) && TokenOk(path) && ':' !in m && ':' !in path && |path| <= 255
    requires '\r' !in other && |other| <= 255
    requires arrived <= RequestText(m, path, "X-Forwarded-Host: " + other + "\r\n" + more, host, rest)
    requires |StartLine(m, path, "X-Forwarded-Host: ")| + |other| < |Peeked(arrived)|
    ensures Redirected(arrived) == Unlines(Lines301(other, path))
  {
    hide Answer, Lines301, TargetPath, HostHeader, Unlines, HostLine, Peeked;
    var pre := "X-Forwarded-Host: " + other + "\r\n" + more;
    var s, p := RequestText(m, path, pre, host, rest), Peeked(arrived);
    var x := StartLine(m, path, "X-Forwarded-");
    var tail := "\n" + more + ("Host: " + HostLine(host, rest));
    NeverCut(p);
    PathOfRequest(m, path, pre, host, rest, p);
    assert "X-Forwarded-" + "Host: " == "X-Forwarded-Host: " && "\r" + "\n" == "\r\n";
    assert s == x + "Host: " + (other + "\r" + tail);
    HostAfter(x, other, tail, p);
  }

  /** And a path that ends with `Host:` is taken for the header, and the version for the host. */
  lemma PathTakenForHost(m: string, stem: string, pre: string, host: string, rest: string, arrived: string)
    requires TokenOk(m) && TokenOk(stem) && ':' !in m && ':' !in stem && |stem| <= 250
    requires arrived <= RequestText(m, stem + "Host:", pre, host, rest)
    requires |m| + |stem| + 15 < |Peeked(arrived)|
    ensures Redirected(arrived) == Unlines(Lines301("HTTP/1.1", stem + "Host:"))
  {
    hide Answer, Lines301, TargetPath, HostHeader, Unlines, HostLine, Peeked;
    var s, p := RequestText(m, stem + "Host:", pre, host, rest), Peeked(arrived);
    var x := m + [' '] + stem;
    var tail := "\n" + pre + ("Host: " + HostLine(host, rest));
    NeverCut(p);
    PathOfRequest(m, stem + "Host:", pre, host, rest, p);
    assert "Host:" + [' '] == "Host: " && "\r" + "\n" == "\r\n";
    assert s == x + "Host: " + ("HTTP/1.1" + "\r" + tail);
    HostAfter(x, "HTTP/1.1", tail, p);
  }

  /** A request that never spells the header `Host: ` is sent to the default host. */
  lemma OtherSpelling(m: string, path: string, more: string, arrived: string)
    requires TokenOk(m) && TokenOk(path) && |path| <= 255 && !Contains(StartLine(m, path, more), "Host: ")
    requires arrived <= StartLine(m, path, more) && |m| + 1 + |path| < |Peeked(arrived)|
    ensures Redirected(arrived) == Unlines(Lines301(DEFAULT_HOST, path))
  {
    hide Answer, Lines301, TargetPath, HostHeader, Unlines, Find, Peeked;
    var p := Peeked(arrived);
    NeverCut(p);
    PathExtracted(m, path, "HTTP/1.1\r\n" + more, p);
    FindInPrefix(StartLine(m, path, more), p, "Host: ", 0);
    NoHost(p);
  }

  /** For example `host: good`, although field names are case-insensitive (section 5.1 of RFC 9110). */
  lemma LowerCaseHostMissed(arrived: string)
    requires arrived <= StartLine("GET", "/", "host: good\r\n\r\n") && 5 < |Peeked(arrived)|
    ensures Redirected(arrived) == Unlines(Lines301(DEFAULT_HOST, "/"))
    ensures Redirected(arrived) != Unlines(Lines301("good", "/"))
  {
    hide Answer, Lines301, Unlines, Peeked;
    var s := StartLine("GET", "/", "host: good\r\n\r\n");
    forall j: nat ensures !OccursAt(s, "Host: ", j) {
      OccursByte(s, "Host: ", j, 0);
      OccursByte(s, "Host: ", j, 1);
    }
    OtherSpelling("GET", "/", "host: good\r\n\r\n", arrived);
    assert |"good" + "/"| == 5 && |DEFAULT_HOST + "/"| == 15;
    LocationDiffers(DEFAULT_HOST, "/", "good", "/");
  }

  /** A host never holds a carriage return: it ends at the first one. */
  lemma HostHasNoCr(req: string)
    ensures '\r' !in HostHeader(req)
  {
    hide Find;
    var h := Find(req, "Host: ", 0);
    if h.Some? {
      var start := h.value + 6;
      match HostEnd(req, start)
      case None =>
      case Some(e) =>
        forall i | start <= i < e ensures req[i] != '\r' {
          assert !OccursAt(req, "\r", i);
          assert req[i..i + 1] == [req[i]];
        }
    }
  }

  // ---------- What the client reads ----------

  lemma ReadLine(l: string, tail: string)
    requires l != "" && !Contains(l, CRLF)
    ensures ReadHead(l + CRLF + tail) ==
            match ReadHead(tail) case None => None case Some((ls, rest)) => Some(([l] + ls, rest))
  {
    var s := l + CRLF + tail;
    EndOfLine(l, tail);
    assert s[..|l|] == l && s[|l| + 2..] == tail;
  }

  /** A line without CRLF ends at the CRLF after it, even when its last byte is a carriage return. */
  lemma EndOfLine(l: string, tail: string)
    ensures Find(l + CRLF + tail, CRLF, 0) == if Find(l, CRLF, 0).Some? then Find(l, CRLF, 0) else Some(|l|)
  {
    hide Find;
    var s := l + CRLF + tail;
    assert s[|l|..|l| + 2] == CRLF;
    forall j: nat | j < |l| ensures OccursAt(s, CRLF, j) <==> OccursAt(l, CRLF, j) {
      if j + 2 <= |l| {
        assert s[j..j + 2] == l[j..j + 2];
      } else {
        OccursByte(s, CRLF, j, 1);
        OccursByte(s, CRLF, |l|, 0);
      }
    }
    FindIs(s, CRLF, 0, if Find(l, CRLF, 0).Some? then Find(l, CRLF, 0).value else |l|);
  }

  lemma OneLineHead()
    ensures ReadHead(CRLF) == Some(([], ""))
  {
    assert CRLF[0..0 + 2] == CRLF && CRLF[2..] == "";
  }

  lemma PlainLine(l: string)
    requires '\r' !in l
    ensures !Contains(l, CRLF)
  {
    NotContained(l, CRLF);
  }

  /** The lines around the Location line hold no CRLF. */
  lemma PlainLines(host: string, path: string)
    ensures var ls := Lines301(host, path);
            |ls| == 5 && forall i :: 0 <= i < 5 && i != 2 ==> ls[i] != "" && '\r' !in ls[i]
  {
  }

  /** The two lines at the end of the head. */
  lemma ReadEnd(host: string, path: string)
    ensures var ls := Lines301(host, path);
            ReadHead(ls[3] + CRLF + (ls[4] + CRLF + CRLF)) == Some((ls[3..], ""))
  {
    hide Lines301, ReadHead;
    PlainLines(host, path);
    var ls := Lines301(host, path);
    PlainLine(ls[3]);
    PlainLine(ls[4]);
    OneLineHead();
    ReadLine(ls[4], CRLF);
    ReadLine(ls[3], ls[4] + CRLF + CRLF);
    assert [ls[3]] + ([ls[4]] + []) == ls[3..];
  }

  /** The head is read as the two first lines followed by what is read from the Location line on. */
  lemma ReadStart(host: string, path: string, rest: string)
    ensures var ls := Lines301(host, path);
            ReadHead(ls[0] + CRLF + (ls[1] + CRLF + rest)) ==
            match ReadHead(rest) case None => None case Some((more, end)) => Some((ls[..2] + more, end))
  {
    hide Lines301, ReadHead;
    PlainLines(host, path);
    var ls := Lines301(host, path);
    PlainLine(ls[0]);
    PlainLine(ls[1]);
    ReadLine(ls[1], rest);
    ReadLine(ls[0], ls[1] + CRLF + rest);
    match ReadHead(rest)
    case None =>
    case Some((more, end)) => assert [ls[0]] + ([ls[1]] + more) == ls[..2] + more;
  }

  /** The Location line holds a CRLF exactly where the path does. */
  lemma LocationCrlf(host: string, path: string)
    requires '\r' !in host
    ensures var l := Lines301(host, path)[2];
            l != "" && Find(l, CRLF, 0) == Shift(Find(path, CRLF, 0), 18 + |host|)
  {
    hide Find;
    var x := "Location: https://" + host;
    assert Lines301(host, path)[2] == x + path;
    forall j: nat | j < |x| ensures !OccursAt(x + path, CRLF, j) {
      OccursByte(x + path, CRLF, j, 0);
      assert (x + path)[j] == x[j];
    }
    FindShift(x, path, CRLF);
  }

  /** What the client reads as the head of the answer. */
  lemma HeadRead(req: string)
    ensures var host, path := HostHeader(req), TargetPath(req);
            var ls := Lines301(host, path);
            && (!Contains(path, CRLF) ==> ReadHead(Answer(req)) == Some((ls, "")))
            && (Contains(path, CRLF) && ReadHead(Answer(req)).Some? ==> ReadHead(Answer(req)).value.0 != ls)
  {
    hide HostHeader, TargetPath, Lines301, Unlines, ReadHead, Find, Answer;
    var host, path := HostHeader(req), TargetPath(req);
    var ls := Lines301(host, path);
    HostHasNoCr(req);
    NeverCut(req);
    AnswerText(host, path);
    PlainLines(host, path);
    LocationCrlf(host, path);
    var tail := ls[3] + CRLF + (ls[4] + CRLF + CRLF);
    ReadStart(host, path, ls[2] + CRLF + tail);
    ReadEnd(host, path);
    if Contains(path, CRLF) {
      EndOfLine(ls[2], tail);
      var k := Find(ls[2], CRLF, 0).value;
      CutLine(ls[2], tail, k);
    } else {
      ReadLine(ls[2], tail);
      assert ls[..2] + ([ls[2]] + ls[3..]) == ls;
    }
  }

  /** A line that holds a CRLF is not read back as itself. */
  lemma CutLine(l: string, tail: string, k: nat)
    requires Find(l + CRLF + tail, CRLF, 0) == Some(k) && 0 < k < |l|
    ensures ReadHead(l + CRLF + tail).Some? ==>
              ReadHead(l + CRLF + tail).value.0 != [] && |ReadHead(l + CRLF + tail).value.0[0]| < |l|
  {
  }

  /**
   A client reads the answer as one message without content and with that Location, exactly when the
   path holds no CRLF.
   */
  lemma AnswerFramed(req: string)
    ensures var host, path := HostHeader(req), TargetPath(req);
            var m := Message(Lines301(host, path), "");
            && (DecodeOne(Answer(req)) == Some((m, "")) <==> !Contains(path, CRLF))
            && Field(m.lines[1..], "Location") == Some("https://" + host + path)
  {
    hide TargetPath, HostHeader, ReadHead, Field, Contains, Answer;
    HeadRead(req);
    FieldsOf301(HostHeader(req), TargetPath(req));
    assert DigitSpan("0") == 1 && Value("0") == 0;
  }

  lemma FieldsOf301(host: string, path: string)
    ensures var ls := Lines301(host, path);
            && Field(ls[1..], "Content-Length") == Some("0")
            && Field(ls[1..], "Location") == Some("https://" + host + path)
  {
    hide Field;
    var ls := Lines301(host, path)[1..];
    assert "Location" + ": " == "Location: " && "Content-Length" + ": " == "Content-Length: ";
    assert ls[0][0] == 'S' && ls[1][0] == 'L';
    FieldAt(ls, "Location", "https://" + host + path, 1);
    assert "Content-Length: " + "0" == "Content-Length: 0";
    FieldAt(ls, "Content-Length", "0", 2);
  }

  /** A path with one CRLF inside puts a line of its own into the head that the client reads. */
  lemma AnswerSplits(req: string, a: string, b: string)
    requires TargetPath(req) == a + CRLF + b && '\r' !in a && '\r' !in b && b != ""
    ensures var ls := Lines301(HostHeader(req), TargetPath(req));
            ReadHead(Answer(req)) == Some((ls[..2] + ["Location: https://" + HostHeader(req) + a, b] + ls[3..], ""))
  {
    hide HostHeader, TargetPath, Lines301, Unlines, ReadHead, Find, Answer;
    var host, path := HostHeader(req), TargetPath(req);
    var ls := Lines301(host, path);
    var first := "Location: https://" + host + a;
    HostHasNoCr(req);
    NeverCut(req);
    AnswerText(host, path);
    LocationText(host, a, b);
    PlainLines(host, path);
    var tail := ls[3] + CRLF + (ls[4] + CRLF + CRLF);
    assert ls[2] + CRLF + tail == first + CRLF + (b + CRLF + tail);
    ReadStart(host, path, ls[2] + CRLF + tail);
    ReadEnd(host, path);
    PlainLine(first);
    PlainLine(b);
    ReadLine(b, tail);
    ReadLine(first, b + CRLF + tail);
    assert ls[..2] + ([first] + ([b] + ls[3..])) == ls[..2] + [first, b] + ls[3..];
  }

  lemma LocationText(host: string, a: string, b: string)
    ensures Lines301(host, a + CRLF + b)[2] == "Location: https://" + host + a + CRLF + b
  {
    assert "Location: " + "https://" == "Location: https://";
  }

  /** Such a request: its path holds a CRLF, and the client reads a header line that the server did not mean. */
  lemma SplittingRequest()
    ensures TargetPath("GET" + " " + ("/\r\nSet-Cookie:a=b" + " " + "HTTP/1.1\r\n")) == "/\r\nSet-Cookie:a=b"
    ensures var read := ReadHead(Answer("GET" + " " + ("/\r\nSet-Cookie:a=b" + " " + "HTTP/1.1\r\n")));
            read.Some? && "Set-Cookie:a=b" in read.value.0
  {
    hide HostHeader, TargetPath, Lines301, Unlines, ReadHead, Find, Answer;
    var path, more := "/\r\nSet-Cookie:a=b", "HTTP/1.1\r\n";
    var req := "GET" + [' '] + (path + [' '] + more);
    PathExtracted("GET", path, more, req);
    assert path == "/" + CRLF + "Set-Cookie:a=b";
    CookieIn(req, "/", "Set-Cookie:a=b");
  }

  lemma CookieIn(req: string, a: string, b: string)
    requires TargetPath(req) == a + CRLF + b && '\r' !in a && '\r' !in b && b != ""
    ensures ReadHead(Answer(req)).Some? && b in ReadHead(Answer(req)).value.0
  {
    hide HostHeader, TargetPath, Lines301, ReadHead, Answer;
    AnswerSplits(req, a, b);
    PlainLines(HostHeader(req), TargetPath(req));
    assert ReadHead(Answer(req)).value.0[3] == b;
  }

  // ---------- A client that ends lines at a bare LF ----------

  /** A carriage return before the newline is not part of the line. */
  function StripCr(l: string): string {
    if l != "" && l[|l| - 1] == '\r' then l[..|l| - 1] else l
  }

  /** The head as section 2.2 of RFC 9112 allows to read it: a newline alone ends a line too. */
  function ReadHeadLf(s: string): (r: Option<(seq<string>, string)>)
    decreases |s|
  {
    match Find(s, "\n", 0)
    case None => None
    case Some(k) =>
      if StripCr(s[..k]) == "" then Some(([], s[k + 1..]))
      else match ReadHeadLf(s[k + 1..])
        case None => None
        case Some((ls, rest)) => Some(([StripCr(s[..k])] + ls, rest))
  }

  lemma ReadLineLf(l: string, tail: string)
    requires l != "" && '\n' !in l
    ensures ReadHeadLf(l + CRLF + tail) ==
            match ReadHeadLf(tail) case None => None case Some((ls, rest)) => Some(([l] + ls, rest))
  {
    var s := l + CRLF + tail;
    assert forall i :: 0 <= i < |l| ==> s[i] == l[i];
    FindByte(s, '\n', 0, |l| + 1);
    assert s[..|l| + 1] == l + "\r" && s[|l| + 2..] == tail;
    assert (l + "\r")[..|l|] == l;
  }

  /** A line that holds a newline is cut there. */
  lemma CutLineLf(l: string, tail: string)
    requires '\n' in l && l[0] != '\n' && l[0] != '\r'
    ensures ReadHeadLf(l + CRLF + tail).Some? ==>
              var ls := ReadHeadLf(l + CRLF + tail).value.0; ls != [] && |ls[0]| < |l|
  {
    var s := l + CRLF + tail;
    var k := FirstOf(l, '\n');
    assert forall i :: 0 <= i < k ==> s[i] == l[i] && l[i] in l[..k];
    FindByte(s, '\n', 0, k);
    assert s[..k][0] == l[0];
  }

  lemma EmptyLineLf()
    ensures ReadHeadLf(CRLF) == Some(([], ""))
  {
    FindByte(CRLF, '\n', 0, 1);
    assert CRLF[..1] == "\r" && "\r"[..0] == "" && CRLF[2..] == "";
  }

  /** The newlines of the five lines are those of the host and the path. */
  lemma NewlinesOf301(host: string, path: string)
    ensures var ls := Lines301(host, path);
            && |ls| == 5 && (forall i :: 0 <= i < 5 && i != 2 ==> ls[i] != "" && '\n' !in ls[i])
            && ls[2] != "" && ls[2][0] == 'L' && ('\n' in ls[2] <==> '\n' in host || '\n' in path)
  {
    var x := "Location: https://";
    assert Lines301(host, path)[2] == x + host + path;
    assert '\n' !in x;
  }

  lemma ReadEndLf(host: string, path: string)
    ensures var ls := Lines301(host, path);
            ReadHeadLf(ls[3] + CRLF + (ls[4] + CRLF + CRLF)) == Some((ls[3..], ""))
  {
    hide Lines301, ReadHeadLf;
    NewlinesOf301(host, path);
    var ls := Lines301(host, path);
    EmptyLineLf();
    ReadLineLf(ls[4], CRLF);
    ReadLineLf(ls[3], ls[4] + CRLF + CRLF);
    assert [ls[3]] + ([ls[4]] + []) == ls[3..];
  }

  lemma ReadStartLf(host: string, path: string, rest: string)
    ensures var ls := Lines301(host, path);
            ReadHeadLf(ls[0] + CRLF + (ls[1] + CRLF + rest)) ==
            match ReadHeadLf(rest) case None => None case Some((more, end)) => Some((ls[..2] + more, end))
  {
    hide Lines301, ReadHeadLf;
    NewlinesOf301(host, path);
    var ls := Lines301(host, path);
    ReadLineLf(ls[1], rest);
    ReadLineLf(ls[0], ls[1] + CRLF + rest);
    match ReadHeadLf(rest)
    case None =>
    case Some((more, end)) => assert [ls[0]] + ([ls[1]] + more) == ls[..2] + more;
  }

  /** Such a client reads the five printed lines exactly when neither host nor path holds a newline. */
  lemma AnswerFramedLf(req: string)
    ensures var host, path := HostHeader(req), TargetPath(req);
            ReadHeadLf(Answer(req)) == Some((Lines301(host, path), "")) <==> '\n' !in host && '\n' !in path
  {
    hide HostHeader, TargetPath, Lines301, Unlines, ReadHeadLf, Answer;
    var host, path := HostHeader(req), TargetPath(req);
    var ls := Lines301(host, path);
    NeverCut(req);
    AnswerText(host, path);
    NewlinesOf301(host, path);
    var tail := ls[3] + CRLF + (ls[4] + CRLF + CRLF);
    ReadStartLf(host, path, ls[2] + CRLF + tail);
    ReadEndLf(host, path);
    if '\n' in ls[2] {
      CutLineLf(ls[2], tail);
    } else {
      ReadLineLf(ls[2], tail);
      assert ls[..2] + ([ls[2]] + ls[3..]) == ls;
    }
  }
}
