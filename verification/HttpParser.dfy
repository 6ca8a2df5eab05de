/** `parse_http_request` and `get_mime_type`. */
module HttpParser {
  import opened Wrappers
  import opened CStrings
  import opened Decimal

  const MAX_PATH_SIZE := 256

  datatype HttpMethod = GET | POST | UNKNOWN

  /** What the parser leaves in an HttpRequest; `bodyStart` is an offset into the buffer. */
  datatype Request = Request(httpMethod: HttpMethod, path: string, contentLength: int, bodyStart: Option<nat>,
                             keepAlive: bool)

  // ---------- The pure parser ----------

  function MethodOf(s: string): HttpMethod {
    if OccursAt(s, "GET ", 0) then GET else if OccursAt(s, "POST ", 0) then POST else UNKNOWN
  }

  /** Where the path starts. */
  function MethodLength(m: HttpMethod): nat {
    match m case GET => 4 case POST => 5 case UNKNOWN => 0
  }

  /** The length of the longest prefix of at most `limit` bytes without white space. */
  function WordLen(s: string, limit: nat): (n: nat)
    ensures n <= |s| && n <= limit
    ensures forall i :: 0 <= i < n ==> !IsSpace(s[i])
    ensures n < |s| && n < limit ==> IsSpace(s[n])
  {
    if s == [] || limit == 0 || IsSpace(s[0]) then 0 else 1 + WordLen(s[1..], limit - 1)
  }

  /** How many blanks (not other white space) the string starts with. */
  function BlankSpan(s: string): (n: nat)
    ensures n <= |s| && forall i :: 0 <= i < n ==> s[i] == ' '
    ensures n < |s| ==> s[n] != ' '
  {
    if s == [] || s[0] != ' ' then 0 else 1 + BlankSpan(s[1..])
  }

  /** The first occurrence of the first spelling that occurs at all. */
  function FindHeader(s: string, a: string, b: string, c: string): Option<nat> {
    if Find(s, a, 0).Some? then Find(s, a, 0)
    else if Find(s, b, 0).Some? then Find(s, b, 0)
    else Find(s, c, 0)
  }

  /** The text after a header name of `n` bytes at `i`, without its leading blanks. */
  function HeaderValue(s: string, i: nat, n: nat): string
    requires i + n <= |s|
  {
    s[i + n..][BlankSpan(s[i + n..])..]
  }

  function LowerByte(c: char): char {
    if 'A' <= c <= 'Z' then (c as int + 32) as char else c
  }

  /** `strncasecmp(s, word, |word|) == 0` for a word in lower case. */
  predicate StartsWithNoCase(s: string, word: string) {
    |word| <= |s| && forall i :: 0 <= i < |word| ==> LowerByte(s[i]) == word[i]
  }

  function ContentLengthAt(s: string): (r: Option<nat>)
    ensures r.Some? ==> r.value + 15 <= |s|
  {
    FindHeader(s, "Content-Length:", "content-length:", "CONTENT-LENGTH:")
  }

  function ConnectionAt(s: string): (r: Option<nat>)
    ensures r.Some? ==> r.value + 11 <= |s|
  {
    FindHeader(s, "Connection:", "connection:", "CONNECTION:")
  }

  function ContentLengthOf(s: string): int {
    match ContentLengthAt(s)
    case None => 0
    case Some(i) => Strtol(HeaderValue(s, i, 15))
  }

  function KeepAliveOf(s: string): bool {
    match ConnectionAt(s)
    case None => true
    case Some(i) => !StartsWithNoCase(HeaderValue(s, i, 11), "close")
  }

  function BodyStartOf(s: string): (r: Option<nat>)
    ensures r.Some? ==> r.value <= |s|
  {
    match Find(s, "\r\n\r\n", 0)
    case None => None
    case Some(i) => Some(i + 4)
  }

  function PathOf(s: string): (p: string)
    ensures |p| <= MAX_PATH_SIZE - 1
  {
    var t := s[MethodLength(MethodOf(s))..];
    t[..WordLen(t, MAX_PATH_SIZE - 1)]
  }

  /** The request in the string, or None when the method is neither GET nor POST. */
  function Parse(s: string): (r: Option<Request>)
    ensures r.Some? ==> |r.value.path| <= MAX_PATH_SIZE - 1
    ensures r.Some? ==> r.value.httpMethod != UNKNOWN
    ensures r.Some? && r.value.bodyStart.Some? ==> r.value.bodyStart.value <= |s|
    ensures r.Some? ==> LONG_MIN <= r.value.contentLength <= LONG_MAX
  {
    if MethodOf(s) == UNKNOWN then None
    else Some(Request(MethodOf(s), PathOf(s), ContentLengthOf(s), BodyStartOf(s), KeepAliveOf(s)))
  }

  /** `i` is the first occurrence of the name. */
  predicate FirstAt(s: string, name: string, i: nat) {
    OccursAt(s, name, i) && forall j: nat :: j < i ==> !OccursAt(s, name, j)
  }

  /** Header `value` comes from the first occurrence of spelling `a`, or of `b` if `a` is absent, or of `c`. */
  predicate FromSpellings(s: string, a: string, b: string, c: string, i: nat) {
    || FirstAt(s, a, i)
    || (!Contains(s, a) && FirstAt(s, b, i))
    || (!Contains(s, a) && !Contains(s, b) && FirstAt(s, c, i))
  }

  /** No spelling of the header occurs. */
  predicate Absent(s: string, a: string, b: string, c: string) {
    !Contains(s, a) && !Contains(s, b) && !Contains(s, c)
  }

  lemma FindHeaderIs(s: string, a: string, b: string, c: string, i: nat)
    requires FromSpellings(s, a, b, c, i)
    ensures FindHeader(s, a, b, c) == Some(i)
  {
    if FirstAt(s, a, i) {
      FindIs(s, a, 0, i);
    } else if FirstAt(s, b, i) && !Contains(s, a) {
      FindIs(s, b, 0, i);
    } else {
      FindIs(s, c, 0, i);
    }
  }

  /** The value begins with `close`, each letter in either case. */
  predicate IsClose(v: string) {
    5 <= |v| && forall i :: 0 <= i < 5 ==> v[i] == "close"[i] || v[i] == "CLOSE"[i]
  }

  lemma CloseIff(v: string)
    ensures StartsWithNoCase(v, "close") <==> IsClose(v)
  {
    if 5 <= |v| {
      forall i | 0 <= i < 5 ensures LowerByte(v[i]) == "close"[i] <==> v[i] == "close"[i] || v[i] == "CLOSE"[i] {
        CaseOf(v[i], "close"[i], "CLOSE"[i]);
      }
    }
  }

  lemma CaseOf(c: char, lower: char, upper: char)
    requires 'a' <= lower <= 'z' && upper as int + 32 == lower as int
    ensures LowerByte(c) == lower <==> c == lower || c == upper
  {
  }

  /** A header's value begins at its first byte that is not a blank. */
  lemma ValueAfterBlanks(s: string, i: nat, n: nat, blanks: string, v: string)
    requires i + n <= |s| && s[i + n..] == blanks + v
    requires (forall c :: c in blanks ==> c == ' ') && (v != "" ==> v[0] != ' ')
    ensures HeaderValue(s, i, n) == v
  {
    var t := s[i + n..];
    assert forall k :: 0 <= k < |blanks| ==> t[k] == blanks[k] && blanks[k] in blanks;
    assert v != "" ==> t[|blanks|] == v[0];
    assert t[|blanks|..] == v;
  }

  /**
   When a request parses and what its fields are, in terms of the text: the method is its prefix, the path
   the longest prefix after it without white space cut at 255 bytes, the headers come from their
   first occurrences in the order of the spellings, and the body begins after the first blank line.
   Without a length header the length is 0, without a connection header the connection persists, and
   without a blank line there is no body.
   */
  lemma ParsedFields(s: string, i: nat)
    ensures Parse(s).Some? <==> OccursAt(s, "GET ", 0) || OccursAt(s, "POST ", 0)
    ensures Parse(s).Some? ==>
              var r := Parse(s).value;
              && OccursAt(s, if r.httpMethod == GET then "GET " else "POST ", 0)
              && var t := s[if r.httpMethod == GET then 4 else 5..];
              && r.path <= t && (forall c :: c in r.path ==> !IsSpace(c))
              && |r.path| <= 255 && (|r.path| == 255 || |r.path| == |t| || IsSpace(t[|r.path|]))
    ensures Parse(s).Some? && FromSpellings(s, "Content-Length:", "content-length:", "CONTENT-LENGTH:", i) ==>
              i + 15 <= |s| && Parse(s).value.contentLength == Strtol(HeaderValue(s, i, 15))
    ensures Parse(s).Some? && FromSpellings(s, "Connection:", "connection:", "CONNECTION:", i) ==>
              i + 11 <= |s| && Parse(s).value.keepAlive == !IsClose(HeaderValue(s, i, 11))
    ensures Parse(s).Some? && FirstAt(s, "\r\n\r\n", i) ==> Parse(s).value.bodyStart == Some(i + 4)
    ensures Parse(s).Some? && Absent(s, "Content-Length:", "content-length:", "CONTENT-LENGTH:") ==>
              Parse(s).value.contentLength == 0
    ensures Parse(s).Some? && Absent(s, "Connection:", "connection:", "CONNECTION:") ==> Parse(s).value.keepAlive
    ensures Parse(s).Some? && !Contains(s, "\r\n\r\n") ==> Parse(s).value.bodyStart == None
  {
    hide Find, HeaderValue, StartsWithNoCase, IsClose;
    if FromSpellings(s, "Content-Length:", "content-length:", "CONTENT-LENGTH:", i) {
      FindHeaderIs(s, "Content-Length:", "content-length:", "CONTENT-LENGTH:", i);
    }
    if FromSpellings(s, "Connection:", "connection:", "CONNECTION:", i) {
      FindHeaderIs(s, "Connection:", "connection:", "CONNECTION:", i);
      CloseIff(HeaderValue(s, i, 11));
    }
    if FirstAt(s, "\r\n\r\n", i) {
      FindIs(s, "\r\n\r\n", 0, i);
    }
  }

  // ---------- The parser of the source ----------

  class HttpRequest {
    var httpMethod: HttpMethod
    const path: array<char>
    var contentLength: int
    var bodyStart: Option<nat>
    var keepAlive: bool

    constructor ()
      ensures path.Length == MAX_PATH_SIZE && fresh(path)
    {
      path := new char[MAX_PATH_SIZE](_ => NUL);
      httpMethod, contentLength, bodyStart, keepAlive := UNKNOWN, 0, None, true;
    }

    ghost function View(): Request
      reads this, path
    {
      Request(httpMethod, CStr(path[..]), contentLength, bodyStart, keepAlive)
    }
  }

  /** The pointer loop `while (*p == ' ') p++`; it stops at the NUL at the latest. */
  method SkipBlanks(buffer: array<char>, start: nat) returns (p: nat)
    requires Terminated(buffer[..]) && start <= StrLen(buffer[..])
    ensures start <= p <= StrLen(buffer[..])
    ensures p == start + BlankSpan(CStr(buffer[..])[start..])
  {
    ghost var s := CStr(buffer[..]);
    p := start;
    while buffer[p] == ' '
      invariant start <= p <= |s|
      invariant p + BlankSpan(s[p..]) == start + BlankSpan(s[start..])
      decreases |s| - p
    {
      assert s[p..][1..] == s[p + 1..];
      p := p + 1;
    }
    assert p < |s| ==> s[p..][0] == buffer[p];
  }

  /** One more byte of the word, and its end. */
  lemma WordMore(t: string, i: nat, limit: nat)
    requires i <= |t| && i <= limit
    ensures i < |t| && i < limit && !IsSpace(t[i]) ==>
              WordLen(t[i..], limit - i) == 1 + WordLen(t[i + 1..], limit - i - 1)
    ensures i == |t| || i == limit || IsSpace(t[i]) ==> WordLen(t[i..], limit - i) == 0
  {
    if i < |t| {
      assert t[i..][1..] == t[i + 1..];
    }
  }

  /** The path loop: copies until white space, the NUL, or 255 bytes. */
  method CopyPath(buffer: array<char>, start: nat, path: array<char>)
    requires Terminated(buffer[..]) && start <= StrLen(buffer[..])
    requires path.Length == MAX_PATH_SIZE && path != buffer
    modifies path
    ensures Terminated(path[..])
    ensures var t := CStr(buffer[..])[start..]; CStr(path[..]) == t[..WordLen(t, MAX_PATH_SIZE - 1)]
  {
    hide WordLen, StrLen, IsSpace;
    ghost var s := CStr(buffer[..]);
    ghost var t := s[start..];
    var ptr, i := start, 0;
    assert t[0..] == t;
    while buffer[ptr] != NUL && !IsSpace(buffer[ptr]) && i < MAX_PATH_SIZE - 1
      invariant 0 <= i <= MAX_PATH_SIZE - 1 && ptr == start + i <= |s|
      invariant path[..i] == t[..i]
      invariant i + WordLen(t[i..], MAX_PATH_SIZE - 1 - i) == WordLen(t, MAX_PATH_SIZE - 1)
      decreases |s| - ptr
    {
      assert ptr < |s| && buffer[ptr] == t[i];
      WordMore(t, i, MAX_PATH_SIZE - 1);
      path[i] := buffer[ptr];
      i, ptr := i + 1, ptr + 1;
    }
    assert ptr < |s| ==> buffer[ptr] == s[ptr] == t[i] && buffer[ptr] in s;
    WordMore(t, i, MAX_PATH_SIZE - 1);
    path[i] := NUL;
    assert path[..][..i] == t[..i];
    CStrIs(path[..], t[..i]);
  }

  /** Step 4: the announced length, 0 when no header announces it. */
  method ReadContentLength(buffer: array<char>) returns (n: int)
    requires Terminated(buffer[..])
    ensures n == ContentLengthOf(CStr(buffer[..]))
  {
    hide Find, Strtol, BlankSpan;
    var s := CStr(buffer[..]);
    n := 0;
    var clPtr := Find(s, "Content-Length:", 0);
    if clPtr == None {
      clPtr := Find(s, "content-length:", 0);
    }
    if clPtr == None {
      clPtr := Find(s, "CONTENT-LENGTH:", 0);
    }
    if clPtr != None {
      var p := SkipBlanks(buffer, clPtr.value + 15);
      assert s[p..] == HeaderValue(s, clPtr.value, 15);
      n := Strtol(s[p..]);
    }
  }

  /** Step 5: whether the connection persists, which is the default. */
  method ReadConnection(buffer: array<char>) returns (keepAlive: bool)
    requires Terminated(buffer[..])
    ensures keepAlive == KeepAliveOf(CStr(buffer[..]))
  {
    hide Find, StartsWithNoCase, BlankSpan;
    var s := CStr(buffer[..]);
    keepAlive := true;
    var connPtr := Find(s, "Connection:", 0);
    if connPtr == None {
      connPtr := Find(s, "connection:", 0);
    }
    if connPtr == None {
      connPtr := Find(s, "CONNECTION:", 0);
    }
    if connPtr != None {
      var p := SkipBlanks(buffer, connPtr.value + 11);
      assert s[p..] == HeaderValue(s, connPtr.value, 11);
      if StartsWithNoCase(s[p..], "close") {
        keepAlive := false;
      } else if StartsWithNoCase(s[p..], "keep-alive") {
        keepAlive := true;
      }
    }
  }

  /** Returns 0, with the parsed request in `req`, or -1. */
  method ParseHttpRequest(buffer: array<char>, req: HttpRequest) returns (r: int)
    requires Terminated(buffer[..]) && req.path.Length == MAX_PATH_SIZE && req.path != buffer
    modifies req, req.path
    ensures r == 0 || r == -1
    ensures r == 0 <==> Parse(CStr(buffer[..])).Some?
    ensures Terminated(req.path[..])
    ensures req.View() == if r == 0 then Parse(CStr(buffer[..])).value else Request(UNKNOWN, "", 0, None, true)
  {
    hide ContentLengthOf, KeepAliveOf, WordLen, Find;
    var s := CStr(buffer[..]);
    forall i | 0 <= i < MAX_PATH_SIZE { req.path[i] := NUL; }
    CStrIs(req.path[..], "");
    assert buffer[..] == old(buffer[..]);
    req.contentLength, req.bodyStart, req.keepAlive := 0, None, true;

    var ptr := 0;
    if OccursAt(s, "GET ", 0) {
      req.httpMethod := GET;
      ptr := 4;
    } else if OccursAt(s, "POST ", 0) {
      req.httpMethod := POST;
      ptr := 5;
    } else {
      req.httpMethod := UNKNOWN;
      return -1;
    }

    CopyPath(buffer, ptr, req.path);
    assert buffer[..] == old(buffer[..]);

    req.contentLength := ReadContentLength(buffer);
    req.keepAlive := ReadConnection(buffer);

    var bodyMarker := Find(s, "\r\n\r\n", 0);
    if bodyMarker != None {
      req.bodyStart := Some(bodyMarker.value + 4);
    }
    return 0;
  }

  // ---------- MIME types ----------

  /** `strrchr(path, '.')`: the text from the last dot on. */
  function Extension(path: string): (e: Option<string>)
    ensures e.Some? ==> |e.value| <= |path| && e.value == path[|path| - |e.value|..]
    ensures e.Some? ==> e.value != "" && e.value[0] == '.' && '.' !in e.value[1..]
    ensures e.Some? <==> '.' in path
  {
    if path == "" then None
    else match Extension(path[1..])
      case Some(e) => Some(e)
      case None => if path[0] == '.' then Some(path) else None
  }

  function TypeOf(ext: string): (m: string)
    ensures '\r' !in m && |m| <= 63
  {
    if ext == ".html" || ext == ".htm" then "text/html"
    else if ext == ".css" then "text/css"
    else if ext == ".js" then "application/javascript"
    else if ext == ".png" then "image/png"
    else if ext == ".jpg" || ext == ".jpeg" then "image/jpeg"
    else if ext == ".gif" then "image/gif"
    else if ext == ".ico" then "image/x-icon"
    else if ext == ".json" then "application/json"
    else if ext == ".txt" then "text/plain"
    else "application/octet-stream"
  }

  function GetMimeType(path: string): (m: string)
    ensures '\r' !in m && |m| <= 63
  {
    match Extension(path)
    case None => "application/octet-stream"
    case Some(ext) => TypeOf(ext)
  }

  /** Whatever the directory, a name's extension is its own. */
  lemma {:induction false} ExtensionOfJoin(dir: string, name: string)
    requires '.' in name
    ensures Extension(dir + name) == Extension(name)
  {
    if dir != "" {
      assert (dir + name)[1..] == dir[1..] + name;
      ExtensionOfJoin(dir[1..], name);
    } else {
      assert dir + name == name;
    }
  }

  lemma ExtensionIs(stem: string, ext: string)
    requires ext != "" && ext[0] == '.' && '.' !in ext[1..]
    ensures Extension(stem + ext) == Some(ext)
  {
    ExtensionOfJoin(stem, ext);
  }

  /** A name's type is that of its extension, whatever the rest of it. */
  lemma TypeOfName(stem: string, ext: string)
    requires ext != "" && ext[0] == '.' && '.' !in ext[1..]
    ensures GetMimeType(stem + ext) == TypeOf(ext)
  {
    hide TypeOf, Extension;
    ExtensionIs(stem, ext);
  }

  /** A name without a dot has none. */
  lemma TypeWithoutDot(path: string)
    requires '.' !in path
    ensures GetMimeType(path) == "application/octet-stream"
  {
    hide TypeOf;
  }

  lemma TextTypes()
    ensures TypeOf(".html") == TypeOf(".htm") == "text/html" && TypeOf(".css") == "text/css"
  {
  }

  lemma ScriptTypes()
    ensures TypeOf(".js") == "application/javascript" && TypeOf(".json") == "application/json"
    ensures TypeOf(".txt") == "text/plain"
  {
    assert ".js"[1] == 'j' && ".json"[1] == 'j' && ".txt"[1] == 't';
  }

  lemma ImageTypes()
    ensures TypeOf(".png") == "image/png" && TypeOf(".gif") == "image/gif" && TypeOf(".ico") == "image/x-icon"
    ensures TypeOf(".jpg") == TypeOf(".jpeg") == "image/jpeg"
  {
    assert ".png"[1] == 'p' && ".gif"[1] == 'g' && ".ico"[1] == 'i' && ".jpg"[1] == 'j' && ".jpeg"[1] == 'j';
  }

  /** Nor does an extension that is not one of these eleven. */
  lemma OtherTypes(ext: string)
    requires ext != ".html" && ext != ".htm" && ext != ".css" && ext != ".js" && ext != ".json" && ext != ".txt"
    requires ext != ".png" && ext != ".gif" && ext != ".ico" && ext != ".jpg" && ext != ".jpeg"
    ensures TypeOf(ext) == "application/octet-stream"
  {
  }

  /** The type of every name with a known extension. */
  lemma MimeTypes(stem: string)
    ensures GetMimeType(stem + ".html") == GetMimeType(stem + ".htm") == "text/html"
    ensures GetMimeType(stem + ".css") == "text/css" && GetMimeType(stem + ".js") == "application/javascript"
    ensures GetMimeType(stem + ".png") == "image/png" && GetMimeType(stem + ".gif") == "image/gif"
    ensures GetMimeType(stem + ".jpg") == GetMimeType(stem + ".jpeg") == "image/jpeg"
    ensures GetMimeType(stem + ".ico") == "image/x-icon" && GetMimeType(stem + ".json") == "application/json"
    ensures GetMimeType(stem + ".txt") == "text/plain"
  {
    hide GetMimeType, TypeOf;
    TextTypes();
    ScriptTypes();
    ImageTypes();
    TypeOfName(stem, ".html");
    TypeOfName(stem, ".htm");
    TypeOfName(stem, ".css");
    TypeOfName(stem, ".js");
    TypeOfName(stem, ".png");
    TypeOfName(stem, ".jpg");
    TypeOfName(stem, ".jpeg");
    TypeOfName(stem, ".gif");
    TypeOfName(stem, ".ico");
    TypeOfName(stem, ".json");
    TypeOfName(stem, ".txt");
  }
}
