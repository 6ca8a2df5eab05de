/** Printing a request and parsing it back (sections 3 and 5 of RFC 9112). */
module RequestText {
  import opened Wrappers
  import opened CStrings
  import opened Decimal
  import opened HttpParser

  function MethodName(m: HttpMethod): string
    requires m != UNKNOWN
  {
    if m == GET then "GET" else "POST"
  }

  function ConnLine(conn: Option<string>): string {
    match conn
    case None => ""
    case Some(v) => "Connection: " + v + "\r\n"
  }

  /** A value that stays on its line. */
  predicate ConnOk(conn: Option<string>) {
    conn.Some? ==> '\r' !in conn.value && NUL !in conn.value
  }

  /** The connection persists unless the value, after any blanks, begins with `close` in whatever case. */
  predicate Stays(conn: Option<string>) {
    conn.Some? ==> !IsClose(conn.value[BlankSpan(conn.value)..])
  }

  /** What follows the Content-Length line: the connection line, the blank line and the body. */
  function Tail(conn: Option<string>, body: string): string {
    ConnLine(conn) + ("\r\n" + body)
  }

  /** The Content-Length line, and the rest. */
  function LengthLine(n: int, rest: string): string {
    "Content-Length:" + [' '] + ((DecInt(n) + "\r") + ['\n'] + rest)
  }

  /** The request line, and the rest. */
  function RequestLine(m: HttpMethod, path: string, rest: string): string
    requires m != UNKNOWN
  {
    MethodName(m) + [' '] + (path + [' '] + ("HTTP/1.1\r" + ['\n'] + rest))
  }

  function Print(m: HttpMethod, path: string, n: int, conn: Option<string>, body: string): string
    requires m != UNKNOWN
  {
    RequestLine(m, path, LengthLine(n, Tail(conn, body)))
  }

  predicate PathOk(path: string) {
    |path| <= MAX_PATH_SIZE - 1 && forall c :: c in path ==> !IsSpace(c) && c != NUL
  }

  /** A spelling of the connection header. */
  predicate Spelling(pat: string) {
    pat == "Connection:" || pat == "connection:" || pat == "CONNECTION:"
  }

  /** The header names do not turn up before their lines; without a connection line, nowhere at all. */
  predicate NamesClear(path: string, conn: Option<string>, body: string) {
    && !Contains(path, "Content-Length:")
    && !Contains(path, "Connection:")
    && (conn == None ==>
          && !Contains(body, "Connection:")
          && !Contains(path, "connection:") && !Contains(body, "connection:")
          && !Contains(path, "CONNECTION:") && !Contains(body, "CONNECTION:"))
  }

  lemma ShiftTwice(r: Option<nat>, a: nat, b: nat)
    ensures Shift(Shift(r, a), b) == Shift(r, a + b)
  {
  }

  lemma FindPastThree(a: string, b: string, c: string, rest: string, pat: string)
    requires pat != "" && ' ' !in pat && '\n' !in pat
    requires !Contains(a, pat) && !Contains(b, pat) && !Contains(c, pat)
    ensures Find(a + [' '] + (b + [' '] + (c + ['\n'] + rest)), pat, 0) ==
            Shift(Find(rest, pat, 0), |a| + |b| + |c| + 3)
  {
    hide *;
    var t3 := c + ['\n'] + rest;
    var t2 := b + [' '] + t3;
    FindPast(c, '\n', rest, pat);
    FindPast(b, ' ', t3, pat);
    FindPast(a, ' ', t2, pat);
    ShiftTwice(Find(rest, pat, 0), |c| + 1, |b| + 1);
    ShiftTwice(Find(rest, pat, 0), |b| + |c| + 2, |a| + 1);
  }

  /** Searching past the request line. */
  lemma FindPastRequestLine(m: HttpMethod, path: string, rest: string, pat: string)
    requires m != UNKNOWN && |pat| > 9 && ' ' !in pat && '\n' !in pat && !Contains(path, pat)
    ensures Find(RequestLine(m, path, rest), pat, 0) == Shift(Find(rest, pat, 0), |RequestLine(m, path, rest)| - |rest|)
  {
    hide Find, Contains, OccursAt, Shift;
    NotContained(MethodName(m), pat);
    NotContained("HTTP/1.1\r", pat);
    FindPastThree(MethodName(m), path, "HTTP/1.1\r", rest, pat);
  }

  /** What the searches need to know of a spelling. */
  lemma SpellingFacts(pat: string)
    requires Spelling(pat)
    ensures |pat| == 11 && ' ' !in pat && '\n' !in pat
    ensures pat[0] != '\r' && pat[0] != '-' && !IsDigit(pat[0])
    ensures !Contains("Content-Length:", pat)
  {
    var x := "Content-Length:";
    forall j: nat ensures !OccursAt(x, pat, j) {
      OccursByte(x, pat, j, 0);
      OccursByte(x, pat, j, 3);
      assert |pat| == 11;
    }
  }

  /** Searching past the Content-Length line. */
  lemma FindPastLengthLine(n: int, rest: string, pat: string)
    requires pat != "" && ' ' !in pat && '\n' !in pat && !Contains("Content-Length:", pat)
    requires pat[0] != '\r' && pat[0] != '-' && !IsDigit(pat[0])
    ensures Find(LengthLine(n, rest), pat, 0) == Shift(Find(rest, pat, 0), |LengthLine(n, rest)| - |rest|)
  {
    hide Find, Contains, OccursAt, DecInt;
    var digits := DecInt(n) + "\r";
    assert pat[0] !in DecInt(n);
    NotContained(digits, pat);
    FindPast(digits, '\n', rest, pat);
    FindPast("Content-Length:", ' ', digits + ['\n'] + rest, pat);
    ShiftTwice(Find(rest, pat, 0), |digits| + 1, 16);
  }

  lemma FindConnection(m: HttpMethod, path: string, n: int, rest: string, pat: string)
    requires m != UNKNOWN && Spelling(pat) && !Contains(path, pat)
    ensures |rest| <= |RequestLine(m, path, LengthLine(n, rest))|
    ensures Find(RequestLine(m, path, LengthLine(n, rest)), pat, 0) ==
            Shift(Find(rest, pat, 0), |RequestLine(m, path, LengthLine(n, rest))| - |rest|)
  {
    hide *;
    SpellingFacts(pat);
    var t := LengthLine(n, rest);
    LengthLineSuffix(n, rest);
    RequestLineSuffix(m, path, t);
    FindPastLengthLine(n, rest, pat);
    FindPastRequestLine(m, path, t, pat);
    ShiftTwice(Find(rest, pat, 0), |t| - |rest|, |RequestLine(m, path, t)| - |t|);
  }

  lemma NoConnectionInTail(body: string, pat: string)
    requires Spelling(pat) && !Contains(body, pat)
    ensures Find(Tail(None, body), pat, 0) == None
  {
    SpellingFacts(pat);
    NotContained("\r", pat);
    FindPast("\r", '\n', body, pat);
    assert Tail(None, body) == "\r" + ['\n'] + body;
    assert Find(body, pat, 0) == None;
  }

  /** The text at a suffix. */
  lemma SuffixText(s: string, rest: string, i: nat, n: nat)
    requires |rest| <= |s| && s[|s| - |rest|..] == rest && i == |s| - |rest| && n <= |rest|
    ensures s[i + n..] == rest[n..]
  {
  }

  lemma RequestLineSuffix(m: HttpMethod, path: string, rest: string)
    requires m != UNKNOWN
    ensures var s := RequestLine(m, path, rest); |rest| <= |s| && s[|s| - |rest|..] == rest
  {
  }

  lemma LengthLineSuffix(n: int, rest: string)
    ensures var s := LengthLine(n, rest); |rest| <= |s| && s[|s| - |rest|..] == rest
  {
  }

  lemma TailSuffix(m: HttpMethod, path: string, n: int, rest: string)
    requires m != UNKNOWN
    ensures var s := RequestLine(m, path, LengthLine(n, rest)); |rest| <= |s| && s[|s| - |rest|..] == rest
  {
    hide RequestLine, LengthLine;
    var t := LengthLine(n, rest);
    var s := RequestLine(m, path, t);
    RequestLineSuffix(m, path, t);
    LengthLineSuffix(n, rest);
    assert s[|s| - |t|..][|t| - |rest|..] == rest;
  }

  lemma ConnText(v: string, body: string)
    ensures Tail(Some(v), body) == "Connection:" + ([' '] + (v + ("\r\n" + ("\r\n" + body))))
  {
    assert "Connection: " == "Connection:" + [' '];
    Assoc("Connection:" + [' '], v, "\r\n");
    Assoc("Connection:" + [' '] + v, "\r\n", "\r\n" + body);
    Assoc("Connection:" + [' '], v, "\r\n" + ("\r\n" + body));
    Assoc("Connection:", [' '], v + ("\r\n" + ("\r\n" + body)));
  }

  /** The blanks before a value, and what follows them. */
  lemma BlanksFirst(v: string, rest: string)
    requires rest != "" && rest[0] != ' '
    ensures var n := BlankSpan(v);
            && [' '] + (v + rest) == ([' '] + v[..n]) + (v[n..] + rest)
            && (forall c :: c in [' '] + v[..n] ==> c == ' ') && (v[n..] + rest)[0] != ' '
  {
    var n := BlankSpan(v);
    assert v == v[..n] + v[n..];
  }

  lemma ConnValue(v: string, body: string)
    ensures var tail := Tail(Some(v), body);
            && Find(tail, "Connection:", 0) == Some(0)
            && HeaderValue(tail, 0, 11) == v[BlankSpan(v)..] + ("\r\n" + ("\r\n" + body))
  {
    hide Find, HeaderValue, BlankSpan, Tail;
    var tail, rest := Tail(Some(v), body), "\r\n" + ("\r\n" + body);
    ConnText(v, body);
    BlanksFirst(v, rest);
    assert tail[0..0 + 11] == "Connection:" && tail[0 + 11..] == [' '] + (v + rest);
    FindIs(tail, "Connection:", 0, 0);
    ValueAfterBlanks(tail, 0, 11, [' '] + v[..BlankSpan(v)], v[BlankSpan(v)..] + rest);
  }

  lemma KeepAliveAt(s: string, i: nat)
    requires Find(s, "Connection:", 0) == Some(i)
    ensures i + 11 <= |s| && KeepAliveOf(s) == !IsClose(HeaderValue(s, i, 11))
  {
    hide IsClose, StartsWithNoCase, HeaderValue;
    assert i + 11 <= |s|;
    CloseIff(HeaderValue(s, i, 11));
  }

  lemma KeepAliveAbsent(s: string)
    requires Find(s, "Connection:", 0) == None && Find(s, "connection:", 0) == None && Find(s, "CONNECTION:", 0) == None
    ensures KeepAliveOf(s)
  {
  }

  /** What follows the value's line does not make it a `close`. */
  lemma ClosePrefix(v: string, rest: string)
    ensures IsClose(v + ("\r\n" + rest)) == IsClose(v)
  {
    var s := v + ("\r\n" + rest);
    if |v| < 5 {
      assert s[|v|] == '\r';
    }
  }

  lemma ValueInSuffix(s: string, rest: string, n: nat)
    requires |rest| <= |s| && s[|s| - |rest|..] == rest && n <= |rest|
    ensures HeaderValue(s, |s| - |rest|, n) == HeaderValue(rest, 0, n)
  {
    SuffixText(s, rest, |s| - |rest|, n);
  }

  lemma KeepAliveRead(m: HttpMethod, path: string, n: int, conn: Option<string>, body: string)
    requires m != UNKNOWN && NamesClear(path, conn, body) && ConnOk(conn)
    ensures KeepAliveOf(Print(m, path, n, conn, body)) == Stays(conn)
  {
    hide Find, HeaderValue, KeepAliveOf, RequestLine, LengthLine, Tail, IsClose, OccursAt, Contains;
    var s := Print(m, path, n, conn, body);
    var tail := Tail(conn, body);
    FindConnection(m, path, n, tail, "Connection:");
    match conn
    case None =>
      FindConnection(m, path, n, tail, "connection:");
      FindConnection(m, path, n, tail, "CONNECTION:");
      NoConnectionInTail(body, "Connection:");
      NoConnectionInTail(body, "connection:");
      NoConnectionInTail(body, "CONNECTION:");
      KeepAliveAbsent(s);
    case Some(v) =>
      ConnValue(v, body);
      TailSuffix(m, path, n, tail);
      KeepAliveAt(s, |s| - |tail|);
      ValueInSuffix(s, tail, 11);
      ClosePrefix(v[BlankSpan(v)..], "\r\n" + body);
  }

  lemma LengthValue(n: int, rest: string)
    requires LONG_MIN <= n <= LONG_MAX
    ensures var t := LengthLine(n, rest);
            Find(t, "Content-Length:", 0) == Some(0) && Strtol(HeaderValue(t, 0, 15)) == n
  {
    hide DecInt, Strtol, Find;
    var t := LengthLine(n, rest);
    assert t[0..0 + 15] == "Content-Length:";
    FindIs(t, "Content-Length:", 0, 0);
    var after := "\r" + ['\n'] + rest;
    assert t[0 + 15..] == [' '] + (DecInt(n) + after);
    assert DecInt(n)[0] in DecInt(n);
    assert t[15..][1..] == DecInt(n) + after;
    assert BlankSpan(t[15..][1..]) == 0;
    StrtolDec(n, after);
  }

  lemma ContentLengthAtIs(s: string, i: nat)
    requires Find(s, "Content-Length:", 0) == Some(i)
    ensures i + 15 <= |s| && ContentLengthOf(s) == Strtol(HeaderValue(s, i, 15))
  {
  }

  lemma ContentLengthRead(m: HttpMethod, path: string, n: int, conn: Option<string>, body: string)
    requires m != UNKNOWN && !Contains(path, "Content-Length:") && LONG_MIN <= n <= LONG_MAX
    ensures ContentLengthOf(Print(m, path, n, conn, body)) == n
  {
    hide Find, HeaderValue, ContentLengthOf, RequestLine, LengthLine, Tail, Strtol, OccursAt, Contains;
    var s := Print(m, path, n, conn, body);
    var rest := LengthLine(n, Tail(conn, body));
    FindPastRequestLine(m, path, rest, "Content-Length:");
    LengthValue(n, Tail(conn, body));
    RequestLineSuffix(m, path, rest);
    ContentLengthAtIs(s, |s| - |rest|);
    LengthLineLong(n, Tail(conn, body));
    ValueInSuffix(s, rest, 15);
  }

  lemma LengthLineLong(n: int, rest: string)
    ensures 15 <= |LengthLine(n, rest)|
  {
  }

  lemma {:induction false} WordLenIs(word: string, rest: string, limit: nat)
    requires |word| <= limit && (forall c :: c in word ==> !IsSpace(c))
    requires rest != "" && IsSpace(rest[0])
    ensures WordLen(word + rest, limit) == |word|
  {
    if word != "" {
      assert (word + rest)[1..] == word[1..] + rest;
      WordLenIs(word[1..], rest, limit - 1);
    } else {
      assert word + rest == rest;
    }
  }

  lemma PathRead(m: HttpMethod, path: string, rest: string)
    requires m != UNKNOWN && PathOk(path)
    ensures MethodOf(RequestLine(m, path, rest)) == m && PathOf(RequestLine(m, path, rest)) == path
  {
    var s := RequestLine(m, path, rest);
    if m == GET {
      assert s[0..0 + 4] == "GET ";
    } else {
      assert s[0..0 + 5] == "POST ";
      OccursByte(s, "GET ", 0, 0);
    }
    var after := [' '] + ("HTTP/1.1\r" + ['\n'] + rest);
    assert s[MethodLength(m)..] == path + after;
    WordLenIs(path, after, MAX_PATH_SIZE - 1);
  }

  /** The blank line is not inside a line, nor where two lines meet. */
  lemma FindBlankLine(line: string, tail: string)
    requires '\r' !in line && tail != "" && tail[0] != '\r'
    ensures Find(line + "\r\n" + tail, "\r\n\r\n", 0) == Shift(Find(tail, "\r\n\r\n", 0), |line| + 2)
  {
    var s := line + "\r\n" + tail;
    forall j: nat | j < |line| + 2 ensures !OccursAt(s, "\r\n\r\n", j) {
      OccursByte(s, "\r\n\r\n", j, 0);
      OccursByte(s, "\r\n\r\n", j, 2);
    }
    FindShift(line + "\r\n", tail, "\r\n\r\n");
  }

  lemma Assoc(a: string, b: string, c: string)
    ensures (a + b) + c == a + (b + c)
  {
  }

  lemma TailText(conn: Option<string>, body: string)
    ensures conn == None ==> Tail(conn, body) == "\r\n" + body
    ensures conn.Some? ==> Tail(conn, body) == ("Connection: " + conn.value) + "\r\n\r\n" + body
  {
    assert "\r\n\r\n" == "\r\n" + "\r\n";
  }

  lemma BlankAfterLine(line: string, body: string)
    requires '\r' !in line
    ensures Find(line + "\r\n" + ("\r\n" + body), "\r\n\r\n", 0) == Some(|line|)
  {
    hide Find, OccursAt;
    assert line + "\r\n" + ("\r\n" + body) == line + "\r\n\r\n" + body;
    FindAfter(line, "\r\n\r\n", body);
  }

  lemma BlankAfterTwo(l2: string, l3: string, body: string)
    requires '\r' !in l2 && '\r' !in l3 && l3 != ""
    ensures Find(l2 + "\r\n" + (l3 + "\r\n\r\n" + body), "\r\n\r\n", 0) == Some(|l2| + 2 + |l3|)
  {
    hide *;
    var tail := l3 + "\r\n\r\n" + body;
    assert tail != "" && tail[0] == l3[0] && l3[0] in l3;
    FindAfter(l3, "\r\n\r\n", body);
    FindBlankLine(l2, tail);
    ShiftSome(|l3|, |l2| + 2);
  }

  lemma ShiftSome(k: nat, n: nat)
    ensures Shift(Some(k), n) == Some(n + k)
  {
  }

  lemma BlankInTail(l2: string, conn: Option<string>, body: string)
    requires '\r' !in l2 && ConnOk(conn)
    ensures var t := l2 + "\r\n" + Tail(conn, body);
            Find(t, "\r\n\r\n", 0) == Some(|t| - |body| - 4)
  {
    hide Find, Tail, ConnLine;
    TailText(conn, body);
    match conn
    case None => BlankAfterLine(l2, body);
    case Some(v) => BlankAfterTwo(l2, "Connection: " + v, body);
  }

  lemma LengthLineText(n: int, rest: string)
    ensures LengthLine(n, rest) == ("Content-Length: " + DecInt(n)) + "\r\n" + rest
  {
  }

  lemma RequestLineText(m: HttpMethod, path: string, rest: string)
    requires m != UNKNOWN
    ensures RequestLine(m, path, rest) == (MethodName(m) + [' '] + path + " HTTP/1.1") + "\r\n" + rest
  {
    var a, b := MethodName(m) + [' '], path;
    var c := "HTTP/1.1\r" + ['\n'] + rest;
    assert [' '] + c == (" HTTP/1.1" + "\r\n") + rest;
    Assoc(a, b, [' '] + c);
    Assoc(b, [' '], c);
    Assoc(a + b, " HTTP/1.1" + "\r\n", rest);
    Assoc(a + b, " HTTP/1.1", "\r\n");
  }

  lemma NoCrInRequestLine(m: HttpMethod, path: string)
    requires m != UNKNOWN && PathOk(path)
    ensures '\r' !in MethodName(m) + [' '] + path + " HTTP/1.1"
  {
    assert '\r' !in path;
  }

  lemma BodyStartIs(s: string, i: nat)
    requires Find(s, "\r\n\r\n", 0) == Some(i)
    ensures BodyStartOf(s) == Some(i + 4)
  {
  }

  lemma BodyRead(m: HttpMethod, path: string, n: int, conn: Option<string>, body: string)
    requires m != UNKNOWN && PathOk(path) && ConnOk(conn)
    ensures BodyStartOf(Print(m, path, n, conn, body)) == Some(|Print(m, path, n, conn, body)| - |body|)
  {
    hide Find, BodyStartOf, RequestLine, LengthLine, Tail, MethodName, DecInt, OccursAt, PathOk;
    var s := Print(m, path, n, conn, body);
    var l1 := MethodName(m) + [' '] + path + " HTTP/1.1";
    var l2 := "Content-Length: " + DecInt(n);
    var t := LengthLine(n, Tail(conn, body));
    LengthLineText(n, Tail(conn, body));
    RequestLineText(m, path, t);
    NoCrInRequestLine(m, path);
    assert '\r' !in l2;
    BlankInTail(l2, conn, body);
    FindBlankLine(l1, t);
    BodyStartIs(s, |s| - |body| - 4);
  }

  lemma ParsePrint(m: HttpMethod, path: string, n: int, conn: Option<string>, body: string)
    requires m != UNKNOWN && PathOk(path) && NamesClear(path, conn, body) && ConnOk(conn) && LONG_MIN <= n <= LONG_MAX
    ensures Parse(Print(m, path, n, conn, body)) ==
            Some(Request(m, path, n, Some(|Print(m, path, n, conn, body)| - |body|), Stays(conn)))
  {
    PathRead(m, path, LengthLine(n, Tail(conn, body)));
    ContentLengthRead(m, path, n, conn, body);
    KeepAliveRead(m, path, n, conn, body);
    BodyRead(m, path, n, conn, body);
  }

  lemma CStrAfter(head: string, body: string)
    requires NUL !in head
    ensures CStr(head + body) == head + CStr(body)
  {
    var s, t := head + body, head + CStr(body);
    assert s[..|t|] == t;
    CStrIs(s, t);
  }

  /** Everything before the body. */
  function PrintHead(m: HttpMethod, path: string, n: int, conn: Option<string>): string
    requires m != UNKNOWN
  {
    Print(m, path, n, conn, "")
  }

  lemma TailSplit(conn: Option<string>, body: string)
    ensures Tail(conn, body) == Tail(conn, "") + body
  {
    hide ConnLine;
    assert "\r\n" + "" == "\r\n";
    Assoc(ConnLine(conn), "\r\n", body);
  }

  lemma LengthLineSplit(n: int, x: string, body: string)
    ensures LengthLine(n, x + body) == LengthLine(n, x) + body
  {
    hide DecInt;
    var a, b := "Content-Length:" + [' '], (DecInt(n) + "\r") + ['\n'];
    Assoc(b, x, body);
    Assoc(a, b + x, body);
  }

  lemma RequestLineSplit(m: HttpMethod, path: string, x: string, body: string)
    requires m != UNKNOWN
    ensures RequestLine(m, path, x + body) == RequestLine(m, path, x) + body
  {
    hide MethodName;
    var a, b, c := MethodName(m) + [' '], path + [' '], "HTTP/1.1\r" + ['\n'];
    Assoc(c, x, body);
    Assoc(b, c + x, body);
    Assoc(a, b + (c + x), body);
  }

  lemma PrintSplit(m: HttpMethod, path: string, n: int, conn: Option<string>, body: string)
    requires m != UNKNOWN
    ensures Print(m, path, n, conn, body) == PrintHead(m, path, n, conn) + body
  {
    hide RequestLine, LengthLine, Tail;
    TailSplit(conn, body);
    LengthLineSplit(n, Tail(conn, ""), body);
    RequestLineSplit(m, path, LengthLine(n, Tail(conn, "")), body);
  }

  /**
   Parsing the bytes of a printed request recovers the method, the path, the length and the
   connection option, with any value and any blanks before it, and the body pointer points at the
   body, whatever bytes the body holds.
   */
  lemma RequestRoundTrip(m: HttpMethod, path: string, n: int, conn: Option<string>, body: string)
    requires m != UNKNOWN && PathOk(path) && NamesClear(path, conn, CStr(body)) && ConnOk(conn)
    requires LONG_MIN <= n <= LONG_MAX
    ensures var s := Print(m, path, n, conn, body);
            && Parse(CStr(s)) == Some(Request(m, path, n, Some(|s| - |body|), Stays(conn)))
            && |body| <= |s| && s[|s| - |body|..] == body
  {
    hide *;
    PrintSplit(m, path, n, conn, body);
    PrintSplit(m, path, n, conn, CStr(body));
    HeadHasNoNul(m, path, n, conn);
    CStrAfter(PrintHead(m, path, n, conn), body);
    ParsePrint(m, path, n, conn, CStr(body));
  }

  // ---------- A request without a connection line of its own ----------

  /** The path holds no header name. */
  predicate PathClear(path: string) {
    && !Contains(path, "Content-Length:")
    && !Contains(path, "Connection:") && !Contains(path, "connection:") && !Contains(path, "CONNECTION:")
  }

  /** Then a spelling is found where the text after the head has it. */
  lemma FindBehind(m: HttpMethod, path: string, n: int, body: string, pat: string)
    requires m != UNKNOWN && Spelling(pat) && !Contains(path, pat)
    ensures var s := Print(m, path, n, None, body);
            |body| <= |s| && Find(s, pat, 0) == Shift(Find(body, pat, 0), |s| - |body|)
  {
    hide Find, Contains, RequestLine, LengthLine, OccursAt;
    FindConnection(m, path, n, Tail(None, body), pat);
    SpellingFacts(pat);
    NotContained("\r", pat);
    FindPast("\r", '\n', body, pat);
    assert Tail(None, body) == "\r" + ['\n'] + body;
    ShiftTwice(Find(body, pat, 0), 2, |Print(m, path, n, None, body)| - |Tail(None, body)|);
  }

  /** So the connection option is that of whatever stands behind the head. */
  lemma ConnectionBehind(m: HttpMethod, path: string, n: int, body: string)
    requires m != UNKNOWN && PathClear(path)
    ensures KeepAliveOf(Print(m, path, n, None, body)) == KeepAliveOf(body)
  {
    hide Find, Contains, Print, HeaderValue, StartsWithNoCase, OccursAt;
    var s := Print(m, path, n, None, body);
    FindBehind(m, path, n, body, "Connection:");
    FindBehind(m, path, n, body, "connection:");
    FindBehind(m, path, n, body, "CONNECTION:");
    PrintSplit(m, path, n, None, body);
    var at := ConnectionAt(body);
    if at.Some? {
      assert s[|s| - |body|..] == body;
      ValueBehind(s, body, at.value);
    }
  }

  lemma ValueBehind(s: string, rest: string, i: nat)
    requires |rest| <= |s| && s[|s| - |rest|..] == rest && i + 11 <= |rest|
    ensures HeaderValue(s, |s| - |rest| + i, 11) == HeaderValue(rest, i, 11)
  {
    assert s[|s| - |rest| + i + 11..] == rest[i + 11..];
  }

  /** What parsing makes of a request without a connection line, whatever stands behind its head. */
  lemma BorrowedConnection(m: HttpMethod, path: string, n: int, body: string)
    requires m != UNKNOWN && PathOk(path) && PathClear(path) && LONG_MIN <= n <= LONG_MAX
    ensures var s := Print(m, path, n, None, body);
            && |body| <= |s|
            && Parse(CStr(s)) == Some(Request(m, path, n, Some(|s| - |body|), KeepAliveOf(CStr(body))))
  {
    hide Find, Contains, KeepAliveOf, BodyStartOf, ContentLengthOf, MethodOf, PathOf, RequestLine, LengthLine, PathOk;
    PrintSplit(m, path, n, None, body);
    PrintSplit(m, path, n, None, CStr(body));
    HeadHasNoNul(m, path, n, None);
    CStrAfter(PrintHead(m, path, n, None), body);
    PathRead(m, path, LengthLine(n, Tail(None, CStr(body))));
    ContentLengthRead(m, path, n, None, CStr(body));
    ConnectionBehind(m, path, n, CStr(body));
    BodyRead(m, path, n, None, CStr(body));
  }

  lemma HeadHasNoNul(m: HttpMethod, path: string, n: int, conn: Option<string>)
    requires m != UNKNOWN && PathOk(path) && ConnOk(conn)
    ensures NUL !in PrintHead(m, path, n, conn)
  {
    var tail := Tail(conn, "");
    assert NUL !in tail by {
      assert NUL !in "Connection: " && NUL !in ConnLine(conn);
    }
    LengthLineNoNul(n, tail);
    RequestLineNoNul(m, path, LengthLine(n, tail));
  }

  lemma LengthLineNoNul(n: int, rest: string)
    requires NUL !in rest
    ensures NUL !in LengthLine(n, rest)
  {
    hide DecInt;
    assert NUL !in DecInt(n);
    assert NUL !in "Content-Length:";
  }

  lemma RequestLineNoNul(m: HttpMethod, path: string, rest: string)
    requires m != UNKNOWN && PathOk(path) && NUL !in rest
    ensures NUL !in RequestLine(m, path, rest)
  {
    assert NUL !in MethodName(m);
    assert NUL !in "HTTP/1.1\r" + ['\n'];
  }
}
