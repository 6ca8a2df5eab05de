/** `load_config`: the lines of the file, trimmed and assigned in place, last assignment wins. */
module Config {
  import opened Wrappers
  import opened CStrings
  import opened Decimal

  const LINE_SIZE := 256
  const FIELD_SIZE := 256

  datatype Settings = Settings(port: int, publicDir: string, useCache: int, certPath: string, keyPath: string)

  // ---------- fgets ----------

  /** How many bytes `fgets` takes: up to a newline, at most 255. */
  function LineLen(s: string, limit: nat): (n: nat)
    ensures n <= |s| && n <= limit
    ensures s != "" && 0 < limit ==> 0 < n
    ensures forall i :: 0 <= i < n - 1 ==> s[i] != '\n'
    ensures n < |s| && n < limit ==> 0 < n && s[n - 1] == '\n'
  {
    if s == "" || limit == 0 then 0
    else if s[0] == '\n' then 1
    else 1 + LineLen(s[1..], limit - 1)
  }

  /** The lines that the loop sees. */
  function Lines(s: string): (ls: seq<string>)
    ensures forall i :: 0 <= i < |ls| ==> 0 < |ls[i]| <= LINE_SIZE - 1
    ensures s != "" ==> ls != []
  {
    if s == "" then []
    else
      var n := LineLen(s, LINE_SIZE - 1);
      [s[..n]] + Lines(s[n..])
  }

  /** A line that takes no more input: it ends with a newline or fills the buffer. */
  predicate Complete(line: string) {
    line != "" && (line[|line| - 1] == '\n' || |line| == LINE_SIZE - 1)
  }

  predicate Closed(s: string) {
    s == "" || Complete(Lines(s)[|Lines(s)| - 1])
  }

  // ---------- One line ----------

  function TrimStart(s: string): (t: string)
    ensures t == s[SpaceSpan(s)..]
  {
    if s == "" || !IsSpace(s[0]) then s else TrimStart(s[1..])
  }

  function TrimEnd(s: string): (t: string)
    ensures t <= s
    ensures t != "" ==> !IsSpace(t[|t| - 1])
    ensures forall i :: |t| <= i < |s| ==> IsSpace(s[i])
  {
    if s == "" || !IsSpace(s[|s| - 1]) then s else TrimEnd(s[..|s| - 1])
  }

  function Trim(s: string): string {
    TrimEnd(TrimStart(s))
  }

  function Assign(key: string, value: string, c: Settings): Settings {
    if key == "port" then c.(port := Atoi(value))
    else if key == "public_dir" then c.(publicDir := Cut(255, value))
    else if key == "use_cache" then c.(useCache := Atoi(value))
    else if key == "ssl_cert_path" || key == "ssl_cert_file" then c.(certPath := Cut(255, value))
    else if key == "ssl_key_path" || key == "ssl_key_file" then c.(keyPath := Cut(255, value))
    else c
  }

  /** The key and value of a line, or None for a comment, an empty line or one without `=`. */
  function Entry(line: string): Option<(string, string)>
    requires line != ""
  {
    if line[0] == '#' || line[0] == '\n' || line[0] == '\r' then None
    else
      var l := CStr(line);
      match Find(l, "=", 0)
      case None => None
      case Some(d) => Some((Trim(l[..d]), Trim(l[d + 1..])))
  }

  function Apply(line: string, c: Settings): Settings
    requires line != ""
  {
    match Entry(line)
    case None => c
    case Some((key, value)) => Assign(key, value, c)
  }

  /** Loading: a left fold of the lines. */
  function Load(s: string, c: Settings): Settings
    decreases |s|
  {
    if s == "" then c
    else
      var n := LineLen(s, LINE_SIZE - 1);
      Load(s[n..], Apply(s[..n], c))
  }

  // ---------- The loop of the source ----------

  class ServerConfig {
    var port: int
    const publicDir: array<char>
    var useCache: int
    const certPath: array<char>
    const keyPath: array<char>

    ghost predicate Valid()
      reads this, publicDir, certPath, keyPath
    {
      && publicDir.Length == certPath.Length == keyPath.Length == FIELD_SIZE
      && publicDir != certPath && publicDir != keyPath && certPath != keyPath
      && Terminated(publicDir[..]) && Terminated(certPath[..]) && Terminated(keyPath[..])
    }

    ghost function View(): Settings
      reads this, publicDir, certPath, keyPath
    {
      Settings(port, CStr(publicDir[..]), useCache, CStr(certPath[..]), CStr(keyPath[..]))
    }

    /** A structure of zero bytes, as the process-wide one begins. */
    constructor ()
      ensures Valid() && View() == Settings(0, "", 0, "", "")
      ensures fresh(publicDir) && fresh(certPath) && fresh(keyPath)
    {
      port, useCache := 0, 0;
      publicDir := new char[FIELD_SIZE](_ => NUL);
      certPath := new char[FIELD_SIZE](_ => NUL);
      keyPath := new char[FIELD_SIZE](_ => NUL);
    }

    /**
     The assignment chain of the loop body: the field that has the key, under either spelling, now
     holds the value, and every other field is as it was.
     */
    method Set(key: string, value: string)
      requires Valid() && NUL !in value
      modifies this, publicDir, certPath, keyPath
      ensures Valid()
      ensures forall f: FieldName ::
                if key in Keys(f) then Has(View(), f, value) else SameField(View(), old(View()), f)
    {
      hide StrLen, Atoi;
      if key == "port" {
        port := Atoi(value);
      } else if key == "public_dir" {
        BoundedCopy(publicDir, value);
      } else if key == "use_cache" {
        useCache := Atoi(value);
      } else if key == "ssl_cert_path" || key == "ssl_cert_file" {
        BoundedCopy(certPath, value);
      } else if key == "ssl_key_path" || key == "ssl_key_file" {
        BoundedCopy(keyPath, value);
      }
    }

    /** The internal defaults; a padded `strncpy` terminates them. */
    method SetDefaults()
      requires Valid()
      modifies this, publicDir, certPath, keyPath
      ensures Valid() && View() == Settings(8090, "public", 1, "certs/server.crt", "certs/server.key")
    {
      hide StrLen;
      port, useCache := 8090, 1;
      PaddedCopy(publicDir, "public");
      PaddedCopy(certPath, "certs/server.crt");
      PaddedCopy(keyPath, "certs/server.key");
    }

    /** `file` is the file's text, or None when it cannot be opened. */
    method LoadConfig(file: Option<string>) returns (r: int)
      requires Valid()
      modifies this, publicDir, certPath, keyPath
      ensures Valid()
      ensures file == None ==> r == -1 && View() == Settings(8090, "public", 1, "certs/server.crt", "certs/server.key")
      ensures file.Some? ==> r == 0 && View() == Load(file.value, old(View()))
    {
      hide LineLen, Find, StrLen, Assign, Trim, Terminated, CStr;
      if file == None {
        SetDefaults();
        return -1;
      }
      var line := new char[LINE_SIZE];
      var rest := file.value;
      while rest != ""
        invariant fresh(line) && line.Length == LINE_SIZE && Valid()
        invariant Load(rest, View()) == Load(file.value, old(View()))
        decreases |rest|
      {
        var n := Fgets(line, rest);
        ghost var text := rest[..n];
        rest := rest[n..];
        if line[0] == '#' || line[0] == '\n' || line[0] == '\r' {
          continue;
        }
        var delimiter := Find(CStr(line[..]), "=", 0);
        if delimiter == None {
          continue;
        }
        CStrHolds(line);
        var key, value := SplitLine(line, delimiter.value, CStr(text));
        assert Entry(text) == Some((key, value));
        ghost var before := View();
        Set(key, value);
        FieldsAssigned(key, value, before, View());
      }
      return 0;
    }
  }

  /** `strncpy(dst, src, sizeof(dst) - 1)` alone: the padding holds the NUL. */
  method PaddedCopy(dst: array<char>, src: string)
    requires dst.Length == FIELD_SIZE && |src| < FIELD_SIZE - 1 && NUL !in src
    modifies dst
    ensures Terminated(dst[..]) && CStr(dst[..]) == src
  {
    StrNCpy(dst, src, FIELD_SIZE - 1);
    assert dst[..][..|src|] == src;
    CStrIs(dst[..], src);
  }

  /** Assigning field by field is `Assign`. */
  lemma FieldsAssigned(key: string, value: string, c: Settings, d: Settings)
    requires forall f: FieldName :: if key in Keys(f) then Has(d, f, value) else SameField(d, c, f)
    ensures d == Assign(key, value, c)
  {
    hide Atoi;
    AssignField(key, value, c, Port);
    AssignField(key, value, c, PublicDir);
    AssignField(key, value, c, UseCache);
    AssignField(key, value, c, CertPath);
    AssignField(key, value, c, KeyPath);
  }

  /** `fgets(line, 256, file)` when input is left: the bytes and a NUL. */
  method Fgets(line: array<char>, rest: string) returns (n: nat)
    requires line.Length == LINE_SIZE && rest != ""
    modifies line
    ensures n == LineLen(rest, LINE_SIZE - 1)
    ensures line[0] == rest[0] && Terminated(line[..]) && CStr(line[..]) == CStr(rest[..n])
  {
    n := LineLen(rest, LINE_SIZE - 1);
    forall i | 0 <= i <= n {
      line[i] := if i < n then rest[i] else NUL;
    }
    var t := CStr(rest[..n]);
    assert line[..][..n] == rest[..n];
    assert line[..][..|t|] == t;
    CStrIs(line[..], t);
  }

  /** The string at pointer `p` is `t`. */
  ghost predicate Holds(line: array<char>, p: nat, t: string)
    reads line
  {
    && p + |t| < line.Length && line[p + |t|] == NUL
    && forall i :: 0 <= i < |t| ==> line[p + i] == t[i] && t[i] != NUL
  }

  lemma HoldsCStr(line: array<char>, p: nat, t: string)
    requires Holds(line, p, t)
    ensures StrLen(line[p..]) == |t| && CStr(line[p..]) == t
  {
    assert line[p..][..|t|] == t;
    CStrIs(line[p..], t);
  }

  lemma CStrHolds(line: array<char>)
    requires Terminated(line[..])
    ensures Holds(line, 0, CStr(line[..]))
  {
    var t := CStr(line[..]);
    assert forall i :: 0 <= i < |t| ==> t[i] in t;
  }

  /** Where the leading white space ends is where `isspace` first fails. */
  lemma TrimStartIs(t: string, n: nat)
    requires n <= |t| && (forall i :: 0 <= i < n ==> IsSpace(t[i])) && (n < |t| ==> !IsSpace(t[n]))
    ensures TrimStart(t) == t[n..]
  {
  }

  lemma TrimEndIs(t: string, n: nat)
    requires n <= |t| && (forall i :: n <= i < |t| ==> IsSpace(t[i])) && (n > 0 ==> !IsSpace(t[n - 1]))
    ensures TrimEnd(t) == t[..n]
  {
  }

  /** `while (isspace(*p)) p++`. */
  method SkipSpaces(line: array<char>, start: nat, ghost t: string) returns (p: nat)
    requires Holds(line, start, t)
    ensures start <= p && Holds(line, p, TrimStart(t)) && p + |TrimStart(t)| == start + |t|
  {
    hide TrimStart, SpaceSpan;
    p := start;
    while IsSpace(line[p])
      invariant start <= p <= start + |t|
      invariant forall i :: 0 <= i < p - start ==> IsSpace(t[i])
      decreases line.Length - p
    {
      assert p - start < |t| ==> line[p] == t[p - start];
      p := p + 1;
    }
    TrimStartIs(t, p - start);
  }

  /** The loop that overwrites trailing white space with NULs. */
  method TrimEndInPlace(line: array<char>, p: nat, ghost t: string)
    requires Holds(line, p, t)
    modifies line
    ensures Holds(line, p, TrimEnd(t))
    ensures forall i :: 0 <= i < p || p + |t| <= i < line.Length ==> line[i] == old(line[i])
  {
    hide TrimEnd;
    HoldsCStr(line, p, t);
    var len := StrLen(line[p..]);
    while len > 0 && IsSpace(line[p + len - 1])
      invariant 0 <= len <= |t|
      invariant Holds(line, p, t[..len])
      invariant forall i :: len <= i < |t| ==> IsSpace(t[i])
      invariant forall i :: 0 <= i < p || p + |t| <= i < line.Length ==> line[i] == old(line[i])
      decreases len
    {
      assert t[..len][len - 1] == t[len - 1];
      line[p + len - 1] := NUL;
      len := len - 1;
    }
    assert len > 0 ==> t[..len][len - 1] == t[len - 1];
    TrimEndIs(t, len);
  }

  /** Cut the line at the `=` and trim both sides where they stand. */
  method SplitLine(line: array<char>, d: nat, ghost l: string) returns (key: string, value: string)
    requires Holds(line, 0, l) && d < |l|
    modifies line
    ensures key == Trim(l[..d]) && value == Trim(l[d + 1..]) && NUL !in value
  {
    ghost var left, right := l[..d], l[d + 1..];
    line[d] := NUL;
    assert Holds(line, 0, left);
    assert Holds(line, d + 1, right) by {
      assert forall i :: 0 <= i < |right| ==> right[i] == l[d + 1 + i];
    }
    var k := SkipSpaces(line, 0, left);
    var v := SkipSpaces(line, d + 1, right);
    left, right := TrimStart(left), TrimStart(right);
    TrimBoth(line, k, v, left, right);
    HoldsCStr(line, k, TrimEnd(left));
    HoldsCStr(line, v, TrimEnd(right));
    key, value := CStr(line[k..]), CStr(line[v..]);
  }

  /** Trimming the key leaves the value alone, and the other way round. */
  method TrimBoth(line: array<char>, k: nat, v: nat, ghost left: string, ghost right: string)
    requires Holds(line, k, left) && Holds(line, v, right) && k + |left| < v
    modifies line
    ensures Holds(line, k, TrimEnd(left)) && Holds(line, v, TrimEnd(right))
  {
    TrimEndInPlace(line, k, left);
    TrimEndInPlace(line, v, right);
  }

  // ---------- Appending files ----------

  lemma LineLenIs(s: string, limit: nat, n: nat)
    requires 0 < n <= |s| && n <= limit
    requires forall i :: 0 <= i < n - 1 ==> s[i] != '\n'
    requires n == |s| || n == limit || s[n - 1] == '\n'
    ensures LineLen(s, limit) == n
  {
    hide LineLen;
  }

  lemma LineLenAppend(a: string, b: string, limit: nat)
    requires a != "" && 0 < limit
    ensures var n := LineLen(a, limit);
            LineLen(a + b, limit) == if n < |a| || n == limit || a[n - 1] == '\n' then n else n + LineLen(b, limit - n)
  {
    hide LineLen;
    var n := LineLen(a, limit);
    LineLenIs(a + b, limit, if n < |a| || n == limit || a[n - 1] == '\n' then n else n + LineLen(b, limit - n));
  }

  lemma LinesCons(s: string)
    requires s != ""
    ensures var n := LineLen(s, LINE_SIZE - 1); Lines(s) == [s[..n]] + Lines(s[n..])
  {
  }

  lemma ClosedTail(a: string)
    requires LineLen(a, LINE_SIZE - 1) < |a|
    ensures Closed(a) == Closed(a[LineLen(a, LINE_SIZE - 1)..])
  {
    hide LineLen, Lines;
    LinesCons(a);
  }

  /** A first line that is complete without the second file. */
  lemma LinesConsAppend(a: string, b: string)
    requires a != ""
    requires var n := LineLen(a, LINE_SIZE - 1); n < |a| || Complete(a)
    ensures var n := LineLen(a, LINE_SIZE - 1); Lines(a + b) == [a[..n]] + Lines(a[n..] + b)
  {
    hide LineLen, Lines;
    var n := LineLen(a, LINE_SIZE - 1);
    LineLenAppend(a, b, LINE_SIZE - 1);
    LinesCons(a + b);
    assert (a + b)[..n] == a[..n] && (a + b)[n..] == a[n..] + b;
  }

  lemma OneLine(a: string)
    requires a != "" && LineLen(a, LINE_SIZE - 1) == |a|
    ensures Lines(a) == [a]
  {
    assert a[..|a|] == a && a[|a|..] == "";
  }

  lemma {:induction false} LinesAppendClosed(a: string, b: string)
    requires Closed(a)
    ensures Lines(a + b) == Lines(a) + Lines(b)
    decreases |a|
  {
    hide LineLen, Lines;
    if a == "" {
      assert a + b == b;
      NoLines();
    } else {
      var n := LineLen(a, LINE_SIZE - 1);
      if n < |a| {
        ClosedTail(a);
        LinesAppendClosed(a[n..], b);
      } else {
        OneLine(a);
        NoLines();
        assert a[n..] + b == b && a[n..] == "";
      }
      LinesConsAppend(a, b);
      LinesCons(a);
    }
  }

  lemma NoLines()
    ensures Lines("") == []
  {
  }

  lemma {:induction false} LinesAppendOpen(a: string, b: string)
    requires !Closed(a) && b != ""
    ensures Lines(a + b) != Lines(a) + Lines(b)
    decreases |a|
  {
    hide LineLen, Lines;
    var n := LineLen(a, LINE_SIZE - 1);
    if n < |a| {
      ClosedTail(a);
      LinesAppendOpen(a[n..], b);
      LinesConsAppend(a, b);
      LinesCons(a);
      assert Lines(a + b)[1..] == Lines(a[n..] + b);
      assert (Lines(a) + Lines(b))[1..] == Lines(a[n..]) + Lines(b);
    } else {
      OneLine(a);
      LineLenAppend(a, b, LINE_SIZE - 1);
      LinesCons(a + b);
      assert |Lines(a + b)[0]| > |a|;
      assert (Lines(a) + Lines(b))[0] == a;
    }
  }

  /** The lines of two files in a row are the lines of each, exactly when the first is closed (or nothing follows). */
  lemma LinesAppendIff(a: string, b: string)
    ensures Lines(a + b) == Lines(a) + Lines(b) <==> b == "" || Closed(a)
  {
    if b == "" {
      assert a + b == a;
      NoLines();
      assert Lines(a) + [] == Lines(a);
    } else if Closed(a) {
      LinesAppendClosed(a, b);
    } else {
      LinesAppendOpen(a, b);
    }
  }

  /** The loop as a fold over the list of lines. */
  function Fold(lines: seq<string>, c: Settings): Settings
    requires forall i :: 0 <= i < |lines| ==> lines[i] != ""
  {
    if lines == [] then c else Fold(lines[1..], Apply(lines[0], c))
  }

  lemma {:induction false} LoadIsFold(s: string, c: Settings)
    ensures Load(s, c) == Fold(Lines(s), c)
    decreases |s|
  {
    if s != "" {
      var n := LineLen(s, LINE_SIZE - 1);
      LoadIsFold(s[n..], Apply(s[..n], c));
      assert Lines(s)[1..] == Lines(s[n..]);
    }
  }

  lemma {:induction false} FoldAppend(x: seq<string>, y: seq<string>, c: Settings)
    requires forall i :: 0 <= i < |x| ==> x[i] != ""
    requires forall i :: 0 <= i < |y| ==> y[i] != ""
    ensures Fold(x + y, c) == Fold(y, Fold(x, c))
    decreases |x|
  {
    if x == [] {
      assert x + y == y;
    } else {
      assert (x + y)[1..] == x[1..] + y;
      FoldAppend(x[1..], y, Apply(x[0], c));
    }
  }

  /** Loading a closed file and then another one is loading the second from what the first left. */
  lemma LoadAppend(a: string, b: string, c: Settings)
    requires Closed(a)
    ensures Load(a + b, c) == Load(b, Load(a, c))
  {
    LinesAppendIff(a, b);
    LoadIsFold(a + b, c);
    LoadIsFold(a, c);
    LoadIsFold(b, Load(a, c));
    FoldAppend(Lines(a), Lines(b), c);
  }

  lemma LoadOneLine(key: string, v: string, c: Settings)
    requires KeyOk(key) && ValueOk(v) && |key| + |v| + 1 < LINE_SIZE
    ensures Lines(key + "=" + v) == [key + "=" + v] && Load(key + "=" + v, c) == Assign(key, v, c)
  {
    PrintedLine(key, v, "", c);
    assert key + "=" + v + "" == key + "=" + v;
    SingleLine(key + "=" + v);
  }

  lemma LoadNothing(s: string, c: Settings)
    requires s != "" && |s| < LINE_SIZE && '\n' !in s && NUL !in s && '=' !in s
    ensures Load(s, c) == c
  {
    SingleLine(s);
    NotContainedByte(s);
  }

  /** Without the newline the last line of the first file runs into the second. */
  lemma UnclosedAppendFails(c: Settings)
    ensures !Closed("port=1") && Load("port=1" + "2", c) != Load("2", Load("port=1", c))
  {
    hide Load, Lines, LineLen, Apply, Strtol, IntCast, Atoi;
    KeysOk();
    assert "port" + "=" + "1" == "port=1" && "port" + "=" + "12" == "port=1" + "2";
    assert DecInt(1) == "1";
    assert Dec(12 / 10) == "1" && DecInt(12) == "12";
    LoadOneLine("port", "1", c);
    LoadOneLine("port", "12", c);
    LoadNothing("2", Load("port=1", c));
    AtoiDec(1);
    AtoiDec(12);
  }

  lemma NotContainedByte(s: string)
    requires NUL !in s && '=' !in s
    ensures CStr(s) == s && Find(s, "=", 0) == None
  {
    CStrIs(s, s);
    forall i: nat ensures !OccursAt(s, "=", i) {
      OccursByte(s, "=", i, 0);
    }
  }

  /** A text without a newline before its end, and shorter than the buffer, is one line. */
  lemma LineLenOne(s: string, rest: string, limit: nat)
    requires s != "" && |s| <= limit && (forall i :: 0 <= i < |s| - 1 ==> s[i] != '\n')
    requires s[|s| - 1] == '\n' || rest == ""
    ensures LineLen(s + rest, limit) == |s|
  {
    LineLenIs(s + rest, limit, |s|);
  }

  lemma SingleLine(s: string)
    requires s != "" && |s| < LINE_SIZE && '\n' !in s
    ensures Lines(s) == [s]
    ensures forall c :: Load(s, c) == Apply(s, c)
  {
    LineLenOne(s, "", LINE_SIZE - 1);
    assert s + "" == s;
    assert s[..|s|] == s && s[|s|..] == "";
  }

  lemma AtoiDec(n: int)
    requires -0x8000_0000 <= n < 0x8000_0000
    ensures Atoi(DecInt(n)) == n
  {
    StrtolDec(n, "");
    assert DecInt(n) + "" == DecInt(n);
  }

  // ---------- Last assignment wins ----------

  datatype FieldName = Port | PublicDir | UseCache | CertPath | KeyPath

  /** The keys that assign a field; two fields have two spellings. */
  function Keys(f: FieldName): set<string> {
    match f
    case Port => {"port"}
    case PublicDir => {"public_dir"}
    case UseCache => {"use_cache"}
    case CertPath => {"ssl_cert_path", "ssl_cert_file"}
    case KeyPath => {"ssl_key_path", "ssl_key_file"}
  }

  /** The value that the last line with one of the keys gives. */
  function LastValue(lines: seq<string>, keys: set<string>): Option<string>
    requires forall i :: 0 <= i < |lines| ==> lines[i] != ""
  {
    if lines == [] then None
    else
      var n := |lines| - 1;
      match Entry(lines[n])
      case Some((key, value)) => if key in keys then Some(value) else LastValue(lines[..n], keys)
      case None => LastValue(lines[..n], keys)
  }

  /** Field `f` of `c` holds value `v`. */
  predicate Has(c: Settings, f: FieldName, v: string) {
    match f
    case Port => c.port == Atoi(v)
    case PublicDir => c.publicDir == Cut(255, v)
    case UseCache => c.useCache == Atoi(v)
    case CertPath => c.certPath == Cut(255, v)
    case KeyPath => c.keyPath == Cut(255, v)
  }

  predicate SameField(c: Settings, d: Settings, f: FieldName) {
    match f
    case Port => c.port == d.port
    case PublicDir => c.publicDir == d.publicDir
    case UseCache => c.useCache == d.useCache
    case CertPath => c.certPath == d.certPath
    case KeyPath => c.keyPath == d.keyPath
  }

  lemma AssignField(key: string, value: string, c: Settings, f: FieldName)
    ensures key in Keys(f) ==> Has(Assign(key, value, c), f, value)
    ensures key !in Keys(f) ==> SameField(Assign(key, value, c), c, f)
  {
    assert "port" != "public_dir" && "port" != "use_cache" && "public_dir" != "use_cache";
  }

  lemma {:induction false} FoldLast(lines: seq<string>, c: Settings, f: FieldName)
    requires forall i :: 0 <= i < |lines| ==> lines[i] != ""
    ensures match LastValue(lines, Keys(f))
            case Some(v) => Has(Fold(lines, c), f, v)
            case None => SameField(Fold(lines, c), c, f)
  {
    if lines != [] {
      var n := |lines| - 1;
      assert lines == lines[..n] + [lines[n]];
      FoldAppend(lines[..n], [lines[n]], c);
      FoldLast(lines[..n], c, f);
      var before := Fold(lines[..n], c);
      assert [lines[n]][1..] == [];
      assert Fold([lines[n]], before) == Apply(lines[n], before);
      match Entry(lines[n])
      case Some((key, value)) => AssignField(key, value, before, f);
      case None =>
    }
  }

  /** Each field ends as the last line for it says, under whichever spelling, or as it began. */
  lemma LastAssignmentWins(s: string, c: Settings, f: FieldName)
    ensures match LastValue(Lines(s), Keys(f))
            case Some(v) => Has(Load(s, c), f, v)
            case None => SameField(Load(s, c), c, f)
  {
    LoadIsFold(s, c);
    FoldLast(Lines(s), c, f);
  }

  /** The bounded copies never cut: a value comes from a line of at most 255 bytes that also holds an `=`. */
  lemma ValuesFit(line: string)
    requires 0 < |line| <= LINE_SIZE - 1 && Entry(line).Some?
    ensures Cut(255, Entry(line).value.1) == Entry(line).value.1
  {
  }

  lemma ApplyFits(line: string, c: Settings)
    requires line != "" && |c.publicDir| <= 255 && |c.certPath| <= 255 && |c.keyPath| <= 255
    ensures |Apply(line, c).publicDir| <= 255 && |Apply(line, c).certPath| <= 255 && |Apply(line, c).keyPath| <= 255
  {
    hide Entry, Atoi;
  }

  /** Every path of the configuration fits its 256-byte field. */
  lemma {:induction false} LoadedPathsFit(s: string, c: Settings)
    requires |c.publicDir| <= 255 && |c.certPath| <= 255 && |c.keyPath| <= 255
    ensures |Load(s, c).publicDir| <= 255 && |Load(s, c).certPath| <= 255 && |Load(s, c).keyPath| <= 255
    decreases |s|
  {
    hide Apply;
    if s != "" {
      var n := LineLen(s, LINE_SIZE - 1);
      ApplyFits(s[..n], c);
      LoadedPathsFit(s[n..], Apply(s[..n], c));
    }
  }

  // ---------- Printing and loading ----------

  /** A value that trimming, fgets and strchr leave alone; it may hold `=` and blanks inside. */
  predicate ValueOk(v: string) {
    '\n' !in v && NUL !in v && (v != "" ==> !IsSpace(v[0]) && !IsSpace(v[|v| - 1]))
  }

  predicate KeyOk(key: string) {
    && key != "" && '\n' !in key && NUL !in key && '=' !in key
    && key[0] != '#' && !IsSpace(key[0]) && !IsSpace(key[|key| - 1])
  }

  lemma TrimIs(s: string, i: nat, j: nat)
    requires i <= j <= |s| && (i == j ==> j == |s|) && (i < j ==> !IsSpace(s[i]) && !IsSpace(s[j - 1]))
    requires forall k :: 0 <= k < i || j <= k < |s| ==> IsSpace(s[k])
    ensures Trim(s) == s[i..j]
  {
    hide TrimStart, TrimEnd, SpaceSpan, IsSpace;
    TrimStartIs(s, i);
    TrimEndIs(s[i..], j - i);
  }

  lemma TrimPadded(v: string, pad: string)
    requires v != "" ==> !IsSpace(v[0]) && !IsSpace(v[|v| - 1])
    requires pad == "" || pad == "\n"
    ensures Trim(v + pad) == v
  {
    hide Trim;
    TrimIs(v + pad, if v == "" then |pad| else 0, if v == "" then |pad| else |v|);
  }

  /** A printed line assigns its value. */
  lemma PrintedLine(key: string, v: string, pad: string, c: Settings)
    requires KeyOk(key) && ValueOk(v) && (pad == "" || pad == "\n")
    ensures Apply(key + "=" + v + pad, c) == Assign(key, v, c)
  {
    hide Trim, Find, Assign;
    var line := key + "=" + v + pad;
    CStrIs(line, line);
    FindAfter(key, "=", v + pad);
    assert key + "=" + (v + pad) == line;
    assert line[..|key|] == key && line[|key| + 1..] == v + pad;
    TrimPadded(key, "");
    assert key + "" == key;
    TrimPadded(v, pad);
  }

  /** Loading a printed line and then the rest. */
  lemma LoadPrintedLine(key: string, v: string, rest: string, c: Settings)
    requires KeyOk(key) && ValueOk(v) && |key| + |v| + 2 < LINE_SIZE
    ensures Load(key + "=" + v + "\n" + rest, c) == Load(rest, Assign(key, v, c))
  {
    var line := key + "=" + v + "\n";
    LineLenOne(line, rest, LINE_SIZE - 1);
    assert (line + rest)[..|line|] == line && (line + rest)[|line|..] == rest;
    PrintedLine(key, v, "\n", c);
  }

  /** The six bytes of white space. */
  predicate Blank(s: string) {
    forall c :: c in s ==> c in [' ', '\t', '\n', 11 as char, 12 as char, '\r']
  }

  lemma BlankIsSpace(s: string)
    ensures Blank(s) <==> forall c :: c in s ==> IsSpace(c)
  {
    forall c ensures IsSpace(c) <==> c in [' ', '\t', '\n', 11 as char, 12 as char, '\r'] {
    }
  }

  /** White space around a text is trimmed, all of it. */
  lemma TrimAround(a: string, v: string, b: string)
    requires Blank(a) && Blank(b) && (v != "" ==> !IsSpace(v[0]) && !IsSpace(v[|v| - 1]))
    ensures Trim(a + v + b) == v
  {
    hide Trim, IsSpace, Blank;
    BlankIsSpace(a);
    BlankIsSpace(b);
    var s := a + v + b;
    forall k | 0 <= k < |a| || |a| + |v| <= k < |s| ensures IsSpace(s[k]) {
      assert k < |a| ==> s[k] == a[k] && a[k] in a;
      assert k >= |a| ==> s[k] == b[k - |a| - |v|] && b[k - |a| - |v|] in b;
    }
    if v == "" {
      TrimIs(s, |s|, |s|);
    } else {
      assert s[|a|] == v[0] && s[|a| + |v| - 1] == v[|v| - 1];
      TrimIs(s, |a|, |a| + |v|);
    }
  }

  /** A line with white space anywhere around its key and its value. */
  function Padded(a: string, key: string, b: string, c: string, v: string, d: string): string {
    a + key + b + "=" + (c + v + d)
  }

  predicate PaddingOk(a: string, b: string, c: string, d: string) {
    && Blank(a) && Blank(b) && Blank(c) && Blank(d)
    && '\n' !in a && '\n' !in b && '\n' !in c && '\n' !in d && (a != "" ==> a[0] != '\r')
  }

  /** It assigns its key and value like the bare line, whether it ends the file or not. */
  lemma PaddedEntry(a: string, key: string, b: string, c: string, v: string, d: string, end: string)
    requires KeyOk(key) && ValueOk(v) && PaddingOk(a, b, c, d) && (end == "" || end == "\n")
    ensures Padded(a, key, b, c, v, d) != "" && Entry(Padded(a, key, b, c, v, d) + end) == Some((key, v))
  {
    hide Trim, Find, IsSpace, Blank;
    var left, right := a + key + b, c + v + (d + end);
    var line := Padded(a, key, b, c, v, d) + end;
    assert line == left + "=" + right;
    PaddingClean(a);
    PaddingClean(b);
    PaddingClean(c);
    PaddingClean(d);
    assert NUL !in line && '=' !in left;
    CStrIs(line, line);
    FindAfter(left, "=", right);
    assert line[..|left|] == left && line[|left| + 1..] == right;
    BlankEnd(d, end);
    TrimAround(a, key, b);
    TrimAround(c, v, d + end);
    assert left[0] == if a != "" then a[0] else key[0];
    assert a != "" ==> a[0] in a;
    assert key[0] in key;
    KeyStart(key);
  }

  lemma KeyStart(key: string)
    requires KeyOk(key)
    ensures key[0] != '\r' && key[0] != '\n' && key[0] != '#'
  {
  }

  lemma PaddingClean(a: string)
    requires Blank(a)
    ensures NUL !in a && '=' !in a && '#' !in a
  {
  }

  lemma BlankEnd(d: string, end: string)
    requires Blank(d) && (end == "" || end == "\n")
    ensures Blank(d + end)
  {
  }

  /** Loading a padded line and then the rest. */
  lemma LoadPaddedLine(a: string, key: string, b: string, c: string, v: string, d: string, rest: string,
                       before: Settings)
    requires KeyOk(key) && ValueOk(v) && PaddingOk(a, b, c, d)
    requires |a| + |key| + |b| + |c| + |v| + |d| + 2 <= 255
    ensures Load(Padded(a, key, b, c, v, d) + "\n" + rest, before) == Load(rest, Assign(key, v, before))
    ensures Load(Padded(a, key, b, c, v, d), before) == Assign(key, v, before)
  {
    hide Entry, Assign, Blank, Trim, LineLen, IsSpace;
    var bare := Padded(a, key, b, c, v, d);
    var line := bare + "\n";
    assert '\n' !in bare;
    LineLenOne(line, rest, LINE_SIZE - 1);
    assert (line + rest)[..|line|] == line && (line + rest)[|line|..] == rest;
    PaddedEntry(a, key, b, c, v, d, "\n");
    PaddedEntry(a, key, b, c, v, d, "");
    assert bare + "" == bare;
    SingleLine(bare);
  }

  /** Exactly these lines change nothing: comments, empty lines, and those without `=`. */
  lemma SkippedIff(line: string)
    requires line != ""
    ensures Entry(line) == None <==> line[0] == '#' || line[0] == '\n' || line[0] == '\r' || '=' !in CStr(line)
  {
    hide Trim;
    var l := CStr(line);
    if '=' in l {
      var i :| 0 <= i < |l| && l[i] == '=';
      assert l[i..i + 1] == "=";
      assert OccursAt(l, "=", i);
    } else {
      forall i: nat ensures !OccursAt(l, "=", i) {
        OccursByte(l, "=", i, 0);
      }
    }
  }

  /** So loading goes on behind such a line as if it were not there. */
  lemma LoadSkips(line: string, rest: string, c: Settings)
    requires line != "" && |line| < LINE_SIZE - 1 && '\n' !in line
    requires line[0] == '#' || line[0] == '\r' || '=' !in CStr(line + "\n")
    ensures Load(line + "\n" + rest, c) == Load(rest, c)
  {
    hide Entry, LineLen;
    var whole := line + "\n";
    LineLenOne(whole, rest, LINE_SIZE - 1);
    SkippedIff(whole);
    assert (whole + rest)[..|whole|] == whole && (whole + rest)[|whole|..] == rest;
  }

  /** The seven keys. */
  lemma SevenKeys(v: string, c: Settings)
    ensures Assign("port", v, c) == c.(port := Atoi(v)) && Assign("use_cache", v, c) == c.(useCache := Atoi(v))
    ensures Assign("public_dir", v, c) == c.(publicDir := Cut(255, v))
    ensures Assign("ssl_cert_path", v, c) == Assign("ssl_cert_file", v, c) == c.(certPath := Cut(255, v))
    ensures Assign("ssl_key_path", v, c) == Assign("ssl_key_file", v, c) == c.(keyPath := Cut(255, v))
  {
    hide Atoi;
  }

  function Line(key: string, v: string): string {
    key + "=" + v + "\n"
  }

  function Print(c: Settings): string {
    Line("port", DecInt(c.port)) +
    (Line("public_dir", c.publicDir) +
     (Line("use_cache", DecInt(c.useCache)) +
      (Line("ssl_cert_path", c.certPath) +
       Line("ssl_key_path", c.keyPath))))
  }

  predicate SettingsOk(c: Settings) {
    && -0x8000_0000 <= c.port < 0x8000_0000 && -0x8000_0000 <= c.useCache < 0x8000_0000
    && ValueOk(c.publicDir) && |Line("public_dir", c.publicDir)| < LINE_SIZE
    && ValueOk(c.certPath) && |Line("ssl_cert_path", c.certPath)| < LINE_SIZE
    && ValueOk(c.keyPath) && |Line("ssl_key_path", c.keyPath)| < LINE_SIZE
  }

  lemma NumberOk(n: int)
    requires -0x8000_0000 <= n < 0x8000_0000
    ensures ValueOk(DecInt(n)) && |DecInt(n)| <= 21
  {
    var s := DecInt(n);
    assert s[0] in s && s[|s| - 1] in s;
    DecSizeT(if n < 0 then -n else n);
  }

  /** Printing a configuration and loading it gives it back, whatever was configured before. */
  lemma PrintLoad(c: Settings, before: Settings)
    requires SettingsOk(c)
    ensures Load(Print(c), before) == c
  {
    NumberOk(c.port);
    NumberOk(c.useCache);
    AtoiDec(c.port);
    AtoiDec(c.useCache);
    KeysOk();
    var r5 := Line("ssl_key_path", c.keyPath);
    var r4 := Line("ssl_cert_path", c.certPath) + r5;
    var r3 := Line("use_cache", DecInt(c.useCache)) + r4;
    var r2 := Line("public_dir", c.publicDir) + r3;
    var c1 := before.(port := c.port);
    var c2 := c1.(publicDir := c.publicDir);
    var c3 := c2.(useCache := c.useCache);
    var c4 := c3.(certPath := c.certPath);
    LoadPrintedLine("port", DecInt(c.port), r2, before);
    LoadPrintedLine("public_dir", c.publicDir, r3, c1);
    LoadPrintedLine("use_cache", DecInt(c.useCache), r4, c2);
    LoadPrintedLine("ssl_cert_path", c.certPath, r5, c3);
    LoadPrintedLine("ssl_key_path", c.keyPath, "", c4);
    assert r5 + "" == r5;
  }

  lemma KeysOk()
    ensures KeyOk("port") && KeyOk("public_dir") && KeyOk("use_cache")
    ensures KeyOk("ssl_cert_path") && KeyOk("ssl_key_path")
  {
    hide KeyOk;
    ShortKeysOk();
    PathKeysOk();
  }

  lemma ShortKeysOk()
    ensures KeyOk("port") && KeyOk("public_dir") && KeyOk("use_cache")
  {
  }

  lemma PathKeysOk()
    ensures KeyOk("ssl_cert_path") && KeyOk("ssl_key_path")
  {
  }
}
