/**
 `is_safe_path` and the path that `handle_http_route` joins: what the file system makes of it.
 Dot segments are resolved as in section 5.2.4 of RFC 3986, from the current directory when the
 path is relative; there are no symbolic links.
 */
module Paths {
  import opened Wrappers
  import opened CStrings

  predicate IsSafePath(path: string) {
    Find(path, "..", 0) == None
  }

  /** The suffix that the router appends to the public directory. */
  function Suffix(path: string): string {
    if path == "/" then "/index.html" else path
  }

  function Join(dir: string, path: string): string {
    dir + Suffix(path)
  }

  // ---------- Segments ----------

  /** The pieces between slashes. */
  function Split(s: string): (segs: seq<string>)
    ensures segs != []
    ensures s != "" && s[0] == '/' ==> segs[0] == "" && |segs| > 1
  {
    if s == "" then [""]
    else
      var rest := Split(s[1..]);
      if s[0] == '/' then [""] + rest else [[s[0]] + rest[0]] + rest[1..]
  }

  function Last<T>(s: seq<T>): T
    requires s != []
  {
    s[|s| - 1]
  }

  function Front<T>(s: seq<T>): seq<T>
    requires s != []
  {
    s[..|s| - 1]
  }

  /** One segment, seen from directory `at`: `..` goes up, `.` and the empty one stay. */
  function Enter(at: seq<string>, seg: string): seq<string> {
    if seg == "" || seg == "." then at
    else if seg == ".." then (if at == [] then [] else Front(at))
    else at + [seg]
  }

  function Walk(at: seq<string>, segs: seq<string>): seq<string>
    decreases |segs|
  {
    if segs == [] then at else Walk(Enter(at, segs[0]), segs[1..])
  }

  /** The file or directory that a path names when the process runs in `cwd`. */
  function Resolve(cwd: seq<string>, path: string): seq<string> {
    Walk(if path != "" && path[0] == '/' then [] else cwd, Split(path))
  }

  /** What the router opens for the path stays inside the directory. */
  predicate Contained(cwd: seq<string>, dir: string, path: string) {
    Resolve(cwd, dir) <= Resolve(cwd, Join(dir, path))
  }

  // ---------- Splitting a concatenation ----------

  /** The segments of two texts, run together. */
  function Glue(x: seq<string>, y: seq<string>): (g: seq<string>)
    requires x != [] && y != []
    ensures g != []
  {
    Front(x) + [Last(x) + y[0]] + y[1..]
  }

  lemma GlueSlash(x: seq<string>, y: seq<string>)
    requires x != [] && y != []
    ensures Glue([""] + x, y) == [""] + Glue(x, y)
  {
  }

  lemma GlueByte(c: char, x: seq<string>, y: seq<string>)
    requires x != [] && y != []
    ensures Glue([[c] + x[0]] + x[1..], y) == [[c] + Glue(x, y)[0]] + Glue(x, y)[1..]
  {
    if |x| == 1 {
      assert ([c] + x[0]) + y[0] == [c] + (x[0] + y[0]);
    }
  }

  lemma {:induction false} SplitAppend(a: string, b: string)
    ensures Split(a + b) == Glue(Split(a), Split(b))
  {
    if a == "" {
      assert a + b == b;
      assert "" + Split(b)[0] == Split(b)[0];
    } else {
      assert (a + b)[1..] == a[1..] + b;
      SplitAppend(a[1..], b);
      if a[0] == '/' {
        GlueSlash(Split(a[1..]), Split(b));
      } else {
        GlueByte(a[0], Split(a[1..]), Split(b));
      }
    }
  }

  lemma {:induction false} WalkAppend(at: seq<string>, x: seq<string>, y: seq<string>)
    ensures Walk(at, x + y) == Walk(Walk(at, x), y)
    decreases |x|
  {
    if x == [] {
      assert x + y == y;
    } else {
      assert (x + y)[1..] == x[1..] + y;
      WalkAppend(Enter(at, x[0]), x[1..], y);
    }
  }

  // ---------- The filter ----------

  /** A segment `..` is an occurrence of the substring. */
  lemma {:induction false} DotDotSegment(s: string, k: nat) returns (i: nat)
    requires k < |Split(s)| && Split(s)[k] == ".."
    ensures OccursAt(s, "..", i)
    ensures k == 0 ==> i == 0
  {
    if s[0] == '/' {
      i := DotDotSegment(s[1..], k - 1);
      i := i + 1;
      assert s[1..][i - 1..i + 1] == s[i..i + 2];
    } else if k > 0 {
      i := DotDotSegment(s[1..], k);
      i := i + 1;
      assert s[1..][i - 1..i + 1] == s[i..i + 2];
    } else {
      FirstSegment(s[1..]);
      i := 0;
      assert ([s[0]] + Split(s[1..])[0])[0] == '.' && ([s[0]] + Split(s[1..])[0])[1] == '.';
      assert s[0..0 + 2] == "..";
    }
  }

  /** The first segment is a prefix of the text. */
  lemma {:induction false} FirstSegment(s: string)
    ensures Split(s)[0] <= s
  {
    if s != "" && s[0] != '/' {
      FirstSegment(s[1..]);
    }
  }

  /** What the filter guarantees: no segment of an accepted path goes up. */
  lemma SafePathNeverGoesUp(path: string)
    requires IsSafePath(path)
    ensures ".." !in Split(path)
  {
    if ".." in Split(path) {
      var k :| 0 <= k < |Split(path)| && Split(path)[k] == "..";
      var i := DotDotSegment(path, k);
    }
  }

  /** The segments that name something: neither empty nor `.`. */
  function Names(segs: seq<string>): seq<string> {
    if segs == [] then []
    else (if segs[0] == "" || segs[0] == "." then [] else [segs[0]]) + Names(segs[1..])
  }

  /** Without a segment that goes up, a walk appends the names it meets. */
  lemma {:induction false} WalkNames(at: seq<string>, segs: seq<string>)
    requires ".." !in segs
    ensures Walk(at, segs) == at + Names(segs)
    decreases |segs|
  {
    if segs != [] {
      WalkNames(Enter(at, segs[0]), segs[1..]);
      assert at + [segs[0]] + Names(segs[1..]) == at + ([segs[0]] + Names(segs[1..]));
    }
  }

  /** The router's own default page. */
  lemma IndexIsSafe()
    ensures IsSafePath("/index.html")
  {
    var s := "/index.html";
    forall i: nat ensures !OccursAt(s, "..", i) {
      OccursByte(s, "..", i, 0);
      OccursByte(s, "..", i, 1);
    }
  }

  /** The segments that the router appends never go up either. */
  lemma SuffixNeverGoesUp(path: string)
    requires IsSafePath(path)
    ensures ".." !in Split(Suffix(path))
  {
    hide IsSafePath;
    IndexIsSafe();
    SafePathNeverGoesUp(Suffix(path));
  }

  // ---------- Containment ----------

  lemma WalkFront(at: seq<string>, segs: seq<string>)
    requires segs != []
    ensures Walk(at, segs) == Enter(Walk(at, Front(segs)), Last(segs))
  {
    assert segs == Front(segs) + [Last(segs)];
    WalkAppend(at, Front(segs), [Last(segs)]);
    assert [Last(segs)][1..] == [];
  }

  /** Where a named directory's own last segment is looked up. */
  function Parent(cwd: seq<string>, dir: string): seq<string>
    requires dir != ""
  {
    Walk(if dir[0] == '/' then [] else cwd, Front(Split(dir)))
  }

  /** A suffix runs on from the directory's last segment, then appends its names. */
  lemma ResolveAppend(cwd: seq<string>, dir: string, more: string)
    requires dir != "" && ".." !in Split(more)
    ensures Resolve(cwd, dir) == Enter(Parent(cwd, dir), Last(Split(dir)))
    ensures Resolve(cwd, dir + more) ==
            Enter(Parent(cwd, dir), Last(Split(dir)) + Split(more)[0]) + Names(Split(more)[1..])
  {
    hide Split, Walk, Enter, Names;
    var base := if dir[0] == '/' then [] else cwd;
    var joint := Last(Split(dir)) + Split(more)[0];
    WalkFront(base, Split(dir));
    SplitAppend(dir, more);
    WalkAppend(base, Front(Split(dir)) + [joint], Split(more)[1..]);
    WalkFront(base, Front(Split(dir)) + [joint]);
    assert Front(Front(Split(dir)) + [joint]) == Front(Split(dir));
    WalkNames(Walk(base, Front(Split(dir)) + [joint]), Split(more)[1..]);
  }

  /**
   Root containment: a request path that begins with a slash and passes the filter names something
   inside the public directory, from whatever directory the server runs, and never leaves it on the
   way there.
   */
  lemma RootContainment(cwd: seq<string>, dir: string, path: string)
    requires dir != "" && path != "" && path[0] == '/' && IsSafePath(path)
    ensures Contained(cwd, dir, path)
    ensures var segs := Split(Suffix(path))[1..];
            Resolve(cwd, Join(dir, path)) == Walk(Resolve(cwd, dir), segs)
            && forall k :: 0 <= k <= |segs| ==> Resolve(cwd, dir) <= Walk(Resolve(cwd, dir), segs[..k])
  {
    hide Walk, Enter, Names, Resolve, IsSafePath;
    var segs := Split(Suffix(path))[1..];
    SuffixNeverGoesUp(path);
    ResolveAppend(cwd, dir, Suffix(path));
    assert Last(Split(dir)) + "" == Last(Split(dir));
    WalkNames(Resolve(cwd, dir), segs);
    forall k | 0 <= k <= |segs| ensures Resolve(cwd, dir) <= Walk(Resolve(cwd, dir), segs[..k]) {
      WalkNames(Resolve(cwd, dir), segs[..k]);
    }
  }

  /**
   When an accepted path stays inside, by the way the directory is written.  A directory whose last
   segment is a name needs a leading slash; one that ends in a slash or in `..` needs nothing; after
   `.` a first segment `.` makes a `..` that the filter has not seen, which leaves the directory
   unless the path names it again; and an empty directory is no root, so that only a relative path
   or the working directory's own absolute name stays.
   */
  predicate StaysInside(cwd: seq<string>, dir: string, path: string) {
    var segs := Split(Suffix(path));
    if dir == "" then path == "" || path[0] != '/' || cwd <= Names(segs)
    else
      var last, here := Last(Split(dir)), Resolve(cwd, dir);
      if last == "" || last == ".." then true
      else if last == "." then
        segs[0] == "." && here != [] ==> Names(segs[1..]) != [] && Names(segs[1..])[0] == Last(here)
      else path == "" || path[0] == '/'
  }

  /** A longer last segment. */
  lemma JointSegment(last: string, first: string)
    ensures last + "" == last
    ensures first != "" && last != "" ==> last + first != last && last + first != "" && last + first != "."
    ensures first != "" && last != "" ==> (last + first == ".." <==> last == "." && first == ".")
    ensures "" + first == first
  {
    assert (last + first)[..|last|] == last && (last + first)[|last|..] == first;
    assert ".."[..1] == "." && ".."[1..] == ".";
  }

  lemma FirstSegmentEmpty(s: string)
    ensures Split(s)[0] == "" <==> s == "" || s[0] == '/'
  {
  }

  /** How the directory's last segment decides, whatever its parent is. */
  lemma EnterJoint(up: seq<string>, last: string, first: string, names: seq<string>)
    requires first != ".."
    ensures Enter(up, last) <= Enter(up, last + first) + names <==>
            if last == "" || last == ".." then true
            else if last == "." then first == "." && up != [] ==> names != [] && names[0] == Last(up)
            else first == ""
  {
    JointSegment(last, first);
    var there := Enter(up, last + first) + names;
    if last == "." && first == "." && up != [] {
      assert there == Front(up) + names;
      if names != [] && names[0] == Last(up) {
        assert there[..|up|] == up;
      } else if up <= there {
        assert there[|up| - 1] == Last(up);
      }
    } else if last != "" && last != ".." && last != "." && first != "" {
      assert there[|up|] == last + first;
      assert (up + [last])[|up|] == last;
    }
  }

  /**
   The filter alone is not enough: for every directory, the accepted paths that stay inside are
   exactly those of `StaysInside`.
   */
  lemma ContainmentIff(cwd: seq<string>, dir: string, path: string)
    requires IsSafePath(path)
    ensures Contained(cwd, dir, path) <==> StaysInside(cwd, dir, path)
  {
    hide Split, Walk, Enter, IsSafePath;
    var more := Suffix(path);
    SuffixNeverGoesUp(path);
    FirstSegmentEmpty(more);
    if dir == "" {
      NoDirectory(cwd, more);
    } else {
      ResolveAppend(cwd, dir, more);
      var last := Last(Split(dir));
      EnterJoint(Parent(cwd, dir), last, Split(more)[0], Names(Split(more)[1..]));
      DotStays(Parent(cwd, dir));
    }
  }

  lemma DotStays(at: seq<string>)
    ensures Enter(at, ".") == at
  {
  }

  lemma NoDirectory(cwd: seq<string>, more: string)
    requires ".." !in Split(more)
    ensures Resolve(cwd, "") == cwd && "" + more == more
    ensures Resolve(cwd, more) == (if more != "" && more[0] == '/' then [] else cwd) + Names(Split(more))
  {
    hide Names;
    assert Split("") == [""] && [""][1..] == [];
    WalkNames(if more != "" && more[0] == '/' then [] else cwd, Split(more));
  }

  /** A public directory `.`: the accepted path `./x` opens `../x`, next to the directory. */
  lemma DotDirectoryEscapes(cwd: seq<string>)
    requires cwd != [] && Last(cwd) != "x"
    ensures IsSafePath("./x") && Join(".", "./x") == "../x" && !Contained(cwd, ".", "./x")
  {
    hide Contained;
    forall i: nat ensures !OccursAt("./x", "..", i) {
      OccursByte("./x", "..", i, 0);
      OccursByte("./x", "..", i, 1);
    }
    ContainmentIff(cwd, ".", "./x");
    DotSegments();
    ResolveDot(cwd);
  }

  lemma ResolveDot(cwd: seq<string>)
    ensures Resolve(cwd, ".") == cwd
  {
    DotSegments();
    assert ["."][1..] == [];
  }

  lemma DotSegments()
    ensures Split(".") == ["."] && Split("./x") == [".", "x"] && Names(["x"]) == ["x"]
  {
    OneSegment(".");
    OneSegment("x");
    assert "./x"[1..] == "/x" && "/x"[1..] == "x";
    assert Split("/x") == ["", "x"] && ["", "x"][1..] == ["x"] && ["x"][1..] == [];
    assert ['.'] + "" == ".";
  }

  /** An empty public directory: `/` opens `/index.html`, at the root of the file system. */
  lemma EmptyRootEscapes(cwd: seq<string>)
    requires cwd != [] && cwd[0] != "index.html"
    ensures Join("", "/") == "/index.html" && !Contained(cwd, "", "/")
  {
    hide Contained;
    SlashIsSafe();
    ContainmentIff(cwd, "", "/");
    IndexSegments();
  }

  lemma SlashIsSafe()
    ensures IsSafePath("/")
  {
  }

  lemma IndexSegments()
    ensures Names(Split("/index.html")) == ["index.html"]
  {
    OneSegment("index.html");
    assert "/index.html"[1..] == "index.html";
    assert ["", "index.html"][1..] == ["index.html"] && ["index.html"][1..] == [];
  }

  lemma {:induction false} OneSegment(s: string)
    requires '/' !in s
    ensures Split(s) == [s]
  {
    if s != "" {
      OneSegment(s[1..]);
      assert [s[0]] + s[1..] == s;
    }
  }
}
