/**
 C strings and the library calls on them.

 A byte is a `char`.  A buffer is an `array<char>` (or its contents, a `seq<char>`), and the
 string it holds runs up to its first NUL.  `strstr`, `strchr` and `strlen` are foreign calls, so
 they appear as functions of the string held by the buffer.
 */
module CStrings {
  import opened Wrappers

  const NUL: char := '\0'

  predicate IsSpace(c: char) {
    c == ' ' || 9 <= c as int <= 13
  }

  /** `strlen`, except that it also stops at the end of the buffer. */
  function StrLen(s: seq<char>): (n: nat)
    ensures n <= |s|
    ensures NUL !in s[..n]
    ensures n < |s| ==> s[n] == NUL
  {
    if s == [] || s[0] == NUL then 0 else 1 + StrLen(s[1..])
  }

  /** The string held by a buffer. */
  function CStr(s: seq<char>): string {
    s[..StrLen(s)]
  }

  /** The buffer holds a NUL, so every pointer scan over it stops inside it. */
  predicate Terminated(s: seq<char>) {
    StrLen(s) < |s|
  }

  lemma StrLenUnique(s: seq<char>, n: nat)
    requires n <= |s| && NUL !in s[..n]
    requires n < |s| ==> s[n] == NUL
    ensures StrLen(s) == n
  {
    var m := StrLen(s);
    assert forall i :: 0 <= i < m ==> s[i] in s[..m];
    assert forall i :: 0 <= i < n ==> s[i] in s[..n];
  }

  lemma CStrIs(s: seq<char>, t: string)
    requires |t| <= |s| && s[..|t|] == t && NUL !in t
    requires |t| < |s| ==> s[|t|] == NUL
    ensures StrLen(s) == |t| && CStr(s) == t
  {
    StrLenUnique(s, |t|);
  }

  /** The copy length of the bounded copies `strncpy(d, s, n); d[n] = 0`. */
  function Cut(n: nat, s: string): (t: string)
    ensures |t| <= n && t <= s
    ensures t == s <==> |s| <= n
  {
    if |s| <= n then s else s[..n]
  }

  /** The string left by `snprintf` in a buffer of `cap` bytes. */
  function Snprintf(cap: nat, s: string): string
    requires 0 < cap
  {
    Cut(cap - 1, s)
  }

  predicate OccursAt(s: string, pat: string, i: nat) {
    i + |pat| <= |s| && s[i..i + |pat|] == pat
  }

  predicate Contains(s: string, pat: string) {
    exists i: nat :: i <= |s| && OccursAt(s, pat, i)
  }

  /** `strstr` from position `from` on (`strchr` when the pattern is one byte): the first occurrence. */
  function Find(s: string, pat: string, from: nat): (r: Option<nat>)
    ensures r.Some? ==> from <= r.value && OccursAt(s, pat, r.value)
    ensures r.Some? ==> forall j: nat :: from <= j < r.value ==> !OccursAt(s, pat, j)
    ensures r.None? ==> forall j: nat :: from <= j ==> !OccursAt(s, pat, j)
    decreases |s| - from
  {
    if |s| < from + |pat| then None
    else if OccursAt(s, pat, from) then Some(from)
    else if |s| == from then None
    else Find(s, pat, from + 1)
  }

  lemma FindIs(s: string, pat: string, from: nat, i: nat)
    requires from <= i && OccursAt(s, pat, i)
    requires forall j: nat :: from <= j < i ==> !OccursAt(s, pat, j)
    ensures Find(s, pat, from) == Some(i)
  {
  }

  lemma OccursByte(s: string, pat: string, j: nat, k: nat)
    requires k < |pat|
    ensures OccursAt(s, pat, j) ==> s[j + k] == pat[k]
  {
    if OccursAt(s, pat, j) {
      assert s[j..j + |pat|][k] == s[j + k];
    }
  }

  /** An answer of `Find`, counted from `n` bytes further left. */
  function Shift(r: Option<nat>, n: nat): Option<nat> {
    match r case None => None case Some(k) => Some(n + k)
  }

  /** Searching past a text in which no match starts. */
  lemma FindShift(x: string, y: string, pat: string)
    requires forall j: nat :: j < |x| ==> !OccursAt(x + y, pat, j)
    ensures Find(x + y, pat, 0) == Shift(Find(y, pat, 0), |x|)
  {
    var s := x + y;
    forall j: nat | |x| <= j ensures OccursAt(s, pat, j) <==> OccursAt(y, pat, j - |x|) {
      if j + |pat| <= |s| {
        assert s[j..j + |pat|] == y[j - |x|..j - |x| + |pat|];
      }
    }
    match Find(y, pat, 0)
    case Some(k) => FindIs(s, pat, 0, |x| + k);
    case None =>
  }

  /** A pattern without the byte `c` never straddles a `c`. */
  lemma OccursPast(x: string, c: char, y: string, pat: string, j: nat)
    requires |pat| > 0 && c !in pat
    ensures OccursAt(x + [c] + y, pat, j) <==>
            OccursAt(x, pat, j) || (|x| < j && OccursAt(y, pat, j - |x| - 1))
  {
    var s := x + [c] + y;
    if j + |pat| <= |x| {
      assert s[j..j + |pat|] == x[j..j + |pat|];
    } else if j <= |x| {
      assert s[|x|] == c;
      if |x| - j < |pat| {
        OccursByte(s, pat, j, |x| - j);
      }
    } else if j + |pat| <= |s| {
      assert s[j..j + |pat|] == y[j - |x| - 1..j - |x| - 1 + |pat|];
    }
  }

  /** Searching past a separator that the pattern does not hold, when the text before it has no match. */
  lemma FindPast(x: string, c: char, y: string, pat: string)
    requires |pat| > 0 && c !in pat
    requires !Contains(x, pat)
    ensures Find(x + [c] + y, pat, 0) == Shift(Find(y, pat, 0), |x| + 1)
  {
    forall j: nat | j < |x| + 1 ensures !OccursAt(x + [c] + y, pat, j) {
      OccursPast(x, c, y, pat, j);
    }
    FindShift(x + [c], y, pat);
  }

  /** Searching for a pattern whose first byte does not occur in the text before it. */
  lemma FindAfter(x: string, pat: string, y: string)
    requires |pat| > 0 && pat[0] !in x
    ensures Find(x + pat + y, pat, 0) == Some(|x|)
  {
    var s := x + pat + y;
    assert s[|x|..|x| + |pat|] == pat;
    forall j: nat | j < |x| ensures !OccursAt(s, pat, j) {
      assert s[j] == x[j];
      OccursByte(s, pat, j, 0);
    }
    FindIs(s, pat, 0, |x|);
  }

  lemma NotContained(x: string, pat: string)
    requires |pat| > 0
    requires pat[0] !in x || |x| < |pat|
    ensures !Contains(x, pat)
  {
    forall j: nat ensures !OccursAt(x, pat, j) {
      OccursByte(x, pat, j, 0);
    }
  }

  /** `strncpy(dst, src, n)`: copy up to `n` bytes and pad with NULs. */
  method StrNCpy(dst: array<char>, src: string, n: nat)
    requires n <= dst.Length
    modifies dst
    ensures forall i :: 0 <= i < n ==> dst[i] == if i < |src| then src[i] else NUL
    ensures forall i :: n <= i < dst.Length ==> dst[i] == old(dst[i])
  {
    forall i | 0 <= i < n {
      dst[i] := if i < |src| then src[i] else NUL;
    }
  }

  /** `strncpy(dst, src, sizeof(dst) - 1); dst[sizeof(dst) - 1] = 0`, the bounded copy used everywhere. */
  method BoundedCopy(dst: array<char>, src: string)
    requires 0 < dst.Length && NUL !in src
    modifies dst
    ensures Terminated(dst[..]) && CStr(dst[..]) == Cut(dst.Length - 1, src)
  {
    StrNCpy(dst, src, dst.Length - 1);
    dst[dst.Length - 1] := NUL;
    CStrIs(dst[..], Cut(dst.Length - 1, src));
  }

  /** `strcat(dst, src)`; the caller must leave room for the NUL. */
  method StrCat(dst: array<char>, src: string)
    requires Terminated(dst[..]) && NUL !in src
    requires |CStr(dst[..])| + |src| + 1 <= dst.Length
    modifies dst
    ensures Terminated(dst[..]) && CStr(dst[..]) == old(CStr(dst[..])) + src
  {
    ghost var was := CStr(dst[..]);
    var n := StrLen(dst[..]);
    forall i | 0 <= i <= |src| {
      dst[n + i] := if i < |src| then src[i] else NUL;
    }
    assert dst[..][..|was + src|] == was + src;
    CStrIs(dst[..], was + src);
  }
}
