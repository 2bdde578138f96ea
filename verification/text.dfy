/**
 String operations the file listing is built from: Python's `str.replace`
 (all occurrences, and with a count of one) and `os.path.join` on POSIX.
 */
module Text {

  /** A single path component as `os.walk` reports it: non-empty, no separator. */
  predicate IsName(s: string) {
    |s| > 0 && '/' !in s
  }

  /** `pat` occurs in `s` starting at index `i`. */
  predicate OccursAt(s: string, pat: string, i: int) {
    0 <= i && i + |pat| <= |s| && s[i..i + |pat|] == pat
  }

  ghost predicate Contains(s: string, pat: string) {
    exists i :: OccursAt(s, pat, i)
  }

  lemma ContainsTail(s: string, pat: string)
    requires |s| > 0
    ensures Contains(s[1..], pat) ==> Contains(s, pat)
  {
    if Contains(s[1..], pat) {
      var i :| OccursAt(s[1..], pat, i);
      assert s[1..][i..i + |pat|] == s[i + 1..i + 1 + |pat|];
      assert OccursAt(s, pat, i + 1);
    }
  }

  /**
   `s.replace(pat, repl)`: every non-overlapping occurrence of `pat`, scanning
   from the left, is replaced by `repl`. A string that does not contain `pat`
   comes back unchanged.
   */
  function Replace(s: string, pat: string, repl: string): (r: string)
    requires |pat| > 0
    ensures !Contains(s, pat) ==> r == s
    decreases |s|
  {
    if |s| < |pat| then s
    else if s[..|pat|] == pat then
      assert OccursAt(s, pat, 0);
      repl + Replace(s[|pat|..], pat, repl)
    else
      ContainsTail(s, pat);
      [s[0]] + Replace(s[1..], pat, repl)
  }

  /**
   `s.replace(pat, repl, 1)`: only the leftmost occurrence is replaced. A string
   that does not contain `pat` comes back unchanged.
   */
  function ReplaceFirst(s: string, pat: string, repl: string): (r: string)
    requires |pat| > 0
    ensures !Contains(s, pat) ==> r == s
    decreases |s|
  {
    if |s| < |pat| then s
    else if s[..|pat|] == pat then
      assert OccursAt(s, pat, 0);
      repl + s[|pat|..]
    else
      ContainsTail(s, pat);
      [s[0]] + ReplaceFirst(s[1..], pat, repl)
  }

  /** Stepping past the first character moves every occurrence one place left. */
  lemma OccursAtTail(s: string, pat: string, j: int)
    requires |s| > 0
    ensures OccursAt(s[1..], pat, j) <==> 0 <= j && OccursAt(s, pat, j + 1)
  {
    if 0 <= j && j + |pat| <= |s| - 1 {
      assert s[1..][j..j + |pat|] == s[j + 1..j + 1 + |pat|];
    }
  }

  /** The leftmost occurrence at `i > 0` is the leftmost occurrence at `i - 1` of the tail. */
  lemma LeftmostInTail(s: string, pat: string, i: nat)
    requires 0 < i && OccursAt(s, pat, i)
    requires forall j :: 0 <= j < i ==> !OccursAt(s, pat, j)
    ensures |s| > |pat| && s[..|pat|] != pat
    ensures OccursAt(s[1..], pat, i - 1)
    ensures forall j :: 0 <= j < i - 1 ==> !OccursAt(s[1..], pat, j)
  {
    assert !OccursAt(s, pat, 0);
    OccursAtTail(s, pat, i - 1);
    forall j | 0 <= j < i - 1
      ensures !OccursAt(s[1..], pat, j)
    {
      OccursAtTail(s, pat, j);
    }
  }

  /** Dropping the first character, then `i - 1 + n` more, drops `i + n`. */
  lemma TailOfTail(s: string, i: nat, n: nat)
    requires 0 < i && i + n <= |s|
    ensures s[1..][i - 1 + n..] == s[i + n..]
  {
  }

  /** Putting back the first character before the kept prefix of the tail. */
  lemma ConsPrefix(s: string, i: nat, mid: string, rest: string)
    requires 0 < i <= |s|
    ensures [s[0]] + (s[1..][..i - 1] + mid + rest) == s[..i] + mid + rest
  {
    assert [s[0]] + s[1..][..i - 1] == s[..i];
  }

  /** Where `pat` starts the string, `str.replace` puts `repl` in its place and goes on after it. */
  lemma ReplaceMatch(s: string, pat: string, repl: string)
    requires |pat| > 0 && OccursAt(s, pat, 0)
    ensures Replace(s, pat, repl) == repl + Replace(s[|pat|..], pat, repl)
  {
    assert s[..|pat|] == pat;
  }

  /** Where `pat` does not start the string, `str.replace` keeps the first character and goes on. */
  lemma ReplaceSkip(s: string, pat: string, repl: string)
    requires 0 < |pat| < |s| && s[..|pat|] != pat
    ensures Replace(s, pat, repl) == [s[0]] + Replace(s[1..], pat, repl)
  {
  }

  /**
   `s.replace(pat, repl)` at the leftmost occurrence `i` of `pat`: the text
   before it is kept, the occurrence becomes `repl`, and the scan goes on
   right after it.
   */
  lemma ReplaceAt(s: string, pat: string, repl: string, i: nat)
    requires |pat| > 0 && OccursAt(s, pat, i)
    requires forall j :: 0 <= j < i ==> !OccursAt(s, pat, j)
    ensures Replace(s, pat, repl) == s[..i] + repl + Replace(s[i + |pat|..], pat, repl)
  {
    ReplaceBefore(s, pat, repl, i, s[i + |pat|..]);
  }

  /** `ReplaceAt` with the text after the occurrence named `after`. */
  lemma {:induction false} ReplaceBefore(s: string, pat: string, repl: string, i: nat, after: string)
    requires |pat| > 0 && OccursAt(s, pat, i) && after == s[i + |pat|..]
    requires forall j :: 0 <= j < i ==> !OccursAt(s, pat, j)
    ensures Replace(s, pat, repl) == s[..i] + repl + Replace(after, pat, repl)
    decreases i
  {
    if i == 0 {
      ReplaceMatch(s, pat, repl);
      assert s[..0] + repl == repl;
    } else {
      LeftmostInTail(s, pat, i);
      TailOfTail(s, i, |pat|);
      ReplaceBefore(s[1..], pat, repl, i - 1, after);
      ReplaceSkip(s, pat, repl);
      ConsPrefix(s, i, repl, Replace(after, pat, repl));
    }
  }

  /**
   `s.replace(pat, repl, 1)` at the leftmost occurrence `i` of `pat`: that
   occurrence becomes `repl` and everything else is kept.
   */
  lemma {:induction false} ReplaceFirstAt(s: string, pat: string, repl: string, i: nat)
    requires |pat| > 0 && OccursAt(s, pat, i)
    requires forall j :: 0 <= j < i ==> !OccursAt(s, pat, j)
    ensures ReplaceFirst(s, pat, repl) == s[..i] + repl + s[i + |pat|..]
    decreases i
  {
    if i == 0 {
      assert s[..|pat|] == pat;
    } else {
      LeftmostInTail(s, pat, i);
      ReplaceFirstAt(s[1..], pat, repl, i - 1);
      TailOfTail(s, i, |pat|);
      ConsPrefix(s, i, repl, s[i + |pat|..]);
    }
  }

  /**
   `os.path.join(a, b)` (posixpath): an absolute `b` discards `a`; otherwise
   `b` is appended to `a`, with a separator unless `a` is empty or already
   ends in one.
   */
  function PathJoin(a: string, b: string): (r: string)
  {
    if |b| > 0 && b[0] == '/' then b
    else if a == [] || a[|a| - 1] == '/' then a + b
    else a + "/" + b
  }

  /**
   The shape of `os.path.join(a, b)`: it ends with `b`; an absolute `b` is
   the whole result; otherwise the result starts with `a`.
   */
  lemma PathJoinShape(a: string, b: string)
    ensures |b| <= |PathJoin(a, b)| && PathJoin(a, b)[|PathJoin(a, b)| - |b|..] == b
    ensures |b| > 0 && b[0] == '/' ==> PathJoin(a, b) == b
    ensures !(|b| > 0 && b[0] == '/') ==> |a| <= |PathJoin(a, b)| && PathJoin(a, b)[..|a|] == a
  {
  }

  /** A name never contains a pattern that has a separator in it. */
  lemma NameAvoids(n: string, pat: string)
    requires IsName(n) && '/' in pat
    ensures !Contains(n, pat)
  {
  }

  /**
   `"/" + n` for a name `n` has its only separator at index 0, so it cannot
   contain a pattern whose separator sits further in.
   */
  lemma SlashNameAvoids(n: string, pat: string, k: nat)
    requires IsName(n) && 0 < k < |pat| && pat[k] == '/'
    ensures !Contains("/" + n, pat)
  {
  }
}
