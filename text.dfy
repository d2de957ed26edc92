/** The string tests and edits the log reader applies to raw log lines:
    Python's `s.startswith(p)`, `sub in s`, `s[n:]` and `s.replace(c, "")`
    for a one-character `c`. */
module Text {

  /** `s.startswith(p)`, compared character by character. */
  function StartsWith(s: string, p: string): bool
    decreases |s|
  {
    p == [] || (s != [] && s[0] == p[0] && StartsWith(s[1..], p[1..]))
  }

  /** `StartsWith` is the prefix relation. */
  lemma {:induction false} StartsWithIsPrefix(s: string, p: string)
    ensures StartsWith(s, p) <==> p <= s
    decreases |p|
  {
    if p != [] && s != [] {
      StartsWithIsPrefix(s[1..], p[1..]);
      assert p[0] == s[0] && p[1..] <= s[1..] ==> p <= s by {
        if p[0] == s[0] && p[1..] <= s[1..] {
          assert p == [p[0]] + p[1..];
          assert s == [s[0]] + s[1..];
        }
      }
    }
  }

  /** `sub` occurs somewhere in `s`: the reference meaning of `sub in s`. */
  ghost predicate Occurs(sub: string, s: string)
  {
    exists i :: 0 <= i <= |s| && sub <= s[i..]
  }

  /** `sub in s`, decided by trying each starting position in turn. */
  function Contains(s: string, sub: string): bool
    decreases |s|
  {
    if StartsWith(s, sub) then true
    else if s == [] then false
    else Contains(s[1..], sub)
  }

  lemma {:induction false} ContainsIffOccurs(s: string, sub: string)
    ensures Contains(s, sub) <==> Occurs(sub, s)
    decreases |s|
  {
    StartsWithIsPrefix(s, sub);
    if sub <= s {
      assert s[0..] == s;
    } else if s == [] {
    } else {
      ContainsIffOccurs(s[1..], sub);
      if Occurs(sub, s[1..]) {
        var i :| 0 <= i <= |s[1..]| && sub <= s[1..][i..];
        assert s[1..][i..] == s[i + 1..];
      }
      if Occurs(sub, s) {
        var i :| 0 <= i <= |s| && sub <= s[i..];
        assert i != 0 by { assert s[0..] == s; }
        assert s[1..][i - 1..] == s[i..];
      }
    }
  }

  /** `s[n:]`: Python slicing past the end yields the empty string. */
  function Suffix(s: string, n: nat): (r: string)
    ensures n <= |s| ==> s == s[..n] + r
    ensures |r| == if n <= |s| then |s| - n else 0
  {
    if n <= |s| then s[n..] else []
  }

  /** `s.replace(c, "")`: every occurrence of `c` removed, wherever it is. */
  function RemoveAll(s: string, c: char): string
    decreases |s|
  {
    if s == [] then []
    else (if s[0] == c then [] else [s[0]]) + RemoveAll(s[1..], c)
  }

  /** Removal works piecewise, so it keeps the order of the other
      characters: together with the two cases for a single character this
      determines the result. */
  lemma {:induction false} RemoveAllAppend(a: string, b: string, c: char)
    ensures RemoveAll(a + b, c) == RemoveAll(a, c) + RemoveAll(b, c)
    decreases |a|
  {
    if a != [] {
      assert (a + b)[0] == a[0];
      assert (a + b)[1..] == a[1..] + b;
      RemoveAllAppend(a[1..], b, c);
    } else {
      assert a + b == b;
    }
  }

  /** No `c` is left, and every other character keeps its count. */
  lemma {:induction false} RemoveAllRemoves(s: string, c: char)
    ensures c !in RemoveAll(s, c)
    ensures forall x :: x != c ==> multiset(RemoveAll(s, c))[x] == multiset(s)[x]
    decreases |s|
  {
    if s != [] {
      RemoveAllRemoves(s[1..], c);
      assert s == [s[0]] + s[1..];
      assert multiset(s) == multiset([s[0]]) + multiset(s[1..]);
    }
  }
}
