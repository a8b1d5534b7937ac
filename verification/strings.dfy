/** The handful of `str` operations the parser and the log format rely on. */
module Strings {
  import opened Wrappers

  /** `str::find` with a character pattern: the position of the first `c`. */
  function Find(s: string, c: char): (r: Option<nat>)
    ensures r.None? <==> c !in s
    ensures r.Some? ==> r.value < |s| && s[r.value] == c && c !in s[..r.value]
    decreases |s|
  {
    if |s| == 0 then None
    else if s[0] == c then Some(0)
    else match Find(s[1..], c)
      case None => None
      case Some(i) =>
        assert s[..i + 1] == [s[0]] + s[1..][..i];
        Some(i + 1)
  }

  /** Glues parts back together with `c` between neighbours; the inverse of `Split`. */
  function Join(parts: seq<string>, c: char): string
    requires |parts| >= 1
    decreases |parts|
  {
    if |parts| == 1 then parts[0] else parts[0] + [c] + Join(parts[1..], c)
  }

  /** `str::split` with a character pattern, collected: the maximal `c`-free runs of `s`. */
  function Split(s: string, c: char): (parts: seq<string>)
    ensures |parts| >= 1
    ensures Join(parts, c) == s
    ensures forall i :: 0 <= i < |parts| ==> c !in parts[i]
    decreases |s|
  {
    match Find(s, c)
    case None => [s]
    case Some(i) =>
      var rest := Split(s[i + 1..], c);
      assert ([s[..i]] + rest)[1..] == rest;
      [s[..i]] + rest
  }

  /** Splitting a text that starts with a `c`-free run and a `c` peels that run off. */
  lemma SplitPeel(a: string, c: char, b: string)
    requires c !in a
    ensures Split(a + [c] + b, c) == [a] + Split(b, c)
  {
    var s := a + [c] + b;
    assert s[|a|] == c;
    assert s[..|a|] == a;
    assert s[|a| + 1..] == b;
  }

  /** The first part of a split ends at the first `c` (or at the end of the text). */
  lemma SplitHead(a: string, c: char, rest: string)
    requires c !in a
    requires rest == [] || rest[0] == c
    ensures Split(a + rest, c)[0] == a
  {
    if rest == [] {
      assert a + rest == a;
    } else {
      assert a + rest == a + [c] + rest[1..];
      SplitPeel(a, c, rest[1..]);
    }
  }

  /** A text with at least two parts is its first two parts around a `c`, then nothing or `c` and more. */
  lemma SplitFirstTwo(s: string, c: char) returns (rest: string)
    requires |Split(s, c)| >= 2
    ensures s == Split(s, c)[0] + [c] + Split(s, c)[1] + rest
    ensures rest == [] || rest[0] == c
  {
    var parts := Split(s, c);
    var tail := Join(parts[1..], c);
    assert s == parts[0] + [c] + tail;
    if |parts| == 2 {
      rest := [];
      assert tail == parts[1] + rest by {
        assert parts[1..] == [parts[1]];
      }
    } else {
      rest := [c] + Join(parts[2..], c);
      assert tail == parts[1] + rest by {
        assert parts[1..][0] == parts[1] && parts[1..][1..] == parts[2..];
      }
    }
    Regroup(s, parts[0], c, tail, [], parts[1], rest);
    assert s == parts[0] + [c] + parts[1] + rest + [];
  }

  /** Re-associates a text whose middle part is itself two parts. */
  lemma Regroup(s: string, a: string, c: char, t: string, rest: string, b: string, m: string)
    requires s == a + [c] + t + rest && t == b + m
    ensures s == a + [c] + b + m + rest
  {
  }

  /** Splitting undoes joining, for parts that do not contain the separator. */
  lemma {:induction false} SplitJoin(parts: seq<string>, c: char)
    requires |parts| >= 1
    requires forall i :: 0 <= i < |parts| ==> c !in parts[i]
    ensures Split(Join(parts, c), c) == parts
    decreases |parts|
  {
    if |parts| == 1 {
      assert Find(parts[0], c).None?;
    } else {
      SplitPeel(parts[0], c, Join(parts[1..], c));
      SplitJoin(parts[1..], c);
    }
  }

  /** `t` occurs in `s` starting at position `i`. */
  predicate OccursAt(s: string, t: string, i: int)
  {
    0 <= i <= |s| - |t| && s[i..i + |t|] == t
  }

  /** `t` occurs in `s` as a contiguous run (`str::find` returns `Some`). */
  predicate Contains(s: string, t: string)
  {
    exists i | 0 <= i <= |s| :: OccursAt(s, t, i)
  }

  /** An occurrence inside an occurrence is an occurrence. */
  lemma OccursWithin(s: string, t: string, i: int, u: string, j: int)
    requires OccursAt(s, t, i) && OccursAt(t, u, j)
    ensures OccursAt(s, u, i + j)
  {
    forall k | 0 <= k < |u|
      ensures s[i + j + k] == u[k]
    {
      assert s[i..i + |t|][j + k] == t[j + k];
      assert t[j..j + |u|][k] == u[k];
    }
    assert s[i + j..i + j + |u|] == u;
  }

  /** Where the three parts of `p + c + q` sit. */
  lemma OccursInThree(p: string, c: string, q: string)
    ensures OccursAt(p + c + q, p, 0)
    ensures OccursAt(p + c + q, c, |p|)
    ensures OccursAt(p + c + q, q, |p| + |c|)
  {
    var s := p + c + q;
    assert s[..|p|] == p;
    assert s[|p|..|p| + |c|] == c;
    assert s[|p| + |c|..] == q;
  }

  /** Every suffix of an occurrence occurs where it starts. */
  lemma OccursSuffix(s: string, t: string, i: int, k: nat)
    requires OccursAt(s, t, i) && k <= |t|
    ensures OccursAt(s, t[k..], i + k)
  {
    assert s[i + k..i + |t|] == s[i..i + |t|][k..];
  }

  /** What follows a prefix of an occurrence occurs right after that prefix. */
  lemma OccursAfter(s: string, p: string, q: string, i: int)
    requires OccursAt(s, p + q, i)
    ensures OccursAt(s, q, i + |p|)
  {
    OccursSuffix(s, p + q, i, |p|);
    assert (p + q)[|p|..] == q;
  }

  /** A part of a concatenation occurs where the parts before it end. */
  lemma OccursInConcat(a: string, t: string, b: string)
    ensures OccursAt(a + t + b, t, |a|)
    ensures Contains(a + t + b, t)
  {
    var s := a + t + b;
    assert s[|a|..|a| + |t|] == t;
    assert OccursAt(s, t, |a|);
  }
}
