/** Small shared vocabulary: optional values, rounding and integer extrema. */
module Basics {

  datatype Option<+T> = None | Some(value: T)

  function Max(a: int, b: int): (m: int)
    ensures m >= a && m >= b && (m == a || m == b)
  {
    if a < b then b else a
  }

  function Min(a: int, b: int): (m: int)
    ensures m <= a && m <= b && (m == a || m == b)
  {
    if a < b then a else b
  }

  /** Round half up, which is what qRound, qRound64 and Math.round do on non-negative input. */
  function Round(x: real): (n: int)
    ensures n as real - 0.5 <= x < n as real + 0.5
  {
    (x + 0.5).Floor
  }

  /** Conversion of a double to an integer: towards zero. */
  function Truncate(x: real): (n: int) {
    if x >= 0.0 then x.Floor else -((-x).Floor)
  }

  predicate StartsWith(s: string, prefix: string) {
    |prefix| <= |s| && s[..|prefix|] == prefix
  }

  predicate EndsWith(s: string, suffix: string) {
    |suffix| <= |s| && s[|s| - |suffix|..] == suffix
  }

  lemma {:induction false} StartsExactly(s: string, prefix: string)
    ensures StartsWith(s, prefix) <==> exists rest: string :: s == prefix + rest
  {
    if StartsWith(s, prefix) {
      assert s == prefix + s[|prefix|..];
    }
    if rest: string :| s == prefix + rest {
      assert (prefix + rest)[..|prefix|] == prefix;
    }
  }

  /** The last element of p, found in a permutation of p, can be taken out of both. */
  lemma {:induction false} TakeOut<T>(p: seq<T>, q: seq<T>) returns (i: nat)
    requires p != [] && multiset(p) == multiset(q)
    ensures i < |q| && q[i] == p[|p| - 1]
    ensures multiset(p[..|p| - 1]) == multiset(q[..i] + q[i + 1..])
  {
    var n := |p| - 1;
    assert p == p[..n] + [p[n]];
    assert p[n] in multiset(q);
    i :| 0 <= i < |q| && q[i] == p[n];
    assert q == q[..i] + [q[i]] + q[i + 1..];
    var rest := q[..i] + q[i + 1..];
    assert multiset(p) == multiset(p[..n]) + multiset{p[n]};
    assert multiset(q) == multiset(q[..i]) + multiset{q[i]} + multiset(q[i + 1..]);
    assert multiset(rest) == multiset(q[..i]) + multiset(q[i + 1..]);
    assert multiset(rest) == multiset(q) - multiset{q[i]};
    assert multiset(p[..n]) == multiset(p) - multiset{p[n]};
  }

  lemma {:induction false} SameMap<K, V>(a: map<K, V>, b: map<K, V>)
    requires forall k :: k in a <==> k in b
    requires forall k :: k in a ==> k in b && a[k] == b[k]
    ensures a == b
  {
  }

  /** Moving one element from what is left to what is done. */
  lemma {:induction false} OneDone<T>(all: set<T>, todo: set<T>, done: set<T>, x: T)
    requires x in todo && x !in done && done + todo == all
    ensures done + {x} + (todo - {x}) == all && |todo - {x}| < |todo|
  {
  }

  lemma {:induction false} TwiceCounts<T>(s: seq<T>, i: nat, j: nat)
    requires i < j < |s|
    ensures s[i] == s[j] ==> multiset(s)[s[i]] >= 2
  {
    assert s == s[..j] + [s[j]] + s[j + 1..];
    assert s[..j][i] == s[i];
    assert s[i] in multiset(s[..j]);
  }
}
