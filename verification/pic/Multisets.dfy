/** Facts about multisets that the solver does not find by itself. */
module Multisets {

  lemma Cancel<T>(a: multiset<T>, b: multiset<T>, x: multiset<T>)
    requires a + x == b + x
    ensures a == b
  {
    forall e
      ensures a[e] == b[e]
    {
      assert (a + x)[e] == a[e] + x[e] && (b + x)[e] == b[e] + x[e];
    }
  }

  lemma Exchange<T>(a: multiset<T>, b: multiset<T>, c: multiset<T>, d: multiset<T>, rest: multiset<T>)
    requires a + b == c + d
    ensures (a + rest) + b == (c + rest) + d
  {
    calc {
      (a + rest) + b;
      (a + b) + rest;
      (c + d) + rest;
      (c + rest) + d;
    }
  }

  /** If a and b hold the same elements, the last of a is somewhere in b, and the rests hold the same. */
  lemma Match<T>(a: seq<T>, b: seq<T>) returns (i: nat)
    requires a != [] && multiset(a) == multiset(b)
    ensures i < |b| && b[i] == a[|a| - 1] && multiset(a[..|a| - 1]) == multiset(b[..i] + b[i + 1..])
    ensures b == b[..i] + [b[i]] + b[i + 1..]
  {
    assert a[|a| - 1] in multiset(b);
    i :| 0 <= i < |b| && b[i] == a[|a| - 1];
    SameRest(a, b, i);
  }

  /** Taking one occurrence of the last element of a out of both sides. */
  lemma SameRest<T>(a: seq<T>, b: seq<T>, i: nat)
    requires a != [] && multiset(a) == multiset(b) && i < |b| && b[i] == a[|a| - 1]
    ensures multiset(a[..|a| - 1]) == multiset(b[..i] + b[i + 1..])
  {
    assert a == a[..|a| - 1] + [b[i]];
    assert b == b[..i] + [b[i]] + b[i + 1..];
    assert multiset(b) == multiset(b[..i]) + multiset{b[i]} + multiset(b[i + 1..]);
    assert multiset(b) == multiset(b[..i] + b[i + 1..]) + multiset{b[i]};
    Cancel(multiset(a[..|a| - 1]), multiset(b[..i] + b[i + 1..]), multiset{b[i]});
  }
}
