/** Pairing off the items of two lists, by position and by multiset. */
module Pairings {
  import HopcroftKarp

  /** `f` rearranges the positions `0 .. n`. */
  ghost predicate Rearranges(f: seq<nat>, n: nat) {
    && |f| == n
    && (forall i :: 0 <= i < n ==> f[i] < n)
    && HopcroftKarp.Distinct(f)
  }

  ghost function Picked<T>(s: seq<T>, f: seq<nat>): (r: seq<T>)
    requires forall i :: 0 <= i < |f| ==> f[i] < |s|
    ensures |r| == |f| && forall i :: 0 <= i < |f| ==> r[i] == s[f[i]]
  {
    seq(|f|, i requires 0 <= i < |f| => s[f[i]])
  }

  ghost function Without<T>(s: seq<T>, j: nat): (r: seq<T>)
    requires j < |s|
    ensures multiset(s) == multiset(r) + multiset{s[j]}
  {
    assert s == s[..j] + [s[j]] + s[j + 1..];
    s[..j] + s[j + 1..]
  }

  lemma RearrangesOnto(f: seq<nat>, n: nat, x: nat) returns (j: nat)
    requires Rearranges(f, n) && x < n
    ensures j < n && f[j] == x
  {
    NoneLeftOut(f, n, x);
    j :| 0 <= j < n && f[j] == x;
  }

  lemma NoneLeftOut(f: seq<nat>, n: nat, x: nat)
    requires Rearranges(f, n) && x < n
    ensures exists i :: 0 <= i < n && f[i] == x
  {
    var all, others := HopcroftKarp.Nodes(n), HopcroftKarp.Nodes(n) - {x};
    assert |others| < |all|;
    if !exists i :: 0 <= i < n && f[i] == x {
      assert HopcroftKarp.InjectiveInto(f, all, others);
      hide HopcroftKarp.InjectiveInto;
      HopcroftKarp.InjectionBoundsSize(f, all, others);
      assert false;
    }
  }

  /** Rearranging a list keeps its multiset. */
  lemma {:induction false} RearrangedMultiset<T>(s: seq<T>, f: seq<nat>)
    requires Rearranges(f, |s|)
    ensures multiset(Picked(s, f)) == multiset(s)
    decreases |s|
  {
    if s != [] {
      var n := |s|;
      var j := RearrangesOnto(f, n, n - 1);
      var g := Without(f, j);
      var rest := s[..n - 1];
      assert s == rest + [s[n - 1]];
      assert Rearranges(g, n - 1) && Picked(s, f)[j] == s[n - 1];
      assert Without(Picked(s, f), j) == Picked(rest, g);
      hide *;
      RearrangedMultiset(rest, g);
    }
  }

  lemma SameRest<T>(a: multiset<T>, b: multiset<T>, x: T)
    requires a + multiset{x} == b + multiset{x}
    ensures a == b
  {
    assert a == (a + multiset{x}) - multiset{x};
    assert b == (b + multiset{x}) - multiset{x};
  }

  /** Lists with the same multiset are rearrangements of one another. */
  lemma {:induction false} SameMultisetRearranges<T>(a: seq<T>, b: seq<T>) returns (p: seq<nat>)
    requires multiset(a) == multiset(b)
    ensures Rearranges(p, |b|) && a == Picked(b, p)
    decreases |a|
  {
    assert |a| == |multiset(a)| && |b| == |multiset(b)|;
    if a == [] {
      p := [];
    } else {
      var n := |a| - 1;
      var x := a[n];
      assert a == a[..n] + [x];
      assert multiset(a) == multiset(a[..n]) + multiset{x};
      assert x in multiset(b);
      var j :| 0 <= j < |b| && b[j] == x;
      SameRest(multiset(a[..n]), multiset(Without(b, j)), x);
      var q := SameMultisetRearranges(a[..n], Without(b, j));
      p := Spread(q, j) + [j];
      SpreadRearranges(q, j, n);
      assert a == Picked(b, p) by {
        forall i | 0 <= i < n
          ensures a[i] == b[p[i]]
        {
          assert a[i] == a[..n][i] == Without(b, j)[q[i]];
        }
      }
    }
  }

  lemma SpreadRearranges(q: seq<nat>, j: nat, n: nat)
    requires Rearranges(q, n) && j <= n
    ensures Rearranges(Spread(q, j) + [j], n + 1)
  {
  }

  /** `q` with the position `j` skipped. */
  ghost function Spread(q: seq<nat>, j: nat): (p: seq<nat>)
    ensures |p| == |q| && forall i :: 0 <= i < |q| ==> p[i] == if q[i] < j then q[i] else q[i] + 1
  {
    seq(|q|, i requires 0 <= i < |q| => if q[i] < j then q[i] else q[i] + 1)
  }

  // ----- pairing two lists off -----

  ghost function Firsts<A, B>(ps: seq<(A, B)>): (r: seq<A>)
    ensures |r| == |ps| && forall i :: 0 <= i < |ps| ==> r[i] == ps[i].0
  {
    seq(|ps|, i requires 0 <= i < |ps| => ps[i].0)
  }

  ghost function Seconds<A, B>(ps: seq<(A, B)>): (r: seq<B>)
    ensures |r| == |ps| && forall i :: 0 <= i < |ps| ==> r[i] == ps[i].1
  {
    seq(|ps|, i requires 0 <= i < |ps| => ps[i].1)
  }

  /** `f` sends each position of `a` to a position of `b` of its own that `ok` allows. */
  ghost predicate PairsUp<A, B>(ok: (A, B) -> bool, a: seq<A>, b: seq<B>, f: seq<nat>) {
    && |a| == |b| && Rearranges(f, |a|)
    && forall i :: 0 <= i < |a| ==> ok(a[i], b[f[i]])
  }

  /** The two lists can be put in bijection so that all partners are allowed. */
  ghost predicate Pairable<A, B>(ok: (A, B) -> bool, a: seq<A>, b: seq<B>) {
    exists f: seq<nat> :: PairsUp(ok, a, b, f)
  }

  /** A list of allowed couples that uses up exactly the two multisets. */
  ghost predicate Couples<A(!new), B(!new)>(ok: (A, B) -> bool, a: multiset<A>, b: multiset<B>, ps: seq<(A, B)>) {
    && multiset(Firsts(ps)) == a && multiset(Seconds(ps)) == b
    && forall i :: 0 <= i < |ps| ==> ok(ps[i].0, ps[i].1)
  }

  lemma PairsUpGivesCouples<A(!new), B(!new)>(ok: (A, B) -> bool, a: seq<A>, b: seq<B>, f: seq<nat>) returns (ps: seq<(A, B)>)
    requires PairsUp(ok, a, b, f)
    ensures Couples(ok, multiset(a), multiset(b), ps)
  {
    ps := seq(|a|, i requires 0 <= i < |a| => (a[i], b[f[i]]));
    assert Firsts(ps) == a && Seconds(ps) == Picked(b, f);
    RearrangedMultiset(b, f);
  }

  lemma CouplesGivePairing<A(!new), B(!new)>(ok: (A, B) -> bool, a: seq<A>, b: seq<B>, ps: seq<(A, B)>)
    requires Couples(ok, multiset(a), multiset(b), ps)
    ensures Pairable(ok, a, b)
  {
    var p := SameMultisetRearranges(a, Firsts(ps));
    var q := SameMultisetRearranges(Seconds(ps), b);
    var f := Picked(q, p);
    assert PairsUp(ok, a, b, f);
  }
}
