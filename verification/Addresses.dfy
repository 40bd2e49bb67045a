/**
 Maps described by addresses. A map created by a dotted assignment is named by the existing map
 below which it hangs and the path from there, not by its reference.
 */
module Addresses {
  import opened Text
  import opened Values
  import opened Semantics

  datatype Addr = Addr(q: nat, ns: seq<string>)

  type Leaves = map<Addr, Val>

  type Nodes = map<Addr, nat>

  // ---------------------------------------------------------------- maps described by addresses

  /** What slot c of the existing map q holds. */
  ghost predicate OldSlot(h: Heap, L: Leaves, N: Nodes, g: Heap, q: nat, c: string)
    requires q < |h| <= |g|
  {
    var a := Addr(q, [c]);
    if a in L then c in g[q] && g[q][c] == L[a]
    else if a in N then c in g[q] && g[q][c] == MapV(N[a])
    else (c in g[q] <==> c in h[q]) && (c in h[q] ==> g[q][c] == h[q][c])
  }

  /** What slot c of the new map at address a holds. */
  ghost predicate NewSlot(L: Leaves, N: Nodes, g: Heap, a: Addr, c: string)
    requires a in N && N[a] < |g|
  {
    var b := Addr(a.q, a.ns + [c]);
    if b in L then c in g[N[a]] && g[N[a]][c] == L[b]
    else if b in N then c in g[N[a]] && g[N[a]][c] == MapV(N[b])
    else c !in g[N[a]]
  }

  ghost predicate ParentIn(N: Nodes, a: Addr) {
    |a.ns| >= 2 ==> Addr(a.q, a.ns[..|a.ns| - 1]) in N
  }

  /** g is h with the values L stored and the new maps N created; `back` inverts N. */
  ghost predicate Layout(h: Heap, L: Leaves, N: Nodes, back: map<nat, Addr>, g: Heap) {
    && |h| <= |g|
    && (forall a | a in N :: |h| <= N[a] < |g| && N[a] in back && back[N[a]] == a && a.ns != [])
    && (forall a {:trigger ParentIn(N, a)} | a in N || a in L :: a.ns != [] && ParentIn(N, a))
    && (forall q: nat, c: string | q < |h| :: OldSlot(h, L, N, g, q, c))
    && (forall a, c: string | a in N :: NewSlot(L, N, g, a, c))
  }

  /** The map at an address: an existing one, or a new one. */
  ghost predicate Holder(h: Heap, N: Nodes, q: nat, ns: seq<string>, r: nat) {
    if ns == [] then r == q && q < |h| else Addr(q, ns) in N && r == N[Addr(q, ns)]
  }

  lemma Longer(ns: seq<string>, c: string, ms: seq<string>, d: string)
    ensures ns + [c] == ms + [d] <==> ns == ms && c == d
    ensures |ns + [c]| >= 1 && (ns + [c])[..|ns|] == ns
  {
    if ns + [c] == ms + [d] {
      assert |ns| == |ms|;
      assert ns == (ns + [c])[..|ns|] && ms == (ms + [d])[..|ms|];
      assert c == (ns + [c])[|ns|] && d == (ms + [d])[|ms|];
    }
  }

  lemma LeafOldSlot(h: Heap, L: Leaves, N: Nodes, back: map<nat, Addr>, g: Heap, q: nat, ns: seq<string>, r: nat,
                    c: string, v: Val, q': nat, d: string)
    requires Layout(h, L, N, back, g) && Holder(h, N, q, ns, r) && Addr(q, ns + [c]) !in N && q' < |h|
    ensures OldSlot(h, L[Addr(q, ns + [c]) := v], N, Put(g, r, c, v), q', d)
  {
    assert OldSlot(h, L, N, g, q', d);
    Longer(ns, c, [], d);
    assert [] + [d] == [d];
  }

  lemma LeafNewSlot(h: Heap, L: Leaves, N: Nodes, back: map<nat, Addr>, g: Heap, q: nat, ns: seq<string>, r: nat,
                    c: string, v: Val, b: Addr, d: string)
    requires Layout(h, L, N, back, g) && Holder(h, N, q, ns, r) && Addr(q, ns + [c]) !in N && b in N
    ensures NewSlot(L[Addr(q, ns + [c]) := v], N, Put(g, r, c, v), b, d)
  {
    assert NewSlot(L, N, g, b, d);
    Longer(ns, c, b.ns, d);
  }

  /** Storing a value under a map of the description. */
  lemma AddLeaf(h: Heap, L: Leaves, N: Nodes, back: map<nat, Addr>, g: Heap, q: nat, ns: seq<string>, r: nat, c: string,
                v: Val)
    requires Layout(h, L, N, back, g) && Holder(h, N, q, ns, r) && Addr(q, ns + [c]) !in N
    ensures Layout(h, L[Addr(q, ns + [c]) := v], N, back, Put(g, r, c, v))
  {
    var a := Addr(q, ns + [c]);
    var L' := L[a := v];
    var g' := Put(g, r, c, v);
    Longer(ns, c, ns, c);
    forall b | b in N || b in L' ensures b.ns != [] && ParentIn(N, b) {
      if b in N || b in L { assert ParentIn(N, b); }
    }
    forall q': nat, d: string | q' < |h| ensures OldSlot(h, L', N, g', q', d) {
      LeafOldSlot(h, L, N, back, g, q, ns, r, c, v, q', d);
    }
    forall b, d: string | b in N ensures NewSlot(L', N, g', b, d) {
      LeafNewSlot(h, L, N, back, g, q, ns, r, c, v, b, d);
    }
  }

  lemma NodeOldSlot(h: Heap, L: Leaves, N: Nodes, back: map<nat, Addr>, g: Heap, q: nat, ns: seq<string>, r: nat,
                    c: string, q': nat, d: string)
    requires Layout(h, L, N, back, g) && Holder(h, N, q, ns, r) && q' < |h|
    requires Addr(q, ns + [c]) !in N && Addr(q, ns + [c]) !in L
    ensures OldSlot(h, L, N[Addr(q, ns + [c]) := |g|], Put(g, r, c, MapV(|g|)) + [map[]], q', d)
  {
    assert OldSlot(h, L, N, g, q', d);
    Longer(ns, c, [], d);
    assert [] + [d] == [d];
  }

  lemma NodeNewSlot(h: Heap, L: Leaves, N: Nodes, back: map<nat, Addr>, g: Heap, q: nat, ns: seq<string>, r: nat,
                    c: string, b: Addr, d: string)
    requires Layout(h, L, N, back, g) && Holder(h, N, q, ns, r) && b in N
    requires Addr(q, ns + [c]) !in N && Addr(q, ns + [c]) !in L
    ensures NewSlot(L, N[Addr(q, ns + [c]) := |g|], Put(g, r, c, MapV(|g|)) + [map[]], b, d)
  {
    assert NewSlot(L, N, g, b, d);
    Longer(ns, c, b.ns, d);
  }

  /** Below an address that is not there, nothing is there. */
  lemma NothingBelow(h: Heap, L: Leaves, N: Nodes, back: map<nat, Addr>, g: Heap, a: Addr, d: string)
    requires Layout(h, L, N, back, g) && a !in N && a.ns != []
    ensures Addr(a.q, a.ns + [d]) !in N && Addr(a.q, a.ns + [d]) !in L
  {
    var e := Addr(a.q, a.ns + [d]);
    assert e.ns[..|e.ns| - 1] == a.ns;
    assert !ParentIn(N, e);
  }

  /** Creating an empty map under a map of the description. */
  lemma AddNode(h: Heap, L: Leaves, N: Nodes, back: map<nat, Addr>, g: Heap, q: nat, ns: seq<string>, r: nat, c: string)
    requires Layout(h, L, N, back, g) && Holder(h, N, q, ns, r)
    requires Addr(q, ns + [c]) !in N && Addr(q, ns + [c]) !in L
    ensures Layout(h, L, N[Addr(q, ns + [c]) := |g|], back[|g| := Addr(q, ns + [c])],
                   Put(g, r, c, MapV(|g|)) + [map[]])
  {
    var a := Addr(q, ns + [c]);
    var N' := N[a := |g|];
    var g' := Put(g, r, c, MapV(|g|)) + [map[]];
    Longer(ns, c, ns, c);
    forall b | b in N' || b in L ensures b.ns != [] && ParentIn(N', b) {
      if b in N || b in L { assert ParentIn(N, b); }
    }
    forall q': nat, d: string | q' < |h| ensures OldSlot(h, L, N', g', q', d) {
      NodeOldSlot(h, L, N, back, g, q, ns, r, c, q', d);
    }
    forall b, d: string | b in N' ensures NewSlot(L, N', g', b, d) {
      if b == a {
        NothingBelow(h, L, N, back, g, a, d);
        assert |a.ns + [d]| > |a.ns|;
      } else {
        NodeNewSlot(h, L, N, back, g, q, ns, r, c, b, d);
      }
    }
  }

  ghost function Between(t: nat, rest: seq<string>, n: nat): set<Addr> {
    set m: nat | n < m < |rest| :: Addr(t, rest[..m])
  }

  lemma BetweenStep(t: nat, rest: seq<string>, n: nat, addrs: set<Addr>)
    requires n + 1 < |rest|
    ensures var a := Addr(t, rest[..n + 1]);
            && addrs + {a} + Between(t, rest, n + 1) == addrs + Between(t, rest, n)
            && (a in addrs ==> addrs + Between(t, rest, n + 1) == addrs + Between(t, rest, n))
  {
    assert Between(t, rest, n) == {Addr(t, rest[..n + 1])} + Between(t, rest, n + 1);
  }

  /** No value is stored on the way from component n on. */
  ghost predicate Open(L: Leaves, t: nat, rest: seq<string>, n: nat) {
    forall m: nat | n < m < |rest| :: Addr(t, rest[..m]) !in L
  }

  lemma OpenStep(L: Leaves, t: nat, rest: seq<string>, n: nat)
    requires Open(L, t, rest, n) && n + 1 < |rest|
    ensures Open(L, t, rest, n + 1) && Addr(t, rest[..n + 1]) !in L && Addr(t, rest[..n + 1]) != Addr(t, rest)
  {
    assert |rest[..n + 1]| < |rest|;
  }

  lemma SlotAt(h: Heap, L: Leaves, N: Nodes, back: map<nat, Addr>, g: Heap, t: nat, ns: seq<string>, r: nat, c: string)
    requires Layout(h, L, N, back, g) && t < |h| && Holder(h, N, t, ns, r)
    ensures r < |g| && Addr(t, ns + [c]) !in L ==>
              if Addr(t, ns + [c]) in N then c in g[r] && g[r][c] == MapV(N[Addr(t, ns + [c])])
              else (c in g[r] <==> ns == [] && c in h[t])
    ensures r < |g|
  {
    assert if ns == [] then OldSlot(h, L, N, g, t, c) && [] + [c] == [c] else NewSlot(L, N, g, Addr(t, ns), c);
  }

  /** An absent map is created on the way. */
  lemma CreateStep(h: Heap, L: Leaves, N: Nodes, back: map<nat, Addr>, g: Heap, t: nat, rest: seq<string>, n: nat,
                   r: nat, v: Val)
    requires Layout(h, L, N, back, g) && t < |h| && n + 1 < |rest| && Holder(h, N, t, rest[..n], r)
    requires n == 0 ==> rest[0] !in h[t]
    requires Addr(t, rest[..n + 1]) !in N && Addr(t, rest[..n + 1]) !in L
    ensures var g' := Put(g, r, rest[n], MapV(|g|)) + [map[]]; var a := Addr(t, rest[..n + 1]);
            && Layout(h, L, N[a := |g|], back[|g| := a], g') && Holder(h, N[a := |g|], t, rest[..n + 1], |g|)
            && AssignAt(g, r, rest[n..], v) == AssignAt(g', |g|, rest[n + 1..], v)
  {
    assert rest[..n + 1] == rest[..n] + [rest[n]];
    SlotAt(h, L, N, back, g, t, rest[..n], r, rest[n]);
    AddNode(h, L, N, back, g, t, rest[..n], r, rest[n]);
    assert rest[n..][0] == rest[n] && rest[n..][1..] == rest[n + 1..];
  }

  /** A map that is there is walked into. */
  lemma WalkStep(h: Heap, L: Leaves, N: Nodes, back: map<nat, Addr>, g: Heap, t: nat, rest: seq<string>, n: nat, r: nat,
                 v: Val)
    requires Layout(h, L, N, back, g) && t < |h| && n + 1 < |rest| && Holder(h, N, t, rest[..n], r)
    requires Addr(t, rest[..n + 1]) in N && Addr(t, rest[..n + 1]) !in L
    ensures AssignAt(g, r, rest[n..], v) == AssignAt(g, N[Addr(t, rest[..n + 1])], rest[n + 1..], v)
  {
    assert rest[..n + 1] == rest[..n] + [rest[n]];
    SlotAt(h, L, N, back, g, t, rest[..n], r, rest[n]);
    assert rest[n..][0] == rest[n] && rest[n..][1..] == rest[n + 1..];
  }

  /** The last component takes the value. */
  lemma LastStep(h: Heap, L: Leaves, N: Nodes, back: map<nat, Addr>, g: Heap, t: nat, rest: seq<string>, r: nat, v: Val)
    requires Layout(h, L, N, back, g) && t < |h| && rest != [] && Holder(h, N, t, rest[..|rest| - 1], r)
    requires Addr(t, rest) !in N
    ensures AssignAt(g, r, rest[|rest| - 1..], v).Some?
    ensures Layout(h, L[Addr(t, rest) := v], N, back, AssignAt(g, r, rest[|rest| - 1..], v).value)
  {
    var n := |rest| - 1;
    assert rest == rest[..n] + [rest[n]] && rest[n..] == [rest[n]];
    AddLeaf(h, L, N, back, g, t, rest[..n], r, rest[n], v);
  }

  /** An assignment below existing map t, of which the first n components are already there. */
  lemma {:induction false} Insert(h: Heap, L: Leaves, N: Nodes, back: map<nat, Addr>, g: Heap, t: nat,
                                  rest: seq<string>, n: nat, r: nat, v: Val)
      returns (N': Nodes, back': map<nat, Addr>)
    requires Layout(h, L, N, back, g) && t < |h|
    requires n < |rest| && Holder(h, N, t, rest[..n], r)
    requires |rest| >= 2 ==> rest[0] !in h[t]
    requires Addr(t, rest) !in N && Open(L, t, rest, n)
    ensures AssignAt(g, r, rest[n..], v).Some?
    ensures Layout(h, L[Addr(t, rest) := v], N', back', AssignAt(g, r, rest[n..], v).value)
    ensures N'.Keys == N.Keys + Between(t, rest, n)
    decreases |rest| - n
  {
    N', back' := N, back;
    if n + 1 == |rest| {
      LastStep(h, L, N, back, g, t, rest, r, v);
      assert Between(t, rest, n) == {};
    } else {
      var a := Addr(t, rest[..n + 1]);
      BetweenStep(t, rest, n, N.Keys);
      OpenStep(L, t, rest, n);
      if a in N {
        WalkStep(h, L, N, back, g, t, rest, n, r, v);
        N', back' := Insert(h, L, N, back, g, t, rest, n + 1, N[a], v);
      } else {
        CreateStep(h, L, N, back, g, t, rest, n, r, v);
        var g1 := Put(g, r, rest[n], MapV(|g|)) + [map[]];
        var N1 := N[a := |g|];
        assert N1.Keys == N.Keys + {a};
        N', back' := Insert(h, L, N1, back[|g| := a], g1, t, rest, n + 1, |g|, v);
      }
    }
  }
}
