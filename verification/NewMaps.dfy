/** The new maps of several outcomes side by side. */
module NewMaps {
  import opened Text
  import opened Values
  import opened Ownership
  import opened Scoping
  import opened Renaming
  import opened Purity
  import opened Steadiness

  // The new maps of several expressions get places in one imagined heap, each outcome its own. What a
  // run has done is compared with what storing the imagined values would have done: the two heaps
  // correspond, whatever the order in which the expressions were evaluated.

  // ---------------------------------------------------------------- places

  /** The value with its new maps moved up by d places. */
  function Shifted(v: Val, n: nat, d: nat): Val
    decreases v
  {
    match v
    case MapV(r) => if r < n then v else MapV(r + d)
    case ListV(es) => ListV(seq(|es|, i requires 0 <= i < |es| => Shifted(es[i], n, d)))
    case _ => v
  }

  function ShiftedMap(m: GoMap, n: nat, d: nat): GoMap {
    map k | k in m :: Shifted(m[k], n, d)
  }

  function Size(o: Option<Made>): nat {
    if o.Some? then |o.value.ms| else 0
  }

  /** The new maps of the value stand in hc from place st on. */
  ghost predicate ChunkAt(n: nat, made: Made, st: nat, hc: Heap) {
    && n <= st && st + |made.ms| <= |hc|
    && forall i | 0 <= i < |made.ms| :: hc[st + i] == ShiftedMap(made.ms[i], n, st - n)
  }

  /** hc is h with the new maps of all outcomes, those of outcome j from starts[j] on. */
  ghost predicate Laid(h: Heap, os: seq<Option<Made>>, starts: seq<nat>, hc: Heap) {
    && |starts| == |os| && h <= hc && WellFormed(hc)
    && (forall j | 0 <= j < |os| :: |h| <= starts[j] && starts[j] + Size(os[j]) <= |hc|)
    && (forall i, j | 0 <= i < j < |os| :: starts[i] + Size(os[i]) <= starts[j])
    && (forall j | 0 <= j < |os| && os[j].Some? :: ChunkAt(|h|, os[j].value, starts[j], hc))
  }

  lemma {:induction false} ShiftedIn(v: Val, n: nat, d: nat, size: nat, total: nat)
    requires ValIn(v, All(), n + size) && n + d + size <= total
    ensures ValIn(Shifted(v, n, d), All(), total) && KindOf(Shifted(v, n, d)) == KindOf(v)
    decreases v
  {
    if v.ListV? {
      forall i | 0 <= i < |v.elems| ensures ValIn(Shifted(v.elems[i], n, d), All(), total) {
        ShiftedIn(v.elems[i], n, d, size, total);
      }
    }
  }

  lemma WellFormedAppend(h: Heap, chunk: Heap)
    requires WellFormed(h) && forall i | 0 <= i < |chunk| :: MapIn(chunk[i], All(), |h| + |chunk|)
    ensures WellFormed(h + chunk)
  {
    forall r | 0 <= r < |h + chunk| ensures MapIn((h + chunk)[r], All(), |h + chunk|) {
      if r < |h| { MapInMono(h[r], All(), |h|, |h + chunk|); }
    }
  }

  function ShiftedMaps(ms: seq<GoMap>, n: nat, d: nat): Heap {
    seq(|ms|, i requires 0 <= i < |ms| => ShiftedMap(ms[i], n, d))
  }

  lemma {:induction false} Lay(h: Heap, os: seq<Option<Made>>) returns (starts: seq<nat>, hc: Heap)
    requires WellFormed(h) && forall j | 0 <= j < |os| && os[j].Some? :: MadeIn(os[j].value, |h|)
    ensures Laid(h, os, starts, hc)
    decreases |os|
  {
    if os == [] {
      starts, hc := [], h;
    } else {
      var m := |os| - 1;
      var starts0, hc0 := Lay(h, os[..m]);
      starts := starts0 + [|hc0|];
      hc := hc0;
      if os[m].Some? {
        var made := os[m].value;
        var chunk := ShiftedMaps(made.ms, |h|, |hc0| - |h|);
        hc := hc0 + chunk;
        forall i | 0 <= i < |chunk| ensures MapIn(chunk[i], All(), |hc|) {
          forall k | k in made.ms[i] ensures ValIn(Shifted(made.ms[i][k], |h|, |hc0| - |h|), All(), |hc|) {
            ShiftedIn(made.ms[i][k], |h|, |hc0| - |h|, |made.ms|, |hc|);
          }
        }
        WellFormedAppend(hc0, chunk);
      }
      LaidLast(h, os, starts0, hc0, starts, hc);
    }
  }

  lemma LaidLast(h: Heap, os: seq<Option<Made>>, starts0: seq<nat>, hc0: Heap, starts: seq<nat>, hc: Heap)
    requires os != [] && Laid(h, os[..|os| - 1], starts0, hc0) && starts == starts0 + [|hc0|]
    requires WellFormed(hc) && hc0 <= hc && |hc| == |hc0| + Size(os[|os| - 1])
    requires var o := os[|os| - 1]; o.Some? ==> ChunkAt(|h|, o.value, |hc0|, hc)
    ensures Laid(h, os, starts, hc)
  {
    var m := |os| - 1;
    forall j | 0 <= j < |os| && os[j].Some? ensures ChunkAt(|h|, os[j].value, starts[j], hc) {
      if j < m { assert os[..m][j] == os[j] && ChunkAt(|h|, os[j].value, starts0[j], hc0); }
    }
    forall j | 0 <= j < m ensures starts[j] + Size(os[j]) <= |hc0| && |h| <= starts[j] { assert os[..m][j] == os[j]; }
    forall i, j | 0 <= i < j < |os| ensures starts[i] + Size(os[i]) <= starts[j] {
      assert os[..m][i] == os[i];
      if j < m { assert os[..m][j] == os[j]; }
    }
  }

  /** The value of outcome o in the imagined heap. */
  function Imagined(n: nat, o: Option<Made>, st: nat): Val
    requires n <= st
  {
    if o.Some? then Shifted(o.value.v, n, st - n) else NullV
  }

  // ---------------------------------------------------------------- links

  /** p, and names st + i for the references k[i]. */
  function Links(p: Ren, st: nat, k: seq<nat>): Ren
    decreases |k|
  {
    if k == [] then p
    else var m := |k| - 1; Added(Links(p, st, k[..m]), st + m, k[m])
  }

  lemma {:induction false} LinksFacts(p: Ren, st: nat, k: seq<nat>, lo: nat)
    requires OneToOne(p) && NoDuplicates(k)
    requires forall a | a in p.to :: p.to[a] < lo && !(st <= a < st + |k|)
    requires forall i | 0 <= i < |k| :: lo <= k[i]
    ensures var q := Links(p, st, k);
            && OneToOne(q) && Extends(p, q)
            && (forall a: nat | st <= a < st + |k| :: a in q.to && q.to[a] == k[a - st])
            && (forall a | a in q.to :: a in p.to || st <= a < st + |k|)
    decreases |k|
  {
    if k != [] {
      var m := |k| - 1;
      LinksFacts(p, st, k[..m], lo);
      var q := Links(p, st, k[..m]);
      assert forall a | a in q.to :: q.to[a] != k[m] && a != st + m;
    }
  }

  /** The old references stand for themselves. */
  ghost predicate KeepsOld(p: Ren, n: nat) {
    forall r: nat | r < n :: r in p.to && p.to[r] == r
  }

  /** q has the old references and the names st + i for the references k[i]. */
  ghost predicate HasPlaces(q: Ren, n: nat, st: nat, k: seq<nat>) {
    n <= st && KeepsOld(q, n) && forall a: nat | st <= a < st + |k| :: a in q.to && q.to[a] == k[a - st]
  }

  lemma {:induction false} ShiftRelated(q: Ren, n: nat, st: nat, k: seq<nat>, v: Val, w: Val)
    requires RelVal(Placed(n, k), v, w) && HasPlaces(q, n, st, k)
    ensures RelVal(q, Shifted(v, n, st - n), w)
    decreases v
  {
    if v.ListV? {
      forall i | 0 <= i < |v.elems| ensures RelVal(q, Shifted(v.elems[i], n, st - n), w.elems[i]) {
        ShiftRelated(q, n, st, k, v.elems[i], w.elems[i]);
      }
    }
  }

  lemma RelatedAppend(p: Ren, gv: Heap, g: Heap, g': Heap)
    requires RelHeap(p, gv, g) && g <= g'
    ensures RelHeap(p, gv, g')
  {
    assert forall r | 0 <= r < |g| :: g'[r] == g[r];
  }

  /** A new value, at the references k of the heap g', corresponds to the imagined one. */
  lemma LinkChunk(p: Ren, gv: Heap, g: Heap, g': Heap, n: nat, made: Made, v: Val, st: nat, k: seq<nat>)
      returns (q: Ren)
    requires RelHeap(p, gv, g) && g <= g' && KeepsOld(p, n)
    requires MadeAt(n, made, |g|, g', v, k) && ChunkAt(n, made, st, gv)
    requires forall a | st <= a < st + |k| :: a !in p.to
    ensures RelHeap(q, gv, g') && Extends(p, q) && RelVal(q, Shifted(made.v, n, st - n), v)
    ensures forall a | a in q.to :: a in p.to || st <= a < st + |k|
  {
    q := Links(p, st, k);
    LinksOutside(p, gv, g, n, st, k);
    RelatedAppend(p, gv, g, g');
    LinkedHeap(p, q, gv, |g|, g', n, made, v, st, k);
    ShiftRelated(q, n, st, k, made.v, v);
  }

  lemma LinksOutside(p: Ren, gv: Heap, g: Heap, n: nat, st: nat, k: seq<nat>)
    requires RelHeap(p, gv, g) && NoDuplicates(k) && forall i | 0 <= i < |k| :: |g| <= k[i]
    requires n <= st && KeepsOld(p, n) && forall a | st <= a < st + |k| :: a !in p.to
    ensures var q := Links(p, st, k);
            && OneToOne(q) && Extends(p, q) && HasPlaces(q, n, st, k)
            && (forall a | a in q.to :: a in p.to || st <= a < st + |k|)
  {
    LinksFacts(p, st, k, |g|);
  }

  lemma LinkedHeap(p: Ren, q: Ren, gv: Heap, lo: nat, g': Heap, n: nat, made: Made, v: Val, st: nat, k: seq<nat>)
    requires RelHeap(p, gv, g') && OneToOne(q) && Extends(p, q)
    requires MadeAt(n, made, lo, g', v, k) && ChunkAt(n, made, st, gv)
    requires HasPlaces(q, n, st, k) && forall a | a in q.to :: a in p.to || st <= a < st + |k|
    ensures RelHeap(q, gv, g')
  {
    forall a | a in q.to ensures a < |gv| && q.to[a] < |g'| && RelMap(q, gv[a], g'[q.to[a]]) {
      if a in p.to {
        RelMapMono(p, q, gv[a], g'[p.to[a]]);
      } else {
        ChunkRelated(n, made, lo, g', v, k, st, gv, q, a);
      }
    }
  }

  lemma ChunkRelated(n: nat, made: Made, lo: nat, g: Heap, v: Val, k: seq<nat>, st: nat, gv: Heap, q: Ren, a: nat)
    requires MadeAt(n, made, lo, g, v, k) && ChunkAt(n, made, st, gv) && st <= a < st + |k| && HasPlaces(q, n, st, k)
    ensures RelMap(q, gv[a], g[k[a - st]])
  {
    var i := a - st;
    var m, m' := made.ms[i], g[k[i]];
    assert gv[st + i] == ShiftedMap(m, n, st - n);
    forall c | c in m ensures RelVal(q, Shifted(m[c], n, st - n), m'[c]) { ShiftRelated(q, n, st, k, m[c], m'[c]); }
  }

  /** The maps g of a run correspond to the imagined ones gv; the outcomes outside D have not been used. */
  ghost predicate Linked(h: Heap, os: seq<Option<Made>>, starts: seq<nat>, D: set<nat>, p: Ren, gv: Heap, g: Heap)
    requires |starts| == |os|
  {
    && RelHeap(p, gv, g) && KeepsOld(p, |h|)
    && forall j: nat | j < |os| && j !in D :: Unlinked(p, starts[j], Size(os[j]))
  }

  ghost predicate Unlinked(p: Ren, st: nat, n: nat) {
    forall a: nat | st <= a < st + n :: a !in p.to
  }

  lemma SelfHeap(h: Heap, hc: Heap) returns (p: Ren)
    requires WellFormed(h) && h <= hc
    ensures RelHeap(p, hc, h) && KeepsOld(p, |h|) && forall a | a in p.to :: a < |h|
  {
    p := Placed(|h|, []);
    p := Ren(p.to, p.to);
    forall r: nat | r < |h| ensures r in p.to && p.to[r] == r { assert IsRef(r); }
    forall a | a in p.to ensures RelMap(p, hc[a], h[a]) {
      assert MapIn(h[a], All(), |h|);
      forall c | c in h[a] ensures RelVal(p, h[a][c], h[a][c]) {
        SameOld(|h|, [], h[a][c]);
        RelValMono(Placed(|h|, []), p, h[a][c], h[a][c]);
      }
    }
  }

  /** What the run sees of the old maps is what is imagined. */
  lemma SeesLinked(h: Heap, W: Slots, hc: Heap, p: Ren, gv: Heap, g: Heap)
    requires WellFormed(h) && h <= hc && Sees(hc, W, gv) && RelHeap(p, gv, g) && KeepsOld(p, |h|)
    ensures Sees(h, W, g)
  {
    if |h| > 0 { assert |h| - 1 in p.to; }
    forall q: nat, c: string | q < |h| && (q, c) !in W
      ensures |h| <= |g| && (c in g[q] <==> c in h[q]) && (c in h[q] ==> g[q][c] == h[q][c])
    {
      assert q in p.to && RelMap(p, gv[q], g[q]) && hc[q] == h[q];
      if c in h[q] {
        assert MapIn(h[q], All(), |h|);
        OldItself(p, |h|, h[q][c], g[q][c]);
      }
    }
  }

  lemma {:induction false} OldItself(p: Ren, n: nat, v: Val, w: Val)
    requires KeepsOld(p, n) && ValIn(v, All(), n) && RelVal(p, v, w)
    ensures v == w
    decreases v
  {
    if v.ListV? {
      forall i | 0 <= i < |v.elems| ensures v.elems[i] == w.elems[i] { OldItself(p, n, v.elems[i], w.elems[i]); }
    }
  }

  // ---------------------------------------------------------------- from run to run

  /** a stands for what p stands for, on the other side. */
  predicate Backed(p: Ren, a: nat) {
    a in p.from && p.from[a] in p.to && p.to[p.from[a]] == a
  }

  predicate Passes(p1: Ren, m: Ren, p2: Ren, a: nat) {
    Backed(p1, a) && p1.from[a] in m.to && m.to[p1.from[a]] in p2.to
  }

  function Carry(p1: Ren, m: Ren, p2: Ren): map<nat, nat> {
    map a | a in p1.from && Passes(p1, m, p2, a) :: p2.to[m.to[p1.from[a]]]
  }

  function Flip(p: Ren): Ren {
    Ren(p.from, p.to)
  }

  lemma {:induction false} CarryVal(p1: Ren, m: Ren, p2: Ren, q: Ren, v: Val, v': Val, x: Val, y: Val)
    requires RelVal(p1, v, x) && RelVal(m, v, v') && RelVal(p2, v', y) && OneToOne(p1)
    requires q.to == Carry(p1, m, p2)
    ensures RelVal(q, x, y)
    decreases v
  {
    if v.MapV? {
      assert Backed(p1, x.ref) && Passes(p1, m, p2, x.ref);
    } else if v.ListV? {
      forall i | 0 <= i < |v.elems| ensures RelVal(q, x.elems[i], y.elems[i]) {
        CarryVal(p1, m, p2, q, v.elems[i], v'.elems[i], x.elems[i], y.elems[i]);
      }
    }
  }

  lemma CarryMap(p1: Ren, m: Ren, p2: Ren, q: Ren, v: GoMap, v': GoMap, x: GoMap, y: GoMap)
    requires RelMap(p1, v, x) && RelMap(m, v, v') && RelMap(p2, v', y) && OneToOne(p1)
    requires q.to == Carry(p1, m, p2)
    ensures RelMap(q, x, y)
  {
    forall c | c in x ensures RelVal(q, x[c], y[c]) { CarryVal(p1, m, p2, q, v[c], v'[c], x[c], y[c]); }
  }

  lemma CarryOneToOne(p1: Ren, m: Ren, p2: Ren, q: Ren)
    requires OneToOne(p1) && OneToOne(m) && OneToOne(p2)
    requires q == Ren(Carry(p1, m, p2), Carry(p2, Flip(m), p1))
    ensures OneToOne(q)
  {
    forall a | a in q.to ensures q.to[a] in q.from && q.from[q.to[a]] == a {
      assert Passes(p1, m, p2, a);
      assert Passes(p2, Flip(m), p1, q.to[a]);
    }
  }

  lemma CarryOld(p1: Ren, m: Ren, p2: Ren, n: nat)
    requires OneToOne(p1) && KeepsOld(p1, n) && KeepsOld(m, n) && KeepsOld(p2, n)
    ensures forall r: nat | r < n :: r in Carry(p1, m, p2) && Carry(p1, m, p2)[r] == r
  {
    forall r: nat | r < n ensures r in Carry(p1, m, p2) && Carry(p1, m, p2)[r] == r {
      assert p1.to[r] == r;
      assert p1.from[r] == r;
      assert Passes(p1, m, p2, r);
    }
  }

  lemma CarryAt(p1: Ren, gv1: Heap, g1: Heap, m: Ren, p2: Ren, gv2: Heap, g2: Heap, q: Ren, a: nat)
    requires RelHeap(p1, gv1, g1) && RelHeap(m, gv1, gv2) && RelHeap(p2, gv2, g2)
    requires q.to == Carry(p1, m, p2) && a in q.to
    ensures a < |g1| && q.to[a] < |g2| && RelMap(q, g1[a], g2[q.to[a]])
  {
    var v := p1.from[a];
    assert p1.to[v] == a && q.to[a] == p2.to[m.to[v]];
    CarryMap(p1, m, p2, q, gv1[v], gv2[m.to[v]], g1[a], g2[q.to[a]]);
  }

  lemma CarryHeap(p1: Ren, gv1: Heap, g1: Heap, m: Ren, p2: Ren, gv2: Heap, g2: Heap, q: Ren)
    requires RelHeap(p1, gv1, g1) && RelHeap(m, gv1, gv2) && RelHeap(p2, gv2, g2)
    requires q == Ren(Carry(p1, m, p2), Carry(p2, Flip(m), p1))
    ensures RelHeap(q, g1, g2)
  {
    CarryOneToOne(p1, m, p2, q);
    forall a | a in q.to ensures a < |g1| && q.to[a] < |g2| && RelMap(q, g1[a], g2[q.to[a]]) {
      CarryAt(p1, gv1, g1, m, p2, gv2, g2, q, a);
    }
  }

  /** Two runs that correspond to imagined ones that correspond. */
  lemma Through(p1: Ren, gv1: Heap, g1: Heap, m: Ren, p2: Ren, gv2: Heap, g2: Heap, n: nat) returns (q: Ren)
    requires RelHeap(p1, gv1, g1) && RelHeap(m, gv1, gv2) && RelHeap(p2, gv2, g2)
    requires KeepsOld(p1, n) && KeepsOld(m, n) && KeepsOld(p2, n)
    ensures RelHeap(q, g1, g2) && KeepsOld(q, n)
  {
    q := Ren(Carry(p1, m, p2), Carry(p2, Flip(m), p1));
    CarryHeap(p1, gv1, g1, m, p2, gv2, g2, q);
    CarryOld(p1, m, p2, n);
  }
}
