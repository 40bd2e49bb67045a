/**
 Assignment to a dotted name on a heap in which maps may be shared.
 */
module DottedAssignment {
  import opened Text
  import opened Values
  import opened Syntax
  import opened Semantics
  import opened Ownership
  import opened Scoping
  import opened Termination

  // ---------------------------------------------------------------- what is written

  /** The deepest map that the walk reaches without creating one. */
  function Anchor(h: Heap, r: nat, names: seq<string>): nat
    requires |names| >= 1
    decreases |names|
  {
    if |names| >= 2 && names[0] in At(h, r) && At(h, r)[names[0]].MapV?
    then Anchor(h, At(h, r)[names[0]].ref, names[1..]) else r
  }

  /** The components that are left there. The first of them is the only key that is written. */
  function Missing(h: Heap, r: nat, names: seq<string>): (rest: seq<string>)
    requires |names| >= 1
    ensures |rest| >= 1
    decreases |names|
  {
    if |names| >= 2 && names[0] in At(h, r) && At(h, r)[names[0]].MapV?
    then Missing(h, At(h, r)[names[0]].ref, names[1..]) else names
  }

  /** The i-th created map holds one key: the next component, or the value at the end. */
  function ChainMap(n: nat, rest: seq<string>, i: nat, v: Val): GoMap
    requires i + 1 < |rest|
  {
    map[rest[i + 1] := if i + 2 == |rest| then v else MapV(n + i + 1)]
  }

  /** h' is h with one slot written and the missing maps appended. */
  ghost predicate Updated(h: Heap, t: nat, rest: seq<string>, v: Val, h': Heap) {
    && |rest| >= 1 && t < |h| && |h'| == |h| + |rest| - 1
    && h'[t] == h[t][rest[0] := if |rest| == 1 then v else MapV(|h|)]
    && (forall q | 0 <= q < |h| && q != t :: h'[q] == h[q])
    && (forall i | 0 <= i < |rest| - 1 :: h'[|h| + i] == ChainMap(|h|, rest, i, v))
  }

  lemma {:induction false} ChainBuilt(h: Heap, r: nat, names: seq<string>, v: Val)
    requires |names| >= 1 && r < |h| && (|names| >= 2 ==> names[0] !in h[r])
    ensures AssignAt(h, r, names, v).Some? && Updated(h, r, names, v, AssignAt(h, r, names, v).value)
    decreases |names|
  {
    if |names| >= 2 {
      var n := |h|;
      var h1 := Put(h, r, names[0], MapV(n)) + [map[]];
      ChainBuilt(h1, n, names[1..], v);
      var h' := AssignAt(h1, n, names[1..], v).value;
      forall i | 0 <= i < |names| - 1
        ensures h'[n + i] == ChainMap(n, names, i, v)
      {
        if i > 0 { assert h'[|h1| + (i - 1)] == ChainMap(|h1|, names[1..], i - 1, v); }
      }
    }
  }

  /**
   A successful assignment writes one slot of one existing map and creates a chain of new maps
   below it; every other slot of every map keeps its value.
   */
  lemma {:induction false} AssignWritesOneSlot(h: Heap, r: nat, names: seq<string>, v: Val)
    requires |names| >= 1 && WellFormed(h) && r < |h|
    requires AssignAt(h, r, names, v).Some?
    ensures Updated(h, Anchor(h, r, names), Missing(h, r, names), v, AssignAt(h, r, names, v).value)
    decreases |names|
  {
    if |names| >= 2 && names[0] in At(h, r) {
      assert MapIn(h[r], All(), |h|);
      AssignWritesOneSlot(h, At(h, r)[names[0]].ref, names[1..], v);
    } else {
      ChainBuilt(h, r, names, v);
    }
  }

  /** It fails exactly when a component on the way is present and is not a map. */
  lemma {:induction false} AssignFailsExactly(h: Heap, r: nat, names: seq<string>, v: Val)
    requires |names| >= 1 && WellFormed(h) && r < |h|
    ensures AssignAt(h, r, names, v).None? <==>
            exists i | 0 < i < |names| :: var w := Select(h, MapV(r), names[..i]); w.Done? && !w.value.MapV?
    decreases |names|
  {
    if |names| >= 2 && names[0] in At(h, r) {
      var w := At(h, r)[names[0]];
      assert names[..1] == [names[0]];
      assert Select(h, w, []) == Done(w) && names[..1][1..] == [];
      assert Select(h, MapV(r), names[..1]) == Done(w);
      if w.MapV? {
        assert MapIn(h[r], All(), |h|);
        AssignFailsExactly(h, w.ref, names[1..], v);
        forall i | 0 < i < |names| - 1
          ensures Select(h, MapV(r), names[..i + 1]) == Select(h, w, names[1..][..i])
        {
          assert names[..i + 1][1..] == names[1..][..i];
        }
        if i :| 0 < i < |names| && Select(h, MapV(r), names[..i]).Done? && !Select(h, MapV(r), names[..i]).value.MapV? {
          assert i > 1;
          assert Select(h, w, names[1..][..i - 1]) == Select(h, MapV(r), names[..i]);
        }
        if AssignAt(h, w.ref, names[1..], v).None? {
          var i :| 0 < i < |names[1..]| && Select(h, w, names[1..][..i]).Done?
                   && !Select(h, w, names[1..][..i]).value.MapV?;
          assert Select(h, MapV(r), names[..i + 1]) == Select(h, w, names[1..][..i]);
        }
      }
    } else {
      ChainBuilt(h, r, names, v);
      forall i | 0 < i < |names|
        ensures !Select(h, MapV(r), names[..i]).Done?
      {
        assert names[..i][0] == names[0];
      }
    }
  }

  // ---------------------------------------------------------------- paths in the map graph

  ghost predicate Mentions(v: Val, r: nat)
    decreases v
  {
    match v
    case MapV(q) => q == r
    case ListV(es) => exists i | 0 <= i < |es| :: Mentions(es[i], r)
    case _ => false
  }

  ghost predicate Edge(h: Heap, a: nat, b: nat) {
    a < |h| && exists k | k in h[a] :: Mentions(h[a][k], b)
  }

  ghost predicate IsPath(h: Heap, p: seq<nat>) {
    |p| >= 1 && forall i | 0 <= i < |p| - 1 :: Edge(h, p[i], p[i + 1])
  }

  ghost predicate Reaches(h: Heap, a: nat, b: nat) {
    exists p :: IsPath(h, p) && p[0] == a && p[|p| - 1] == b
  }

  ghost predicate Acyclic(h: Heap) {
    forall p | IsPath(h, p) && |p| >= 2 :: p[0] != p[|p| - 1]
  }

  /** Some map mentioned in v leads to b. */
  ghost predicate ValReaches(h: Heap, v: Val, b: nat) {
    exists r :: Mentions(v, r) && Reaches(h, r, b)
  }

  lemma ReachesSelf(h: Heap, a: nat)
    ensures Reaches(h, a, a)
  {
    assert IsPath(h, [a]);
  }

  lemma ReachesStep(h: Heap, a: nat, b: nat, c: nat)
    requires Reaches(h, a, b) && Edge(h, b, c)
    ensures Reaches(h, a, c)
  {
    var p :| IsPath(h, p) && p[0] == a && p[|p| - 1] == b;
    var q := p + [c];
    assert IsPath(h, q) && q[0] == a && q[|q| - 1] == c;
  }

  lemma ReachesFirst(h: Heap, a: nat, b: nat, c: nat)
    requires Edge(h, a, b) && Reaches(h, b, c)
    ensures exists p :: IsPath(h, p) && |p| >= 2 && p[0] == a && p[|p| - 1] == c
  {
    var p :| IsPath(h, p) && p[0] == b && p[|p| - 1] == c;
    var q := [a] + p;
    assert IsPath(h, q) && q[0] == a && q[|q| - 1] == c;
  }

  lemma {:induction false} MentionedIn(v: Val, n: nat, r: nat)
    requires ValIn(v, All(), n) && Mentions(v, r)
    ensures r < n
    decreases v
  {
    if v.ListV? {
      var i :| 0 <= i < |v.elems| && Mentions(v.elems[i], r);
      MentionedIn(v.elems[i], n, r);
    }
  }

  lemma EdgeInside(h: Heap, a: nat, b: nat)
    requires WellFormed(h) && Edge(h, a, b)
    ensures b < |h|
  {
    var k :| k in h[a] && Mentions(h[a][k], b);
    assert MapIn(h[a], All(), |h|);
    MentionedIn(h[a][k], |h|, b);
  }

  // ---------------------------------------------------------------- reading back

  /** The walk to the anchor goes through slot (t, key). */
  predicate UsesSlot(h: Heap, r: nat, names: seq<string>, t: nat, key: string)
    requires |names| >= 1
    decreases |names|
  {
    |names| >= 2 && names[0] in At(h, r) && At(h, r)[names[0]].MapV?
    && ((r == t && names[0] == key) || UsesSlot(h, At(h, r)[names[0]].ref, names[1..], t, key))
  }

  lemma {:induction false} ReadChain(h: Heap, t: nat, rest: seq<string>, v: Val, h': Heap, i: nat)
    requires Updated(h, t, rest, v, h') && i + 1 < |rest|
    ensures Select(h', MapV(|h| + i), rest[i + 1..]) == Done(v)
    decreases |rest| - i
  {
    assert h'[|h| + i] == ChainMap(|h|, rest, i, v);
    assert rest[i + 1..][0] == rest[i + 1] && rest[i + 1..][1..] == rest[i + 2..];
    if i + 2 < |rest| {
      ReadChain(h, t, rest, v, h', i + 1);
    } else {
      assert rest[i + 2..] == [];
    }
  }

  /** The components that are left after the walk has first gone through slot (t, key). */
  function Remainder(h: Heap, r: nat, names: seq<string>, t: nat, key: string): (rest: seq<string>)
    requires |names| >= 1 && UsesSlot(h, r, names, t, key)
    ensures 1 <= |rest| < |names|
    decreases |names|
  {
    if r == t && names[0] == key then names[1..] else Remainder(h, At(h, r)[names[0]].ref, names[1..], t, key)
  }

  /** A slot that is missing is not walked through. */
  lemma {:induction false} UsesPresent(h: Heap, r: nat, names: seq<string>, t: nat, key: string)
    requires |names| >= 1 && UsesSlot(h, r, names, t, key)
    ensures key in At(h, t)
    decreases |names|
  {
    if !(r == t && names[0] == key) { UsesPresent(h, At(h, r)[names[0]].ref, names[1..], t, key); }
  }

  lemma {:induction false} MissingIsMissing(h: Heap, r: nat, names: seq<string>, v: Val)
    requires |names| >= 1 && AssignAt(h, r, names, v).Some? && |Missing(h, r, names)| >= 2
    ensures Missing(h, r, names)[0] !in At(h, Anchor(h, r, names))
    decreases |names|
  {
    if names[0] in At(h, r) { MissingIsMissing(h, At(h, r)[names[0]].ref, names[1..], v); }
  }

  /** Reading the path from map r, a map on the walk to the anchor. */
  lemma {:induction false} ReadUpdated(h: Heap, r: nat, names: seq<string>, v: Val, h': Heap)
    requires |names| >= 1 && WellFormed(h) && r < |h|
    requires var t := Anchor(h, r, names); var rest := Missing(h, r, names);
             Updated(h, t, rest, v, h') && (UsesSlot(h, r, names, t, rest[0]) ==> |rest| == 1)
    ensures var t, key := Anchor(h, r, names), Missing(h, r, names)[0];
            Select(h', MapV(r), names)
            == if UsesSlot(h, r, names, t, key) then Select(h', v, Remainder(h, r, names, t, key)) else Done(v)
    decreases |names|
  {
    var t, rest := Anchor(h, r, names), Missing(h, r, names);
    if |names| >= 2 && names[0] in At(h, r) && At(h, r)[names[0]].MapV? {
      var next := At(h, r)[names[0]];
      assert MapIn(h[r], All(), |h|);
      if r == t && names[0] == rest[0] {
        assert h'[r][names[0]] == v;
      } else {
        ReadUpdated(h, next.ref, names[1..], v, h');
        assert h'[r][names[0]] == next;
      }
    } else if |names| == 1 {
      assert names[1..] == [] && Select(h', v, []) == Done(v);
    } else {
      ReadChain(h, r, names, v, h', 0);
    }
  }

  /**
   What reading the path after a successful assignment gives, on any map graph: the value, unless the
   walk goes through the slot that is written; then the components after that are read from the value.
   */
  lemma ReadAfterAssign(h: Heap, r: nat, names: seq<string>, v: Val)
    requires |names| >= 1 && WellFormed(h) && r < |h| && AssignAt(h, r, names, v).Some?
    ensures var h' := AssignAt(h, r, names, v).value;
            var t, key := Anchor(h, r, names), Missing(h, r, names)[0];
            Select(h', MapV(r), names)
            == if UsesSlot(h, r, names, t, key) then Select(h', v, Remainder(h, r, names, t, key)) else Done(v)
  {
    AssignWritesOneSlot(h, r, names, v);
    var t, rest := Anchor(h, r, names), Missing(h, r, names);
    if UsesSlot(h, r, names, t, rest[0]) {
      UsesPresent(h, r, names, t, rest[0]);
      if |rest| >= 2 { MissingIsMissing(h, r, names, v); }
    }
    ReadUpdated(h, r, names, v, AssignAt(h, r, names, v).value);
  }

  /** A value that is not a map is read back exactly when the walk does not go through the written slot. */
  lemma ReadBackExactly(h: Heap, r: nat, names: seq<string>, v: Val)
    requires |names| >= 1 && WellFormed(h) && r < |h| && !v.MapV? && AssignAt(h, r, names, v).Some?
    ensures Select(AssignAt(h, r, names, v).value, MapV(r), names) == Done(v)
        <==> !UsesSlot(h, r, names, Anchor(h, r, names), Missing(h, r, names)[0])
  {
    ReadAfterAssign(h, r, names, v);
  }

  lemma {:induction false} AnchorReached(h: Heap, r: nat, names: seq<string>)
    requires |names| >= 1 && WellFormed(h) && r < |h|
    ensures Reaches(h, r, Anchor(h, r, names)) && Anchor(h, r, names) < |h|
    decreases |names|
  {
    ReachesSelf(h, r);
    if |names| >= 2 && names[0] in At(h, r) && At(h, r)[names[0]].MapV? {
      var next := At(h, r)[names[0]].ref;
      assert MapIn(h[r], All(), |h|);
      AnchorReached(h, next, names[1..]);
      assert Edge(h, r, next);
      ReachesFirst(h, r, next, Anchor(h, r, names));
    }
  }

  lemma {:induction false} AcyclicUsesNoSlotTwice(h: Heap, r: nat, names: seq<string>, key: string)
    requires |names| >= 1 && WellFormed(h) && Acyclic(h) && r < |h|
    ensures !UsesSlot(h, r, names, Anchor(h, r, names), key)
    decreases |names|
  {
    if |names| >= 2 && names[0] in At(h, r) && At(h, r)[names[0]].MapV? {
      var next := At(h, r)[names[0]].ref;
      assert MapIn(h[r], All(), |h|);
      AcyclicUsesNoSlotTwice(h, next, names[1..], key);
      AnchorReached(h, next, names[1..]);
      assert Edge(h, r, next);
      ReachesFirst(h, r, next, Anchor(h, r, names));
    }
  }

  /** Without cycles, reading the path after a successful assignment to it always gives the value. */
  lemma ReadBack(h: Heap, r: nat, names: seq<string>, v: Val)
    requires |names| >= 1 && WellFormed(h) && Acyclic(h) && r < |h|
    requires AssignAt(h, r, names, v).Some?
    ensures Select(AssignAt(h, r, names, v).value, MapV(r), names) == Done(v)
  {
    AcyclicUsesNoSlotTwice(h, r, names, Missing(h, r, names)[0]);
    ReadAfterAssign(h, r, names, v);
  }

  lemma ThreeParts()
    ensures SplitDots("a.b.b") == ["a", "b", "b"] && SplitDots("a.b") == ["a", "b"]
  {
    SplitPlain("b");
    assert "a.b"[1..] == ".b" && ".b"[1..] == "b" && "b.b"[1..] == ".b";
    assert SplitDots(".b") == ["", "b"];
    assert "a" + "" == "a" && "b" + "" == "b";
    assert SplitDots("a.b") == ["a", "b"] && SplitDots("b.b") == ["b", "b"];
    assert "a.b.b"[1..] == ".b.b" && ".b.b"[1..] == "b.b";
    assert SplitDots(".b.b") == ["", "b", "b"];
  }

  /** The maps after `a.b: a`, in frame f whose variable a is map m. */
  ghost predicate Looped(h: Heap, f: nat, m: nat) {
    && f < |h| && m < |h| && f != m
    && "a" in h[f] && h[f]["a"] == MapV(m) && "b" in h[m] && h[m]["b"] == MapV(m)
  }

  lemma AssignThroughLoop(h: Heap, f: nat, m: nat, i: int64)
    requires Looped(h, f, m)
    ensures AssignAt(h, f, ["a", "b", "b"], IntV(i)) == Some(Put(h, m, "b", IntV(i)))
    ensures Select(Put(h, m, "b", IntV(i)), MapV(m), ["b", "b"]) == Fail
  {
    assert ["a", "b", "b"][1..] == ["b", "b"] && ["b", "b"][1..] == ["b"];
    assert AssignAt(h, m, ["b"], IntV(i)) == Some(Put(h, m, "b", IntV(i)));
    assert AssignAt(h, m, ["b", "b"], IntV(i)) == Some(Put(h, m, "b", IntV(i)));
    assert Select(Put(h, m, "b", IntV(i)), IntV(i), ["b"]) == Fail;
  }

  /** A variable a that is a map of its own. */
  ghost predicate OwnMap(env: Env, h: Heap, f: nat, m: nat) {
    && f < |h| && m < |h| && f != m && "a" in h[f] && h[f]["a"] == MapV(m)
    && "a" in env && (env["a"] == TMap || env["a"] == TAny)
  }

  lemma MakesLoop(cx: Ctx, fuel: nat, env: Env, f: nat, m: nat, s: State)
    requires OwnMap(env, s.heap, f, m)
    ensures var r := EvalObject(cx, fuel, env, f, Assign("a.b", Text(Path("a", []))), s);
            r.out == Done(env) && Looped(r.s.heap, f, m)
  {
    ThreeParts();
    SingleAssign(cx, fuel, env, f, "a.b", Text(Path("a", [])), s);
    assert ["a", "b"][1..] == ["b"];
    assert AssignAt(s.heap, m, ["b"], MapV(m)) == Some(Put(s.heap, m, "b", MapV(m)));
  }

  lemma CutsLoop(cx: Ctx, fuel: nat, env: Env, f: nat, m: nat, i: int64, s: State)
    requires Looped(s.heap, f, m)
    ensures var r := EvalObject(cx, fuel, env, f, Assign("a.b.b", Text(Lit(CInt(i)))), s);
            r.out == Done(env) && r.s.heap == Put(s.heap, m, "b", IntV(i))
  {
    ThreeParts();
    AssignThroughLoop(s.heap, f, m, i);
    SingleAssign(cx, fuel, env, f, "a.b.b", Text(Lit(CInt(i))), s);
  }

  /**
   A run in which the value cannot be read back: when the variable a is a map, the statements
   `a.b: a` and `a.b.b: i` succeed, and reading `a.b.b` then fails.
   */
  lemma ReadBackCanFail(cx: Ctx, fuel: nat, env: Env, f: nat, m: nat, i: int64, s: State)
    requires OwnMap(env, s.heap, f, m)
    ensures var r := EvalArray(cx, fuel, env, f, [Assign("a.b", Text(Path("a", []))),
                                                  Assign("a.b.b", Text(Lit(CInt(i))))], s);
            r.out == Done(env) && EvalExpr(cx, fuel, Path("a", ["b", "b"]), f, r.s).out == Fail
  {
    var a1, a2 := Assign("a.b", Text(Path("a", []))), Assign("a.b.b", Text(Lit(CInt(i))));
    MakesLoop(cx, fuel, env, f, m, s);
    var r1 := EvalObject(cx, fuel, env, f, a1, s);
    AssignThroughLoop(r1.s.heap, f, m, i);
    CutsLoop(cx, fuel, env, f, m, i, r1.s);
    SingletonArray(cx, fuel, env, f, a2, r1.s);
    assert [a1, a2][1..] == [a2];
  }

  // ---------------------------------------------------------------- cycles

  /** The old maps that the assigned value leads to, and the new maps. */
  ghost predicate Behind(h: Heap, v: Val, x: nat) {
    |h| <= x || ValReaches(h, v, x)
  }

  lemma NewEdge(h: Heap, t: nat, rest: seq<string>, v: Val, h': Heap, a: nat, b: nat)
    requires Updated(h, t, rest, v, h') && WellFormed(h) && ValIn(v, All(), |h|)
    requires Edge(h', a, b)
    ensures a < |h| ==> Edge(h, a, b) || (a == t && Behind(h, v, b))
    ensures |h| <= a ==> a < b || Mentions(v, b)
  {
    var k :| k in h'[a] && Mentions(h'[a][k], b);
    if |h| <= a {
      assert h'[|h| + (a - |h|)] == ChainMap(|h|, rest, a - |h|, v);
    } else if a == t && k == rest[0] {
      if |rest| == 1 { ReachesSelf(h, b); }
    } else {
      assert k in h[a] && h[a][k] == h'[a][k];
    }
  }

  lemma BehindClosed(h: Heap, t: nat, rest: seq<string>, v: Val, h': Heap, a: nat, b: nat)
    requires Updated(h, t, rest, v, h') && WellFormed(h) && ValIn(v, All(), |h|)
    requires !ValReaches(h, v, t) && Edge(h', a, b) && Behind(h, v, a)
    ensures Behind(h, v, b) && (a < |h| ==> b < |h| && Edge(h, a, b)) && (|h| <= a && |h| <= b ==> a < b)
  {
    NewEdge(h, t, rest, v, h', a, b);
    if a < |h| {
      var r :| Mentions(v, r) && Reaches(h, r, a);
      ReachesStep(h, r, a, b);
      EdgeInside(h, a, b);
    } else if Mentions(v, b) {
      MentionedIn(v, |h|, b);
      ReachesSelf(h, b);
    }
  }

  /** A walk that is behind the value once stays there; before the old maps it climbs. */
  lemma {:induction false} StaysBehind(h: Heap, t: nat, rest: seq<string>, v: Val, h': Heap, p: seq<nat>, i: nat,
                                       j: nat)
    requires Updated(h, t, rest, v, h') && WellFormed(h) && ValIn(v, All(), |h|) && !ValReaches(h, v, t)
    requires IsPath(h', p) && i <= j < |p| && Behind(h, v, p[i])
    ensures Behind(h, v, p[j])
    ensures p[i] < |h| ==> p[j] < |h|
    ensures |h| <= p[j] && i < j ==> p[i] < p[j]
    decreases j - i
  {
    if i < j {
      StaysBehind(h, t, rest, v, h', p, i, j - 1);
      assert Edge(h', p[j - 1], p[j - 1 + 1]);
      BehindClosed(h, t, rest, v, h', p[j - 1], p[j]);
    }
  }

  lemma NoCycleWithoutReach(h: Heap, t: nat, rest: seq<string>, v: Val, h': Heap)
    requires Updated(h, t, rest, v, h') && WellFormed(h) && ValIn(v, All(), |h|)
    requires Acyclic(h) && !ValReaches(h, v, t)
    ensures Acyclic(h')
  {
    forall p | IsPath(h', p) && |p| >= 2
      ensures p[0] != p[|p| - 1]
    {
      var last := |p| - 1;
      if p[0] == p[last] {
        if Behind(h, v, p[0]) && |h| <= p[0] {
          StaysBehind(h, t, rest, v, h', p, 0, last);
        } else {
          forall i | 0 <= i < last
            ensures Edge(h, p[i], p[i + 1])
          {
            assert Edge(h', p[i], p[i + 1]);
            if Behind(h, v, p[0]) {
              StaysBehind(h, t, rest, v, h', p, 0, i);
              BehindClosed(h, t, rest, v, h', p[i], p[i + 1]);
            } else {
              if Behind(h, v, p[i]) { StaysBehind(h, t, rest, v, h', p, i, last); }
              if Behind(h, v, p[i + 1]) { StaysBehind(h, t, rest, v, h', p, i + 1, last); }
              NewEdge(h, t, rest, v, h', p[i], p[i + 1]);
            }
          }
          assert IsPath(h, p);
        }
      }
    }
  }

  lemma {:induction false} FirstVisit(p: seq<nat>, t: nat) returns (j: nat)
    requires |p| >= 1 && p[|p| - 1] == t
    ensures j < |p| && p[j] == t && forall i | 0 <= i < j :: p[i] != t
  {
    if p[0] == t {
      j := 0;
    } else {
      var k := FirstVisit(p[1..], t);
      j := k + 1;
      assert forall i | 0 < i < j :: p[i] == p[1..][i - 1];
    }
  }

  lemma CycleFromReach(h: Heap, t: nat, rest: seq<string>, v: Val, h': Heap)
    requires Updated(h, t, rest, v, h') && ValReaches(h, v, t)
    ensures !Acyclic(h')
  {
    var r :| Mentions(v, r) && Reaches(h, r, t);
    var p :| IsPath(h, p) && p[0] == r && p[|p| - 1] == t;
    var j := FirstVisit(p, t);
    var m := |rest| - 1;
    var chain := seq(m, i requires 0 <= i => |h| + i);
    var q := [t] + chain + p[..j + 1];
    forall i | 0 <= i < |q| - 1
      ensures Edge(h', q[i], q[i + 1])
    {
      if i == 0 {
        assert rest[0] in h'[t];
      } else if i <= m {
        assert h'[|h| + (i - 1)] == ChainMap(|h|, rest, i - 1, v);
        assert rest[i] in h'[q[i]];
      } else {
        var a := i - m - 1;
        assert q[i] == p[a] && q[i + 1] == p[a + 1];
        assert Edge(h, p[a], p[a + 1]) && p[a] != t;
      }
    }
    assert IsPath(h', q) && q[|q| - 1] == t;
  }

  /** The map graph stays acyclic exactly when the value does not lead back to the written map. */
  lemma AcyclicExactly(h: Heap, r: nat, names: seq<string>, v: Val)
    requires |names| >= 1 && WellFormed(h) && Acyclic(h) && r < |h| && ValIn(v, All(), |h|)
    requires AssignAt(h, r, names, v).Some?
    ensures Acyclic(AssignAt(h, r, names, v).value) <==> !ValReaches(h, v, Anchor(h, r, names))
  {
    AssignWritesOneSlot(h, r, names, v);
    var t, rest, h' := Anchor(h, r, names), Missing(h, r, names), AssignAt(h, r, names, v).value;
    if ValReaches(h, v, t) {
      CycleFromReach(h, t, rest, v, h');
    } else {
      NoCycleWithoutReach(h, t, rest, v, h');
    }
  }
}
