/** Expressions whose outcome is always the same. */
module Steadiness {
  import opened Text
  import opened Values
  import opened Syntax
  import opened Semantics
  import opened Ownership
  import opened Scoping
  import opened DottedAssignment
  import opened Renaming
  import opened Purity

  // An expression is steady when it only allocates maps and always has the same outcome. Its value may
  // come with new maps, which may refer to each other in any way, cycles included; "the same" is then
  // up to the identity of these maps.

  // ---------------------------------------------------------------- values with new maps

  /**
   A value and the new maps that come with it. When n maps were there, the new ones are numbered from
   n on in the references of the value and of the new maps.
   */
  datatype Made = Made(v: Val, ms: seq<GoMap>)

  /** A value without new maps. */
  function Old(v: Val): Made {
    Made(v, [])
  }

  /** A new map whose values are without new maps. */
  function Fresh(n: nat, m: GoMap): Made {
    Made(MapV(n), [m])
  }

  ghost predicate MadeIn(made: Made, n: nat) {
    && ValIn(made.v, All(), n + |made.ms|)
    && forall i | 0 <= i < |made.ms| :: MapIn(made.ms[i], All(), n + |made.ms|)
  }

  /** Old references stand for themselves, and number n + i for k[i]. */
  function Placed(n: nat, k: seq<nat>): Ren {
    Ren(map a: nat | 0 <= a < n + |k| && IsRef(a) :: if a < n then a else k[a - n], map[])
  }

  /** In the heap g, v is the made value, with its new maps at k, all of them from lo on. */
  ghost predicate MadeAt(n: nat, made: Made, lo: nat, g: Heap, v: Val, k: seq<nat>) {
    && |k| == |made.ms| && NoDuplicates(k)
    && (forall i | 0 <= i < |k| :: lo <= k[i] < |g| && RelMap(Placed(n, k), made.ms[i], g[k[i]]))
    && RelVal(Placed(n, k), made.v, v)
  }

  /** The run r from state g only allocates maps and has the outcome o; None is a failure. */
  ghost predicate Gives(h: Heap, g: State, r: Res<Val>, o: Option<Made>) {
    && OnlyAdds(g, r.s)
    && match o
       case None => r.out.Fail?
       case Some(made) =>
         r.out.Done? && MadeIn(made, |h|) && exists k :: MadeAt(|h|, made, |g.heap|, r.s.heap, r.out.value, k)
  }

  /** In frame f, e has the outcome o, whatever has been written in the slots W, sent or chosen. */
  ghost predicate Steady(cx: Ctx, fuel: nat, e: Expr, f: nat, h: Heap, W: Slots, o: Option<Made>) {
    forall g: State | Sees(h, W, g.heap) :: Gives(h, g, EvalExpr(cx, fuel, e, f, g), o)
  }

  // ---------------------------------------------------------------- without new maps

  lemma {:induction false} SameOld(n: nat, k: seq<nat>, v: Val)
    requires ValIn(v, All(), n)
    ensures RelVal(Placed(n, k), v, v)
    decreases v
  {
    if v.ListV? {
      forall i | 0 <= i < |v.elems| ensures RelVal(Placed(n, k), v.elems[i], v.elems[i]) {
        SameOld(n, k, v.elems[i]);
      }
    }
  }

  /** What corresponds to a value, when references stand for themselves. */
  lemma {:induction false} OnlyItself(p: Ren, v: Val, w: Val)
    requires RelVal(p, v, w) && forall a | a in p.to && Mentions(v, a) :: p.to[a] == a
    ensures v == w
    decreases v
  {
    if v.ListV? {
      forall i | 0 <= i < |v.elems| ensures v.elems[i] == w.elems[i] {
        assert forall a | Mentions(v.elems[i], a) :: Mentions(v, a);
        OnlyItself(p, v.elems[i], w.elems[i]);
      }
    }
  }

  /** An outcome without new maps is an outcome with the same value. */
  lemma GivesOld(h: Heap, g: State, r: Res<Val>, v: Val)
    requires ValIn(v, All(), |h|) && OnlyAdds(g, r.s)
    ensures Gives(h, g, r, Some(Old(v))) <==> r.out == Done(v)
  {
    SameOld(|h|, [], v);
    if r.out == Done(v) {
      assert MadeAt(|h|, Old(v), |g.heap|, r.s.heap, v, []);
    }
    if Gives(h, g, r, Some(Old(v))) {
      var k :| MadeAt(|h|, Old(v), |g.heap|, r.s.heap, r.out.value, k);
      forall a | a in Placed(|h|, k).to && Mentions(v, a) ensures Placed(|h|, k).to[a] == a { MentionedIn(v, |h|, a); }
      OnlyItself(Placed(|h|, k), v, r.out.value);
    }
  }

  lemma GivesFresh(h: Heap, g: State, r: Res<Val>, m: GoMap)
    requires MapIn(m, All(), |h|) && OnlyAdds(g, r.s) && r.out.Done? && r.out.value.MapV?
    requires |g.heap| <= r.out.value.ref < |r.s.heap| && r.s.heap[r.out.value.ref] == m
    ensures Gives(h, g, r, Some(Fresh(|h|, m)))
  {
    var n, k := |h|, [r.out.value.ref];
    forall c | c in m ensures RelVal(Placed(n, k), m[c], m[c]) { SameOld(n, k, m[c]); }
    MapInMono(m, All(), n, n + 1);
    assert Placed(n, k).to[n] == k[0];
    assert MadeAt(n, Fresh(n, m), |g.heap|, r.s.heap, r.out.value, k);
  }

  function MadeOf(x: Outcome<Val>): Option<Made> {
    if x.Done? then Some(Old(x.value)) else None
  }

  lemma GivesOutcome(h: Heap, g: State, r: Res<Val>, x: Outcome<Val>)
    requires OnlyAdds(g, r.s) && r.out == x && !x.OutOfFuel? && (x.Done? ==> ValIn(x.value, All(), |h|))
    ensures Gives(h, g, r, MadeOf(x))
  {
    if x.Done? { GivesOld(h, g, r, x.value); }
  }

  // ---------------------------------------------------------------- steady expressions

  lemma {:induction false} PureIn(h: Heap, m: GoMap, e: Expr)
    requires Simple(e) && WellFormed(h) && MapIn(m, All(), |h|) && |h| > 0
    ensures PureEval(h, m, e).Done? ==> ValIn(PureEval(h, m, e).value, All(), |h|)
    decreases e
  {
    match e
    case Lit(_) =>
    case Path(root, fields) => if root in m { SelectIn(h, m[root], fields, All(), 0); }
    case Not(_) =>
    case And(_, _) =>
    case Bin(_, l, r) => PureIn(h, m, l); PureIn(h, m, r);
  }

  /** Simple expressions are steady when they do not read the slots W. */
  lemma SimpleSteady(cx: Ctx, fuel: nat, e: Expr, f: nat, h: Heap, W: Slots)
    requires Simple(e) && WellFormed(h) && f < |h|
    requires forall x | x in Roots(e) :: (f, x) !in W
    requires forall q: nat, c: string | (q, c) in W :: !Reads(h, h[f], e, q, c)
    ensures Steady(cx, fuel, e, f, h, W, MadeOf(PureEval(h, h[f], e)))
  {
    forall g: State | Sees(h, W, g.heap)
      ensures Gives(h, g, EvalExpr(cx, fuel, e, f, g), MadeOf(PureEval(h, h[f], e)))
    {
      SimpleEval(cx, fuel, e, f, g);
      PureStable(h, W, g.heap, h[f], g.heap[f], e);
      PureEnds(h, h[f], e);
      PureIn(h, h[f], e);
      GivesOutcome(h, g, EvalExpr(cx, fuel, e, f, g), PureEval(h, h[f], e));
    }
  }

  lemma ConfigSteady(cx: Ctx, fuel: nat, f: nat, h: Heap, W: Slots)
    ensures Steady(cx, fuel, KabaneroConfig, f, h, W, Some(Fresh(|h|, map["namespace" := StrV(cx.namespace_)])))
  {
    var m := map["namespace" := StrV(cx.namespace_)];
    forall g: State | Sees(h, W, g.heap)
      ensures Gives(h, g, EvalExpr(cx, fuel, KabaneroConfig, f, g), Some(Fresh(|h|, m)))
    {
      GivesFresh(h, g, EvalExpr(cx, fuel, KabaneroConfig, f, g), m);
    }
  }

  // Operators on steady operands are steady.

  lemma SteadyRun(cx: Ctx, fuel: nat, e: Expr, f: nat, h: Heap, W: Slots, o: Option<Made>, g: State)
    requires Steady(cx, fuel, e, f, h, W, o) && Sees(h, W, g.heap)
    ensures Gives(h, g, EvalExpr(cx, fuel, e, f, g), o)
  {
  }

  /** An operand without new maps, and the state it leaves. */
  lemma OperandRuns(cx: Ctx, fuel: nat, e: Expr, f: nat, h: Heap, W: Slots, x: Outcome<Val>, g: State)
    requires Steady(cx, fuel, e, f, h, W, MadeOf(x)) && !x.OutOfFuel? && Sees(h, W, g.heap)
    ensures var r := EvalExpr(cx, fuel, e, f, g);
            OnlyAdds(g, r.s) && r.out == x && Sees(h, W, r.s.heap) && (x.Done? ==> ValIn(x.value, All(), |h|))
  {
    SteadyRun(cx, fuel, e, f, h, W, MadeOf(x), g);
    OutcomeOf(h, W, x, g, EvalExpr(cx, fuel, e, f, g));
  }

  lemma OutcomeOf(h: Heap, W: Slots, x: Outcome<Val>, g: State, r: Res<Val>)
    requires Gives(h, g, r, MadeOf(x)) && !x.OutOfFuel? && Sees(h, W, g.heap)
    ensures OnlyAdds(g, r.s) && r.out == x && Sees(h, W, r.s.heap) && (x.Done? ==> ValIn(x.value, All(), |h|))
  {
    if x.Done? { GivesOld(h, g, r, x.value); }
    SeesMore(h, W, g.heap, r.s.heap);
  }

  lemma NotSteady(cx: Ctx, fuel: nat, a: Expr, f: nat, h: Heap, W: Slots, x: Outcome<Val>)
    requires Steady(cx, fuel, a, f, h, W, MadeOf(x)) && !x.OutOfFuel?
    ensures Steady(cx, fuel, Not(a), f, h, W, MadeOf(Negate(x)))
  {
    forall g: State | Sees(h, W, g.heap) ensures Gives(h, g, EvalExpr(cx, fuel, Not(a), f, g), MadeOf(Negate(x))) {
      OperandRuns(cx, fuel, a, f, h, W, x, g);
      GivesOutcome(h, g, EvalExpr(cx, fuel, Not(a), f, g), Negate(x));
    }
  }

  lemma AndSteady(cx: Ctx, fuel: nat, l: Expr, r: Expr, f: nat, h: Heap, W: Slots, x: Outcome<Val>, y: Outcome<Val>)
    requires Steady(cx, fuel, l, f, h, W, MadeOf(x)) && Steady(cx, fuel, r, f, h, W, MadeOf(y))
    requires !x.OutOfFuel? && !y.OutOfFuel?
    ensures Steady(cx, fuel, And(l, r), f, h, W, MadeOf(if x == Done(BoolV(false)) then x else Conjoin(x, y)))
  {
    var o := if x == Done(BoolV(false)) then x else Conjoin(x, y);
    forall g: State | Sees(h, W, g.heap) ensures Gives(h, g, EvalExpr(cx, fuel, And(l, r), f, g), MadeOf(o))
    {
      OperandRuns(cx, fuel, l, f, h, W, x, g);
      var g1 := EvalExpr(cx, fuel, l, f, g).s;
      OperandRuns(cx, fuel, r, f, h, W, y, g1);
      AndUnfolds(cx, fuel, And(l, r), f, g);
      ConjoinIn(x, y, |h|);
      GivesOutcome(h, g, EvalExpr(cx, fuel, And(l, r), f, g), o);
    }
  }

  lemma BinSteady(cx: Ctx, fuel: nat, op: BinOp, l: Expr, r: Expr, f: nat, h: Heap, W: Slots, v: Val, w: Val)
    requires Steady(cx, fuel, l, f, h, W, Some(Old(v))) && Steady(cx, fuel, r, f, h, W, Some(Old(w)))
    ensures Steady(cx, fuel, Bin(op, l, r), f, h, W, MadeOf(ApplyBin(op, v, w)))
  {
    var e := Bin(op, l, r);
    forall g: State | Sees(h, W, g.heap)
      ensures Gives(h, g, EvalExpr(cx, fuel, e, f, g), MadeOf(ApplyBin(op, v, w)))
    {
      OperandRuns(cx, fuel, l, f, h, W, Done(v), g);
      var g1 := EvalExpr(cx, fuel, l, f, g).s;
      OperandRuns(cx, fuel, r, f, h, W, Done(w), g1);
      BinUnfolds(cx, fuel, e, f, g);
      BinIn(op, v, w, |h|);
      GivesOutcome(h, g, EvalExpr(cx, fuel, e, f, g), ApplyBin(op, v, w));
    }
  }

  lemma ConjoinIn(x: Outcome<Val>, y: Outcome<Val>, n: nat)
    requires !x.OutOfFuel? && !y.OutOfFuel?
    ensures !Conjoin(x, y).OutOfFuel?
    ensures Conjoin(x, y).Done? ==> ValIn(Conjoin(x, y).value, All(), n)
  {
  }

  lemma BinIn(op: BinOp, v: Val, w: Val, n: nat)
    requires ValIn(v, All(), n) && ValIn(w, All(), n)
    ensures !ApplyBin(op, v, w).OutOfFuel?
    ensures ApplyBin(op, v, w).Done? ==> ValIn(ApplyBin(op, v, w).value, All(), n)
  {
  }
}
