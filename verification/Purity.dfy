/** Expressions without effects. */
module Purity {
  import opened Text
  import opened Values
  import opened Syntax
  import opened Semantics
  import opened Ownership
  import opened Scoping
  import Renaming
  import Termination

  // An expression may call functions and allocate maps and still have no effect: it writes no map that
  // was there, sends and creates nothing, and its result depends on nothing that other statements or
  // the iteration order may change. This is a property of its runs, not of its form. The slots W are
  // those that may have been written in the meantime.

  type Slots = iset<(nat, string)>

  /** Slots that never change. */
  ghost function NoSlots(): Slots {
    iset q: nat, c: string | q < 0 :: (q, c)
  }

  /** g has the maps of h, which may differ in the slots W, and possibly more maps. */
  ghost predicate Sees(h: Heap, W: Slots, g: Heap) {
    && |h| <= |g|
    && forall q: nat, c: string | q < |h| && (q, c) !in W ::
         (c in g[q] <==> c in h[q]) && (c in h[q] ==> g[q][c] == h[q][c])
  }

  /** A step that only allocates maps. */
  ghost predicate OnlyAdds(s: State, t: State) {
    s.heap <= t.heap && t.trace == s.trace
  }

  lemma SeesSelf(h: Heap, W: Slots)
    ensures Sees(h, W, h)
  {
  }

  lemma SeesMore(h: Heap, W: Slots, g: Heap, g': Heap)
    requires Sees(h, W, g) && g <= g'
    ensures Sees(h, W, g')
  {
    assert forall q | 0 <= q < |g| :: g'[q] == g[q];
  }

  lemma SeesThrough(h: Heap, W: Slots, h': Heap, g: Heap)
    requires h <= h' && Sees(h', W, g)
    ensures Sees(h, W, g)
  {
    assert forall q | 0 <= q < |h| :: h'[q] == h[q];
  }

  // ---------------------------------------------------------------- conditions

  /** What the condition gives on the bindings m, when the maps are h. */
  function Verdict(cx: Ctx, fuel: nat, env: Env, p: Source, h: Heap, m: GoMap): Outcome<bool> {
    EvalCondition(cx, fuel, env, p, |h|, State(h + [m], [], 0)).out
  }

  /**
   The condition has no effect on the bindings m: wherever they are, and whatever has been written in
   the slots W, sent or chosen in the meantime, it only allocates maps and has the same verdict.
   */
  ghost predicate EffectFree(cx: Ctx, fuel: nat, env: Env, p: Source, h: Heap, W: Slots, m: GoMap) {
    forall s: State, f: nat | Sees(h, W, s.heap) && |h| <= f < |s.heap| && s.heap[f] == m ::
      var r := EvalCondition(cx, fuel, env, p, f, s);
      OnlyAdds(s, r.s) && r.out == Verdict(cx, fuel, env, p, h, m)
  }

  lemma EffectFreeRun(cx: Ctx, fuel: nat, env: Env, p: Source, h: Heap, W: Slots, m: GoMap, s: State)
    requires EffectFree(cx, fuel, env, p, h, W, m) && Sees(h, W, s.heap)
    ensures var r := EvalCondition(cx, fuel, env, p, |s.heap|, Alloc(s, m));
            OnlyAdds(s, r.s) && r.out == Verdict(cx, fuel, env, p, h, m) && Sees(h, W, r.s.heap)
  {
    var s1 := Alloc(s, m);
    SeesMore(h, W, s.heap, s1.heap);
    assert s1.heap[|s.heap|] == m;
    var r := EvalCondition(cx, fuel, env, p, |s.heap|, s1);
    SeesMore(h, W, s1.heap, r.s.heap);
  }

  /** What is effect free stays so when there are more maps, with the same verdict. */
  lemma EffectFreeLater(cx: Ctx, fuel: nat, env: Env, p: Source, h: Heap, W: Slots, m: GoMap, h': Heap)
    requires EffectFree(cx, fuel, env, p, h, W, m) && h <= h'
    ensures EffectFree(cx, fuel, env, p, h', W, m)
    ensures Verdict(cx, fuel, env, p, h', m) == Verdict(cx, fuel, env, p, h, m)
  {
    var s0 := State(h' + [m], [], 0);
    SeesSelf(h, W);
    SeesMore(h, W, h, s0.heap);
    assert s0.heap[|h'|] == m;
    forall s: State, f: nat | Sees(h', W, s.heap) && |h'| <= f < |s.heap| && s.heap[f] == m
      ensures var r := EvalCondition(cx, fuel, env, p, f, s);
              OnlyAdds(s, r.s) && r.out == Verdict(cx, fuel, env, p, h', m)
    {
      SeesThrough(h, W, h', s.heap);
    }
  }

  // ---------------------------------------------------------------- conjunctions

  function Conjunction(p: Source, q: Source): Source
    requires p.Text? && q.Text?
  {
    Text(And(p.e, q.e))
  }

  /** A bool comes from an expression that the type check takes for a bool or leaves open. */
  lemma BoolTyped(cx: Ctx, fuel: nat, env: Env, e: Expr, f: nat, s: State)
    requires Agrees(env, At(s.heap, f)) && TypeOf(env, e).Some?
    requires EvalExpr(cx, fuel, e, f, s).out.Done? && EvalExpr(cx, fuel, e, f, s).out.value.BoolV?
    ensures Accepts(TypeOf(env, e), TBool)
  {
    match e
    case Path(root, fields) =>
      if fields == [] {
        assert Select(s.heap, At(s.heap, f)[root], fields) == Done(At(s.heap, f)[root]);
      }
    case SendEvent(_, _, _) => SendGivesText(cx, fuel, e, f, s);
    case ApplyResources(_, _) => ApplyGivesText(cx, fuel, e, f, s);
    case _ =>
  }

  lemma SendGivesText(cx: Ctx, fuel: nat, e: Expr, f: nat, s: State)
    requires e.SendEvent? && EvalExpr(cx, fuel, e, f, s).out.Done?
    ensures EvalExpr(cx, fuel, e, f, s).out.value.StrV?
  {
    assert EvalExpr(cx, fuel, e, f, s) == EvalSend(cx, fuel, e, f, s);
  }

  lemma ApplyGivesText(cx: Ctx, fuel: nat, e: Expr, f: nat, s: State)
    requires e.ApplyResources? && EvalExpr(cx, fuel, e, f, s).out.Done?
    ensures EvalExpr(cx, fuel, e, f, s).out.value.StrV?
  {
    assert EvalExpr(cx, fuel, e, f, s) == EvalApply(cx, fuel, e, f, s);
  }

  /** The conjunction in one state: the second condition runs in what the first leaves. */
  lemma ConjunctionRuns(cx: Ctx, fuel: nat, env: Env, p: Source, q: Source, f: nat, s: State)
    requires p.Text? && q.Text? && Agrees(env, At(s.heap, f))
    requires Accepts(TypeOf(env, p.e), TBool) && Accepts(TypeOf(env, q.e), TBool)
    requires EvalCondition(cx, fuel, env, p, f, s).out.Done?
    ensures var x := EvalCondition(cx, fuel, env, p, f, s);
            var y := EvalCondition(cx, fuel, env, q, f, x.s);
            var r := EvalCondition(cx, fuel, env, Conjunction(p, q), f, s);
            if !x.out.value then r == x else y.out.Done? ==> r == y
  {
    var e := And(p.e, q.e);
    Renaming.ConditionUnfolds(cx, fuel, env, p, f, s);
    Renaming.ConditionUnfolds(cx, fuel, env, q, f, EvalExpr(cx, fuel, p.e, f, s).s);
    Renaming.ConditionUnfolds(cx, fuel, env, Conjunction(p, q), f, s);
    Renaming.AndUnfolds(cx, fuel, e, f, s);
    var x := EvalExpr(cx, fuel, p.e, f, s);
    ConjoinBools(x, EvalExpr(cx, fuel, q.e, f, x.s));
  }

  lemma ConjoinBools(x: Res<Val>, y: Res<Val>)
    requires BoolOf(x).out.Done?
    ensures BoolOf(if x.out == Done(BoolV(false)) then x else Res(y.s, Conjoin(x.out, y.out)))
         == if !BoolOf(x).out.value then BoolOf(x)
            else if BoolOf(y).out.Done? then BoolOf(y)
            else BoolOf(Res(y.s, Conjoin(x.out, y.out)))
  {
  }

  /** The conjunction gives what the second condition gives where the first holds, else false. */
  lemma ConjunctionVerdict(cx: Ctx, fuel: nat, env: Env, h: Heap, W: Slots, m: GoMap, p: Source, q: Source)
    requires p.Text? && q.Text? && Agrees(env, m) && Accepts(TypeOf(env, q.e), TBool)
    requires EffectFree(cx, fuel, env, p, h, W, m) && Verdict(cx, fuel, env, p, h, m).Done?
    requires Verdict(cx, fuel, env, p, h, m).value ==>
               EffectFree(cx, fuel, env, q, h, W, m) && Verdict(cx, fuel, env, q, h, m).Done?
    ensures EffectFree(cx, fuel, env, Conjunction(p, q), h, W, m)
    ensures Verdict(cx, fuel, env, Conjunction(p, q), h, m)
         == if Verdict(cx, fuel, env, p, h, m).value then Verdict(cx, fuel, env, q, h, m) else Done(false)
  {
    var b := if Verdict(cx, fuel, env, p, h, m).value then Verdict(cx, fuel, env, q, h, m) else Done(false);
    VerdictChecked(cx, fuel, env, h, m, p);
    SeesStart(h, W, m);
    ConjunctionRun(cx, fuel, env, h, W, m, p, q, |h|, State(h + [m], [], 0));
    forall s: State, f: nat | Sees(h, W, s.heap) && |h| <= f < |s.heap| && s.heap[f] == m
      ensures var r := EvalCondition(cx, fuel, env, Conjunction(p, q), f, s); OnlyAdds(s, r.s) && r.out == b
    {
      ConjunctionRun(cx, fuel, env, h, W, m, p, q, f, s);
    }
  }

  lemma SeesStart(h: Heap, W: Slots, m: GoMap)
    ensures Sees(h, W, h + [m]) && (h + [m])[|h|] == m
  {
    SeesSelf(h, W);
    SeesMore(h, W, h, h + [m]);
  }

  /** A condition that has a verdict has passed the type check. */
  lemma VerdictChecked(cx: Ctx, fuel: nat, env: Env, h: Heap, m: GoMap, p: Source)
    requires p.Text? && Agrees(env, m) && Verdict(cx, fuel, env, p, h, m).Done?
    ensures Accepts(TypeOf(env, p.e), TBool)
  {
    BoolTyped(cx, fuel, env, p.e, |h|, State(h + [m], [], 0));
  }

  /** One run of the conjunction. */
  lemma ConjunctionRun(cx: Ctx, fuel: nat, env: Env, h: Heap, W: Slots, m: GoMap, p: Source, q: Source, f: nat,
                       s: State)
    requires p.Text? && q.Text? && Agrees(env, m) && Accepts(TypeOf(env, q.e), TBool)
    requires EffectFree(cx, fuel, env, p, h, W, m) && Verdict(cx, fuel, env, p, h, m).Done?
    requires Verdict(cx, fuel, env, p, h, m).value ==>
               EffectFree(cx, fuel, env, q, h, W, m) && Verdict(cx, fuel, env, q, h, m).Done?
    requires Accepts(TypeOf(env, p.e), TBool) && Sees(h, W, s.heap) && |h| <= f < |s.heap| && s.heap[f] == m
    ensures var r := EvalCondition(cx, fuel, env, Conjunction(p, q), f, s);
            && OnlyAdds(s, r.s)
            && r.out == if Verdict(cx, fuel, env, p, h, m).value then Verdict(cx, fuel, env, q, h, m) else Done(false)
  {
    var x := EvalCondition(cx, fuel, env, p, f, s);
    ConjunctionRuns(cx, fuel, env, p, q, f, s);
    SeesMore(h, W, s.heap, x.s.heap);
    assert x.s.heap[f] == m;
  }

  /** A conjunction whose second condition does not check fails. */
  lemma ConjunctionUnchecked(cx: Ctx, fuel: nat, env: Env, p: Source, q: Source, f: nat, s: State)
    requires p.Text? && q.Text? && !Accepts(TypeOf(env, q.e), TBool)
    ensures EvalCondition(cx, fuel, env, Conjunction(p, q), f, s) == Res(s, Fail)
  {
  }

  // ---------------------------------------------------------------- reads and operators

  /** Reads and operators only: no calls, effects, nested filters or new maps. */
  predicate Simple(e: Expr)
    decreases e
  {
    match e
    case Lit(_) => true
    case Path(_, _) => true
    case Not(a) => Simple(a)
    case And(l, r) => Simple(l) && Simple(r)
    case Bin(_, l, r) => Simple(l) && Simple(r)
    case _ => false
  }

  /** The value of a simple expression, from the heap and the bindings alone. */
  function PureEval(h: Heap, m: GoMap, e: Expr): Outcome<Val>
    requires Simple(e)
    decreases e
  {
    match e
    case Lit(c) => Done(ConstVal(c))
    case Path(root, fields) => ReadPath(h, m, root, fields)
    case Not(a) => Negate(PureEval(h, m, a))
    case And(l, r) =>
      if PureEval(h, m, l) == Done(BoolV(false)) then Done(BoolV(false))
      else Conjoin(PureEval(h, m, l), PureEval(h, m, r))
    case Bin(op, l, r) =>
      (match Both(PureEval(h, m, l), PureEval(h, m, r))
       case Done((a, b)) => ApplyBin(op, a, b)
       case Fail => Fail
       case OutOfFuel => OutOfFuel)
  }

  lemma {:induction false} SimpleEval(cx: Ctx, fuel: nat, e: Expr, vars: nat, s: State)
    requires Simple(e)
    ensures EvalExpr(cx, fuel, e, vars, s) == Res(s, PureEval(s.heap, At(s.heap, vars), e))
    decreases e
  {
    match e
    case Lit(_) =>
    case Path(_, _) =>
    case Not(a) => SimpleEval(cx, fuel, a, vars, s);
    case And(l, r) => SimpleEval(cx, fuel, l, vars, s); SimpleEval(cx, fuel, r, vars, s);
    case Bin(_, l, r) => SimpleEval(cx, fuel, l, vars, s); SimpleEval(cx, fuel, r, vars, s);
  }

  lemma {:induction false} PureEnds(h: Heap, m: GoMap, e: Expr)
    requires Simple(e)
    ensures PureEval(h, m, e) != OutOfFuel
    decreases e
  {
    match e
    case Lit(_) =>
    case Path(root, fields) => if root in m { Termination.StepEnds(h, m[root], fields); }
    case Not(a) => PureEnds(h, m, a);
    case And(l, r) => PureEnds(h, m, l); PureEnds(h, m, r);
    case Bin(_, l, r) => PureEnds(h, m, l); PureEnds(h, m, r);
  }

  /** The variables that e names. */
  function Roots(e: Expr): set<string>
    decreases e
  {
    match e
    case Lit(_) => {}
    case Path(root, _) => {root}
    case Not(a) => Roots(a)
    case And(l, r) => Roots(l) + Roots(r)
    case Bin(_, l, r) => Roots(l) + Roots(r)
    case KabaneroConfig => {}
    case Call(f, p) => Roots(f) + Roots(p)
    case Filter(c, _) => Roots(c)
    case SendEvent(d, m, c) => Roots(d) + Roots(m) + Roots(c)
    case ApplyResources(d, v) => Roots(d) + Roots(v)
  }

  ghost predicate SelectReads(h: Heap, v: Val, fields: seq<string>, q: nat, c: string)
    decreases |fields|
  {
    && fields != [] && v.MapV?
    && ((v.ref == q && fields[0] == c)
        || (fields[0] in At(h, v.ref) && SelectReads(h, At(h, v.ref)[fields[0]], fields[1..], q, c)))
  }

  /** Below its variables, which are bound as in m, e reads slot (q, c), or would on another branch. */
  ghost predicate Reads(h: Heap, m: GoMap, e: Expr, q: nat, c: string)
    requires Simple(e)
    decreases e
  {
    match e
    case Lit(_) => false
    case Path(root, fields) => root in m && SelectReads(h, m[root], fields, q, c)
    case Not(a) => Reads(h, m, a, q, c)
    case And(l, r) => Reads(h, m, l, q, c) || Reads(h, m, r, q, c)
    case Bin(_, l, r) => Reads(h, m, l, q, c) || Reads(h, m, r, q, c)
  }

  lemma {:induction false} SelectStable(h: Heap, W: Slots, g: Heap, v: Val, fields: seq<string>)
    requires Sees(h, W, g) && WellFormed(h) && ValIn(v, All(), |h|)
    requires forall q: nat, c: string | (q, c) in W :: !SelectReads(h, v, fields, q, c)
    ensures Select(g, v, fields) == Select(h, v, fields)
    decreases |fields|
  {
    if fields != [] && v.MapV? {
      assert (v.ref, fields[0]) !in W;
      if fields[0] in h[v.ref] {
        assert MapIn(h[v.ref], All(), |h|);
        SelectStable(h, W, g, h[v.ref][fields[0]], fields[1..]);
      }
    }
  }

  /** The bindings agree on what e names. */
  ghost predicate SameRoots(m: GoMap, m': GoMap, e: Expr) {
    forall x | x in Roots(e) :: (x in m' <==> x in m) && (x in m ==> m'[x] == m[x])
  }

  /** A simple expression that does not read the slots W does not notice that they are written. */
  lemma {:induction false} PureStable(h: Heap, W: Slots, g: Heap, m: GoMap, m': GoMap, e: Expr)
    requires Simple(e) && Sees(h, W, g) && WellFormed(h) && MapIn(m, All(), |h|) && SameRoots(m, m', e)
    requires forall q: nat, c: string | (q, c) in W :: !Reads(h, m, e, q, c)
    ensures PureEval(g, m', e) == PureEval(h, m, e)
    decreases e
  {
    match e
    case Lit(_) =>
    case Path(root, fields) =>
      assert root in Roots(e);
      if root in m { SelectStable(h, W, g, m[root], fields); }
    case Not(a) => PureStable(h, W, g, m, m', a);
    case And(l, r) => BothStable(h, W, g, m, m', e, l, r);
    case Bin(_, l, r) => BothStable(h, W, g, m, m', e, l, r);
  }

  lemma {:induction false} BothStable(h: Heap, W: Slots, g: Heap, m: GoMap, m': GoMap, e: Expr, l: Expr, r: Expr)
    requires Simple(l) && Simple(r) && l < e && r < e
    requires Sees(h, W, g) && WellFormed(h) && MapIn(m, All(), |h|) && SameRoots(m, m', l) && SameRoots(m, m', r)
    requires forall q: nat, c: string | (q, c) in W :: !Reads(h, m, l, q, c) && !Reads(h, m, r, q, c)
    ensures PureEval(g, m', l) == PureEval(h, m, l) && PureEval(g, m', r) == PureEval(h, m, r)
    decreases e, 0
  {
    PureStable(h, W, g, m, m', l);
    PureStable(h, W, g, m, m', r);
  }

  predicate SimplePred(p: Source) {
    p.Text? ==> Simple(p.e)
  }

  /** Conditions made of reads and operators are effect free, unless they read what is written. */
  lemma SimpleEffectFree(cx: Ctx, fuel: nat, env: Env, p: Source, h: Heap, W: Slots, m: GoMap)
    requires SimplePred(p) && WellFormed(h) && MapIn(m, All(), |h|)
    requires p.Text? ==> forall q: nat, c: string | (q, c) in W :: !Reads(h, m, p.e, q, c)
    ensures EffectFree(cx, fuel, env, p, h, W, m) && Verdict(cx, fuel, env, p, h, m) != OutOfFuel
  {
    if p.Text? && TypeOf(env, p.e).Some? {
      var s0 := State(h + [m], [], 0);
      SeesSelf(h, W);
      SeesMore(h, W, h, s0.heap);
      assert s0.heap[|h|] == m;
      SimpleEval(cx, fuel, p.e, |h|, s0);
      PureStable(h, W, s0.heap, m, m, p.e);
      PureEnds(h, m, p.e);
      forall s: State, f: nat | Sees(h, W, s.heap) && |h| <= f < |s.heap| && s.heap[f] == m
        ensures EvalCondition(cx, fuel, env, p, f, s) == Res(s, Verdict(cx, fuel, env, p, h, m))
      {
        SimpleEval(cx, fuel, p.e, f, s);
        PureStable(h, W, s.heap, m, m, p.e);
      }
    }
  }
}
