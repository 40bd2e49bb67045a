/** Which maps a run may write. */
module Ownership {
  import opened Text
  import opened Values
  import opened Syntax
  import opened Semantics
  import opened Effects

  // A region V is a set of references that contains every reference not yet allocated. A frame f is
  // sealed in V when the values stored in f and in the maps of V refer to maps of V only. A run that
  // starts sealed stays sealed, writes maps of V and the frame only, never removes a key, and never
  // takes an effect back. The frame itself need not belong to V: then no value refers to it.

  ghost predicate ValIn(v: Val, V: iset<nat>, n: nat)
    decreases v
  {
    match v
    case MapV(r) => r in V && r < n
    case ListV(es) => forall i | 0 <= i < |es| :: ValIn(es[i], V, n)
    case _ => true
  }

  ghost predicate MapIn(m: GoMap, V: iset<nat>, n: nat) {
    forall k | k in m :: ValIn(m[k], V, n)
  }

  ghost predicate Sealed(h: Heap, V: iset<nat>, f: nat) {
    && f < |h|
    && (forall r: nat | |h| <= r :: r in V)
    && (forall r: nat | r < |h| && (r in V || r == f) :: MapIn(h[r], V, |h|))
  }

  ghost predicate Grows(h: Heap, h': Heap) {
    |h| <= |h'| && forall r | 0 <= r < |h| :: h[r].Keys <= h'[r].Keys
  }

  /** Maps outside V are as before, the frame excepted. */
  ghost predicate Spares(h: Heap, h': Heap, V: iset<nat>, f: nat) {
    |h| <= |h'| && forall r: nat | r < |h| && r !in V && r != f :: h'[r] == h[r]
  }

  ghost predicate TraceKept(cx: Ctx, s: State, s': State) {
    && s.trace <= s'.trace
    && (IsDryRun(cx.settings) ==> s'.trace == s.trace)
    && (Licensed(cx, s.trace) ==> Licensed(cx, s'.trace))
  }

  /** What a statement guarantees. */
  ghost predicate Kept(cx: Ctx, V: iset<nat>, f: nat, s: State, s': State) {
    && Grows(s.heap, s'.heap)
    && Spares(s.heap, s'.heap, V, f)
    && Sealed(s'.heap, V, f)
    && TraceKept(cx, s, s')
  }

  /** What an expression guarantees: the frame keeps its bindings too, unless a value refers to it. */
  ghost predicate KeptExpr(cx: Ctx, V: iset<nat>, f: nat, s: State, s': State) {
    Kept(cx, V, f, s, s') && (f !in V ==> At(s'.heap, f) == At(s.heap, f))
  }

  // ---------------------------------------------------------------- heap steps

  lemma {:induction false} ValInMono(v: Val, V: iset<nat>, n: nat, n': nat)
    requires ValIn(v, V, n) && n <= n'
    ensures ValIn(v, V, n')
    decreases v
  {
    if v.ListV? {
      forall i | 0 <= i < |v.elems|
        ensures ValIn(v.elems[i], V, n')
      {
        ValInMono(v.elems[i], V, n, n');
      }
    }
  }

  lemma MapInMono(m: GoMap, V: iset<nat>, n: nat, n': nat)
    requires MapIn(m, V, n) && n <= n'
    ensures MapIn(m, V, n')
  {
    forall k | k in m
      ensures ValIn(m[k], V, n')
    {
      ValInMono(m[k], V, n, n');
    }
  }

  lemma SealedAlloc(h: Heap, m: GoMap, V: iset<nat>, f: nat)
    requires Sealed(h, V, f) && MapIn(m, V, |h| + 1)
    ensures Sealed(h + [m], V, f) && Sealed(h + [m], V, |h|)
    ensures Grows(h, h + [m])
  {
    var h' := h + [m];
    forall r: nat | r < |h'| && (r in V || r == f)
      ensures MapIn(h'[r], V, |h'|)
    {
      if r < |h| { MapInMono(h[r], V, |h|, |h'|); }
    }
  }

  lemma SealedPut(h: Heap, r: nat, key: string, v: Val, n: nat, V: iset<nat>, f: nat)
    requires Sealed(h, V, f) && (r in V || r == f)
    requires ValIn(v, V, |h|)
    ensures Sealed(Put(h, r, key, v), V, f)
    ensures Grows(h, Put(h, r, key, v)) && Spares(h, Put(h, r, key, v), V, f)
  {
  }

  lemma SealedOther(h: Heap, h': Heap, V: iset<nat>, f: nat, g: nat)
    requires Sealed(h, V, f) && Sealed(h', V, g)
    requires |h| <= |h'| && (f !in V ==> h'[f] == h[f])
    ensures Sealed(h', V, f)
  {
    if f !in V { MapInMono(h[f], V, |h|, |h'|); }
  }

  /** A frame of one's own. */
  lemma KeptAlloc(cx: Ctx, V: iset<nat>, f: nat, m: GoMap, s: State)
    requires Sealed(s.heap, V, f) && MapIn(m, V, |s.heap| + 1)
    ensures KeptExpr(cx, V, f, s, Alloc(s, m)) && Sealed(Alloc(s, m).heap, V, |s.heap|)
  {
    SealedAlloc(s.heap, m, V, f);
  }

  lemma KeptTrans(cx: Ctx, V: iset<nat>, f: nat, s: State, t: State, u: State)
    requires Kept(cx, V, f, s, t) && Kept(cx, V, f, t, u)
    ensures Kept(cx, V, f, s, u)
    ensures KeptExpr(cx, V, f, s, t) && KeptExpr(cx, V, f, t, u) && f < |s.heap| ==> KeptExpr(cx, V, f, s, u)
  {
  }

  /** What is done in a fresh frame g is, seen from frame f, an expression step. */
  lemma KeptNested(cx: Ctx, V: iset<nat>, f: nat, g: nat, s: State, t: State, u: State)
    requires Sealed(s.heap, V, f) && KeptExpr(cx, V, f, s, t)
    requires |s.heap| <= g && Kept(cx, V, g, t, u) && g in V
    ensures KeptExpr(cx, V, f, s, u)
  {
    SealedOther(t.heap, u.heap, V, f, g);
  }

  // ---------------------------------------------------------------- dotted assignment

  lemma {:induction false} AssignAtKept(h: Heap, r: nat, names: seq<string>, v: Val, V: iset<nat>, f: nat)
    requires |names| >= 1
    requires Sealed(h, V, f) && (r in V || r == f)
    requires ValIn(v, V, |h|)
    ensures AssignAt(h, r, names, v).Some? ==>
              var h' := AssignAt(h, r, names, v).value;
              Grows(h, h') && Spares(h, h', V, f) && Sealed(h', V, f)
    decreases |names|
  {
    if |names| == 1 {
      SealedPut(h, r, names[0], v, |h|, V, f);
    } else if names[0] !in At(h, r) {
      SealedAlloc(h, map[], V, f);
      var h1 := h + [map[]];
      SealedPut(h1, r, names[0], MapV(|h|), |h1|, V, f);
      var h2 := Put(h1, r, names[0], MapV(|h|));
      ValInMono(v, V, |h|, |h2|);
      if r < |h| {
        assert h2 == Put(h, r, names[0], MapV(|h|)) + [map[]];
        AssignAtKept(h2, |h|, names[1..], v, V, f);
      } else {
        assert h1 == Put(h, r, names[0], MapV(|h|)) + [map[]];
        ValInMono(v, V, |h|, |h1|);
        AssignAtKept(h1, |h|, names[1..], v, V, f);
      }
    } else if At(h, r)[names[0]].MapV? {
      assert MapIn(h[r], V, |h|);
      AssignAtKept(h, At(h, r)[names[0]].ref, names[1..], v, V, f);
    }
  }

  lemma CreateVariableKept(cx: Ctx, env: Env, vars: nat, name: string, v: Val, s: State, V: iset<nat>)
    requires Sealed(s.heap, V, vars) && ValIn(v, V, |s.heap|)
    ensures Kept(cx, V, vars, s, CreateVariable(cx, env, vars, name, v, s).s)
  {
    var names := SplitDots(name);
    if |names| == 1 {
      SealedPut(s.heap, vars, names[0], v, |s.heap|, V, vars);
    } else {
      AssignAtKept(s.heap, vars, names, v, V, vars);
    }
  }

  // ---------------------------------------------------------------- expressions

  lemma {:induction false} SelectIn(h: Heap, v: Val, fields: seq<string>, V: iset<nat>, f: nat)
    requires Sealed(h, V, f) && ValIn(v, V, |h|)
    ensures Select(h, v, fields).Done? ==> ValIn(Select(h, v, fields).value, V, |h|)
    decreases |fields|
  {
    if fields != [] && v.MapV? && fields[0] in At(h, v.ref) {
      assert MapIn(h[v.ref], V, |h|);
      SelectIn(h, At(h, v.ref)[fields[0]], fields[1..], V, f);
    }
  }

  ghost predicate OutIn(out: Outcome<Val>, V: iset<nat>, n: nat) {
    out.Done? ==> ValIn(out.value, V, n)
  }

  lemma {:induction false} ExprKept(cx: Ctx, fuel: nat, e: Expr, vars: nat, s: State, V: iset<nat>)
    requires Sealed(s.heap, V, vars)
    ensures var r := EvalExpr(cx, fuel, e, vars, s);
            KeptExpr(cx, V, vars, s, r.s) && OutIn(r.out, V, |r.s.heap|)
    decreases fuel, e, 2
  {
    match e
    case Lit(c) =>
    case Path(root, fields) =>
      assert MapIn(s.heap[vars], V, |s.heap|);
      if root in At(s.heap, vars) {
        SelectIn(s.heap, At(s.heap, vars)[root], fields, V, vars);
      }
    case Not(a) =>
      ExprKept(cx, fuel, a, vars, s, V);
    case And(l, r) =>
      PairKept(cx, fuel, e, l, r, vars, s, V);
    case Bin(op, l, r) =>
      PairKept(cx, fuel, e, l, r, vars, s, V);
    case KabaneroConfig =>
      KeptAlloc(cx, V, vars, map["namespace" := StrV(cx.namespace_)], s);
    case Call(_, _) =>
      CallExprKept(cx, fuel, e, vars, s, V);
    case Filter(_, _) =>
      FilterExprKept(cx, fuel, e, vars, s, V);
    case SendEvent(d, m, c) =>
      SendKept(cx, fuel, e, vars, s, V);
    case ApplyResources(_, _) =>
      ApplyKept(cx, fuel, e, vars, s, V);
  }

  lemma {:induction false} CallExprKept(cx: Ctx, fuel: nat, e: Expr, vars: nat, s: State, V: iset<nat>)
    requires Sealed(s.heap, V, vars) && e.Call?
    ensures var r := EvalExpr(cx, fuel, e, vars, s);
            KeptExpr(cx, V, vars, s, r.s) && OutIn(r.out, V, |r.s.heap|)
    decreases fuel, e, 1
  {
    PairKept(cx, fuel, e, e.callee, e.param, vars, s, V);
    var x := EvalExpr(cx, fuel, e.callee, vars, s);
    var y := EvalExpr(cx, fuel, e.param, vars, x.s);
    if Both(x.out, y.out).Done? && x.out.value.StrV? && x.out.value.s in cx.functions && fuel > 0 {
      CallKept(cx, fuel - 1, cx.functions[x.out.value.s], y.out.value, vars, y.s, V);
      KeptTrans(cx, V, vars, s, y.s, EvalExpr(cx, fuel, e, vars, s).s);
    }
  }

  lemma {:induction false} FilterExprKept(cx: Ctx, fuel: nat, e: Expr, vars: nat, s: State, V: iset<nat>)
    requires Sealed(s.heap, V, vars) && e.Filter?
    ensures var r := EvalExpr(cx, fuel, e, vars, s);
            KeptExpr(cx, V, vars, s, r.s) && OutIn(r.out, V, |r.s.heap|)
    decreases fuel, e, 1
  {
    ExprKept(cx, fuel, e.coll, vars, s, V);
    var x := EvalExpr(cx, fuel, e.coll, vars, s);
    if x.out.Done? && x.out.value.ListV? {
      FilterListKept(cx, fuel, e.pred, x.out.value.elems, [], vars, x.s, V);
      KeptTrans(cx, V, vars, s, x.s, FilterList(cx, fuel, e.pred, x.out.value.elems, [], x.s).s);
    } else if x.out.Done? && x.out.value.MapV? {
      FilterOfMapKept(cx, fuel, e, vars, s, V, x.out.value.ref);
    }
  }

  lemma FilterUnfolds(cx: Ctx, fuel: nat, e: Expr, vars: nat, s: State, ref: nat)
    requires e.Filter? && EvalExpr(cx, fuel, e.coll, vars, s).out == Done(MapV(ref))
    ensures var x := EvalExpr(cx, fuel, e.coll, vars, s);
            EvalExpr(cx, fuel, e, vars, s)
            == FilterMap(cx, fuel, e.pred, ref, Permute(SortedKeys(At(x.s.heap, ref).Keys), cx.visit(x.s.tick)), map[],
                         x.s.(tick := x.s.tick + 1))
  {
  }

  lemma {:induction false} FilterOfMapKept(cx: Ctx, fuel: nat, e: Expr, vars: nat, s: State, V: iset<nat>, ref: nat)
    requires e.Filter? && EvalExpr(cx, fuel, e.coll, vars, s).out == Done(MapV(ref)) && ref in V
    requires KeptExpr(cx, V, vars, s, EvalExpr(cx, fuel, e.coll, vars, s).s) && vars < |s.heap|
    ensures var r := EvalExpr(cx, fuel, e, vars, s);
            KeptExpr(cx, V, vars, s, r.s) && OutIn(r.out, V, |r.s.heap|)
    decreases fuel, e, 0
  {
    var x := EvalExpr(cx, fuel, e.coll, vars, s);
    var keys := Permute(SortedKeys(At(x.s.heap, ref).Keys), cx.visit(x.s.tick));
    FilterUnfolds(cx, fuel, e, vars, s, ref);
    FilterVisitKept(cx, fuel, e.pred, ref, keys, vars, x.s, V);
    KeptTrans(cx, V, vars, s, x.s, FilterMap(cx, fuel, e.pred, ref, keys, map[], x.s.(tick := x.s.tick + 1)).s);
  }

  lemma {:induction false} FilterVisitKept(cx: Ctx, fuel: nat, pred: Source, ref: nat, keys: seq<string>, vars: nat,
                                           s: State, V: iset<nat>)
    requires Sealed(s.heap, V, vars) && ref in V
    ensures var r := FilterMap(cx, fuel, pred, ref, keys, map[], s.(tick := s.tick + 1));
            KeptExpr(cx, V, vars, s, r.s) && OutIn(r.out, V, |r.s.heap|)
    decreases fuel, pred, |keys|, 1
  {
    var s1 := s.(tick := s.tick + 1);
    FilterMapKept(cx, fuel, pred, ref, keys, map[], vars, s1, V);
    assert KeptExpr(cx, V, vars, s, s1);
    KeptTrans(cx, V, vars, s, s1, FilterMap(cx, fuel, pred, ref, keys, map[], s1).s);
  }

  lemma {:induction false} PairKept(cx: Ctx, fuel: nat, e: Expr, l: Expr, r: Expr, vars: nat, s: State, V: iset<nat>)
    requires Sealed(s.heap, V, vars)
    requires l < e && r < e
    ensures var x := EvalExpr(cx, fuel, l, vars, s); var y := EvalExpr(cx, fuel, r, vars, x.s);
            && KeptExpr(cx, V, vars, s, x.s) && KeptExpr(cx, V, vars, s, y.s)
            && OutIn(x.out, V, |y.s.heap|) && OutIn(y.out, V, |y.s.heap|)
    decreases fuel, e, 0
  {
    ExprKept(cx, fuel, l, vars, s, V);
    var x := EvalExpr(cx, fuel, l, vars, s);
    ExprKept(cx, fuel, r, vars, x.s, V);
    var y := EvalExpr(cx, fuel, r, vars, x.s);
    KeptTrans(cx, V, vars, s, x.s, y.s);
    if x.out.Done? { ValInMono(x.out.value, V, |x.s.heap|, |y.s.heap|); }
  }

  lemma {:induction false} SendKept(cx: Ctx, fuel: nat, e: Expr, vars: nat, s: State, V: iset<nat>)
    requires Sealed(s.heap, V, vars) && e.SendEvent?
    ensures var r := EvalExpr(cx, fuel, e, vars, s);
            KeptExpr(cx, V, vars, s, r.s) && OutIn(r.out, V, |r.s.heap|)
    decreases fuel, e, 1
  {
    var x := EvalExpr(cx, fuel, e.destination, vars, s);
    ExprKept(cx, fuel, e.destination, vars, s, V);
    if x.out.Done? {
      PairKept(cx, fuel, e, e.message, e.context, vars, x.s, V);
      var y := EvalExpr(cx, fuel, e.message, vars, x.s);
      KeptTrans(cx, V, vars, s, x.s, y.s);
      if y.out.Done? {
        var z := EvalExpr(cx, fuel, e.context, vars, y.s);
        KeptTrans(cx, V, vars, s, x.s, z.s);
        if z.out.Done? {
          SendExactly(cx, x.out.value, z.out.value, z.s);
          KeptTrans(cx, V, vars, s, z.s, Send(cx, x.out.value, z.out.value, z.s).s);
        }
      }
    }
  }

  lemma {:induction false} ApplyKept(cx: Ctx, fuel: nat, e: Expr, vars: nat, s: State, V: iset<nat>)
    requires Sealed(s.heap, V, vars) && e.ApplyResources?
    ensures var r := EvalExpr(cx, fuel, e, vars, s);
            KeptExpr(cx, V, vars, s, r.s) && OutIn(r.out, V, |r.s.heap|)
    decreases fuel, e, 1
  {
    PairKept(cx, fuel, e, e.dir, e.variables, vars, s, V);
    var x := EvalExpr(cx, fuel, e.dir, vars, s);
    var y := EvalExpr(cx, fuel, e.variables, vars, x.s);
    if Both(x.out, y.out).Done? {
      ApplyLicensed(cx, x.out.value, y.s);
      assert KeptExpr(cx, V, vars, y.s, Apply(cx, x.out.value, y.s).s);
      KeptTrans(cx, V, vars, s, y.s, Apply(cx, x.out.value, y.s).s);
    }
  }

  lemma {:induction false} FilterListKept(cx: Ctx, fuel: nat, pred: Source, elems: seq<Val>, kept: seq<Val>,
                                          vars: nat, s: State, V: iset<nat>)
    requires Sealed(s.heap, V, vars)
    requires ValIn(ListV(elems), V, |s.heap|) && ValIn(ListV(kept), V, |s.heap|)
    ensures var r := FilterList(cx, fuel, pred, elems, kept, s);
            KeptExpr(cx, V, vars, s, r.s) && OutIn(r.out, V, |r.s.heap|)
    decreases fuel, pred, |elems|
  {
    if elems != [] {
      var s1 := Alloc(s, map["value" := elems[0]]);
      assert ValIn(elems[0], V, |s.heap|);
      ValInMono(elems[0], V, |s.heap|, |s1.heap|);
      KeptAlloc(cx, V, vars, map["value" := elems[0]], s);
      ConditionKept(cx, fuel, VALUE_ENV, pred, |s.heap|, s1, V);
      var c := EvalCondition(cx, fuel, VALUE_ENV, pred, |s.heap|, s1);
      KeptNested(cx, V, vars, |s.heap|, s, s1, c.s);
      if c.out.Done? {
        var kept' := if c.out.value then kept + [elems[0]] else kept;
        assert ValIn(ListV(elems[1..]), V, |s.heap|);
        assert ValIn(ListV(kept'), V, |s.heap|);
        ValInMono(ListV(elems[1..]), V, |s.heap|, |c.s.heap|);
        ValInMono(ListV(kept'), V, |s.heap|, |c.s.heap|);
        FilterListKept(cx, fuel, pred, elems[1..], kept', vars, c.s, V);
        KeptTrans(cx, V, vars, s, c.s, FilterList(cx, fuel, pred, elems, kept, s).s);
      }
    }
  }

  lemma {:induction false} FilterMapKept(cx: Ctx, fuel: nat, pred: Source, ref: nat, keys: seq<string>, kept: GoMap,
                                         vars: nat, s: State, V: iset<nat>)
    requires Sealed(s.heap, V, vars)
    requires ref in V && MapIn(kept, V, |s.heap|)
    ensures var r := FilterMap(cx, fuel, pred, ref, keys, kept, s);
            KeptExpr(cx, V, vars, s, r.s) && OutIn(r.out, V, |r.s.heap|)
    decreases fuel, pred, |keys|, 0
  {
    if keys == [] {
      MapInMono(kept, V, |s.heap|, |s.heap| + 1);
      KeptAlloc(cx, V, vars, kept, s);
    } else if keys[0] !in At(s.heap, ref) {
      FilterMapKept(cx, fuel, pred, ref, keys[1..], kept, vars, s, V);
    } else {
      var v := At(s.heap, ref)[keys[0]];
      assert MapIn(s.heap[ref], V, |s.heap|);
      var m := map["key" := StrV(keys[0]), "value" := v];
      var s1 := Alloc(s, m);
      ValInMono(v, V, |s.heap|, |s1.heap|);
      KeptAlloc(cx, V, vars, m, s);
      ConditionKept(cx, fuel, ENTRY_ENV, pred, |s.heap|, s1, V);
      var c := EvalCondition(cx, fuel, ENTRY_ENV, pred, |s.heap|, s1);
      KeptNested(cx, V, vars, |s.heap|, s, s1, c.s);
      if c.out.Done? {
        var kept' := if c.out.value then kept[keys[0] := v] else kept;
        MapInMono(kept', V, |s.heap|, |c.s.heap|);
        FilterMapKept(cx, fuel, pred, ref, keys[1..], kept', vars, c.s, V);
        KeptTrans(cx, V, vars, s, c.s, FilterMap(cx, fuel, pred, ref, keys, kept, s).s);
      }
    }
  }

  lemma {:induction false} ConditionKept(cx: Ctx, fuel: nat, env: Env, when: Source, vars: nat, s: State, V: iset<nat>)
    requires Sealed(s.heap, V, vars)
    ensures KeptExpr(cx, V, vars, s, EvalCondition(cx, fuel, env, when, vars, s).s)
    decreases fuel, when, 0
  {
    if when.Text? && TypeOf(env, when.e).Some? {
      ExprKept(cx, fuel, when.e, vars, s, V);
    }
  }

  lemma {:induction false} CallKept(cx: Ctx, fuel: nat, fd: FuncDef, arg: Val, vars: nat, s: State, V: iset<nat>)
    requires Sealed(s.heap, V, vars) && ValIn(arg, V, |s.heap|)
    ensures var r := CallFunction(cx, fuel, fd, arg, s);
            KeptExpr(cx, V, vars, s, r.s) && OutIn(r.out, V, |r.s.heap|)
    decreases fuel
  {
    if Callable(fd) {
      var frame := |s.heap|;
      var s1 := Alloc(s, map[]);
      KeptAlloc(cx, V, vars, map[], s);
      ValInMono(arg, V, |s.heap|, |s1.heap|);
      CreateVariableKept(cx, map[], frame, fd.input.value, arg, s1, V);
      var c := CreateVariable(cx, map[], frame, fd.input.value, arg, s1);
      KeptNested(cx, V, vars, frame, s, s1, c.s);
      if c.out.Done? {
        ArrayKept(cx, fuel, c.out.value, frame, fd.body.elems, c.s, V);
        var r := EvalArray(cx, fuel, c.out.value, frame, fd.body.elems, c.s);
        KeptNested(cx, V, vars, frame, s, c.s, r.s);
        assert MapIn(r.s.heap[frame], V, |r.s.heap|);
      }
    }
  }

  // ---------------------------------------------------------------- statements

  lemma {:induction false} SetOneKept(cx: Ctx, fuel: nat, env: Env, vars: nat, name: string, val: Source, s: State,
                                      V: iset<nat>)
    requires Sealed(s.heap, V, vars)
    ensures Kept(cx, V, vars, s, SetOneVariable(cx, fuel, env, vars, name, val, s).s)
    decreases fuel, val, 0
  {
    if name != "" && val.Text? && TypeOf(env, val.e).Some? {
      ExprKept(cx, fuel, val.e, vars, s, V);
      var x := EvalExpr(cx, fuel, val.e, vars, s);
      if x.out.Done? {
        CreateVariableKept(cx, env, vars, name, x.out.value, x.s, V);
        KeptTrans(cx, V, vars, s, x.s, SetOneVariable(cx, fuel, env, vars, name, val, s).s);
      }
    }
  }

  lemma {:induction false} FieldsKept(cx: Ctx, fuel: nat, env: Env, vars: nat, fields: seq<Field>, order: seq<nat>,
                                      s: State, V: iset<nat>)
    requires Sealed(s.heap, V, vars)
    requires forall i | i in order :: i < |fields|
    ensures Kept(cx, V, vars, s, AssignFields(cx, fuel, env, vars, fields, order, s).s)
    decreases fuel, fields, 1, |order|
  {
    if order != [] {
      assert order[0] in order && forall i | i in order[1..] :: i in order;
      var f := fields[order[0]];
      var r := AssignField(cx, fuel, env, vars, f, s);
      if f.key.Name? && IsText(f.value) {
        assert (fields decreases to f) && (f decreases to f.value) && (f.value decreases to f.value.text);
        SetOneKept(cx, fuel, env, vars, f.key.name, f.value.text, s, V);
      }
      if r.out.Done? {
        FieldsKept(cx, fuel, r.out.value, vars, fields, order[1..], r.s, V);
        KeptTrans(cx, V, vars, s, r.s, AssignFields(cx, fuel, env, vars, fields, order, s).s);
      }
    }
  }

  lemma {:induction false} AssignmentKept(cx: Ctx, fuel: nat, env: Env, vars: nat, fields: seq<Field>, s: State,
                                          V: iset<nat>)
    requires Sealed(s.heap, V, vars)
    ensures Kept(cx, V, vars, s, EvalAssignment(cx, fuel, env, vars, fields, s).s)
    decreases fuel, fields, 2
  {
    var s1 := s.(tick := s.tick + 1);
    FieldsKept(cx, fuel, env, vars, fields, VisitOrder(|fields|, cx.visit(s.tick)), s1, V);
    KeptTrans(cx, V, vars, s, s1, EvalAssignment(cx, fuel, env, vars, fields, s).s);
  }

  lemma {:induction false} BodyKept(cx: Ctx, fuel: nat, env: Env, vars: nat, body: Yaml, s: State, V: iset<nat>)
    requires Sealed(s.heap, V, vars)
    ensures Kept(cx, V, vars, s, EvalBody(cx, fuel, env, vars, body, s).s)
    decreases fuel, body, 1
  {
    if body.YList? { ArrayKept(cx, fuel, env, vars, body.elems, s, V); }
  }

  lemma {:induction false} IfKept(cx: Ctx, fuel: nat, env: Env, vars: nat, fields: seq<Field>, s: State, V: iset<nat>)
    requires Sealed(s.heap, V, vars)
    ensures Kept(cx, V, vars, s, EvalIf(cx, fuel, env, vars, fields, s).s)
    decreases fuel, fields, 4
  {
    if IfSyntax(fields) {
      var when := Get(fields, IF).value.text;
      ConditionKept(cx, fuel, env, when, vars, s, V);
      var c := EvalCondition(cx, fuel, env, when, vars, s);
      if c.out == Done(true) {
        ThenKept(cx, fuel, env, vars, fields, c.s, V);
        KeptTrans(cx, V, vars, s, c.s, ThenPart(cx, fuel, env, vars, fields, c.s).s);
      }
    }
  }

  lemma {:induction false} ThenKept(cx: Ctx, fuel: nat, env: Env, vars: nat, fields: seq<Field>, s: State, V: iset<nat>)
    requires Sealed(s.heap, V, vars)
    ensures Kept(cx, V, vars, s, ThenPart(cx, fuel, env, vars, fields, s).s)
    decreases fuel, fields, 3
  {
    if Get(fields, BODY).Some? {
      BodyKept(cx, fuel, env, vars, Get(fields, BODY).value, s, V);
    } else if Get(fields, SWITCH).Some? {
      SwitchKept(cx, fuel, env, vars, Get(fields, SWITCH).value, s, V);
    } else {
      AssignmentKept(cx, fuel, env, vars, fields, s, V);
    }
  }

  lemma {:induction false} SwitchKept(cx: Ctx, fuel: nat, env: Env, vars: nat, cases: Yaml, s: State, V: iset<nat>)
    requires Sealed(s.heap, V, vars)
    ensures Kept(cx, V, vars, s, EvalSwitch(cx, fuel, env, vars, cases, s).s)
    decreases fuel, cases, 1
  {
    if cases.YList? { CasesKept(cx, fuel, env, vars, cases.elems, 0, None, s, V); }
  }

  lemma {:induction false} CasesKept(cx: Ctx, fuel: nat, env: Env, vars: nat, cases: seq<Yaml>, i: nat,
                                     dflt: Option<nat>, s: State, V: iset<nat>)
    requires Sealed(s.heap, V, vars)
    requires i <= |cases|
    requires dflt.Some? ==> dflt.value < |cases| && IsDefault(cases[dflt.value])
    ensures Kept(cx, V, vars, s, SwitchCases(cx, fuel, env, vars, cases, i, dflt, s).s)
    decreases fuel, cases, |cases| - i
  {
    if i == |cases| {
      if dflt.Some? {
        ArrayKept(cx, fuel, env, vars, Get(cases[dflt.value].fields, DEFAULT).value.elems, s, V);
      }
    } else if cases[i].YObject? && Get(cases[i].fields, IF).Some? {
      IfKept(cx, fuel, env, vars, cases[i].fields, s, V);
      var r := EvalIf(cx, fuel, env, vars, cases[i].fields, s);
      if r.out.Done? && !r.out.value.1 {
        CasesKept(cx, fuel, env, vars, cases, i + 1, dflt, r.s, V);
        KeptTrans(cx, V, vars, s, r.s, SwitchCases(cx, fuel, env, vars, cases, i, dflt, s).s);
      }
    } else if IsDefault(cases[i]) && dflt.None? {
      CasesKept(cx, fuel, env, vars, cases, i + 1, Some(i), s, V);
    }
  }

  lemma {:induction false} ObjectKept(cx: Ctx, fuel: nat, env: Env, vars: nat, item: Yaml, s: State, V: iset<nat>)
    requires Sealed(s.heap, V, vars)
    ensures Kept(cx, V, vars, s, EvalObject(cx, fuel, env, vars, item, s).s)
    decreases fuel, item, 0
  {
    if item.YObject? {
      var fields := item.fields;
      var k := CountKeywords(fields);
      if k.hasIf {
        IfKept(cx, fuel, env, vars, fields, s, V);
      } else if k.hasSwitch {
        if Get(fields, SWITCH).Some? { SwitchKept(cx, fuel, env, vars, Get(fields, SWITCH).value, s, V); }
      } else if k.hasBody {
        if Get(fields, BODY).Some? { BodyKept(cx, fuel, env, vars, Get(fields, BODY).value, s, V); }
      } else {
        AssignmentKept(cx, fuel, env, vars, fields, s, V);
      }
    }
  }

  /** The main result: a list of statements keeps the seal, from any sealed state, for any program. */
  lemma {:induction false} ArrayKept(cx: Ctx, fuel: nat, env: Env, vars: nat, body: seq<Yaml>, s: State, V: iset<nat>)
    requires Sealed(s.heap, V, vars)
    ensures Kept(cx, V, vars, s, EvalArray(cx, fuel, env, vars, body, s).s)
    decreases fuel, body, 0
  {
    if body != [] {
      ObjectKept(cx, fuel, env, vars, body[0], s, V);
      var r := EvalObject(cx, fuel, env, vars, body[0], s);
      if r.out.Done? {
        ArrayKept(cx, fuel, r.out.value, vars, body[1..], r.s, V);
        KeptTrans(cx, V, vars, s, r.s, EvalArray(cx, fuel, env, vars, body, s).s);
      }
    }
  }
}
