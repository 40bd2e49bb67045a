/**
 The identity of maps does not matter. Two runs of the same program, from states that correspond
 under an injective renaming of references, do the same: the outcomes and the states correspond
 under an extension of the renaming. What is outside the renaming has no influence.

 This is what makes "the same maps" precise: Go programs cannot see where a map is allocated, so two
 heaps are the same when a renaming relates them. The lemmas follow the steps of the interpreter one
 by one; each takes a renaming of the states before the step and returns one of the states after it.
 */
module Renaming {
  import opened Text
  import opened Values
  import opened Syntax
  import opened Semantics

  /** A one-to-one correspondence between some references of one heap and some of another. */
  datatype Ren = Ren(to: map<nat, nat>, from: map<nat, nat>)

  ghost predicate RelVal(p: Ren, v: Val, w: Val)
    decreases v
  {
    match v
    case MapV(a) => w.MapV? && a in p.to && p.to[a] == w.ref
    case ListV(xs) => w.ListV? && |xs| == |w.elems| && forall i | 0 <= i < |xs| :: RelVal(p, xs[i], w.elems[i])
    case _ => v == w
  }

  ghost predicate RelMap(p: Ren, m: GoMap, n: GoMap) {
    m.Keys == n.Keys && forall k | k in m :: RelVal(p, m[k], n[k])
  }

  ghost predicate OneToOne(p: Ren) {
    forall a | a in p.to :: p.to[a] in p.from && p.from[p.to[a]] == a
  }

  ghost predicate RelHeap(p: Ren, h: Heap, g: Heap) {
    && OneToOne(p)
    && forall a | a in p.to :: a < |h| && p.to[a] < |g| && RelMap(p, h[a], g[p.to[a]])
  }

  ghost predicate Rel(p: Ren, s: State, t: State) {
    RelHeap(p, s.heap, t.heap) && s.trace == t.trace && s.tick == t.tick
  }

  /** q renames what p renames, in the same way. */
  ghost predicate Extends(p: Ren, q: Ren) {
    forall a | a in p.to :: a in q.to && q.to[a] == p.to[a]
  }

  ghost predicate RelOut(q: Ren, x: Outcome<Val>, y: Outcome<Val>) {
    match x
    case Done(v) => y.Done? && RelVal(q, v, y.value)
    case _ => x == y
  }

  ghost predicate RelBoth(q: Ren, x: Outcome<(Val, Val)>, y: Outcome<(Val, Val)>) {
    match x
    case Done((v, w)) => y.Done? && RelVal(q, v, y.value.0) && RelVal(q, w, y.value.1)
    case Fail => y.Fail?
    case OutOfFuel => y.OutOfFuel?
  }

  ghost predicate RelRes(p: Ren, q: Ren, x: Res<Val>, y: Res<Val>) {
    Extends(p, q) && Rel(q, x.s, y.s) && RelOut(q, x.out, y.out)
  }

  ghost predicate SameRes<T>(p: Ren, q: Ren, x: Res<T>, y: Res<T>) {
    Extends(p, q) && Rel(q, x.s, y.s) && x.out == y.out
  }

  /** A frame corresponds to a frame. */
  ghost predicate Framed(p: Ren, f: nat, g: nat) {
    f in p.to && p.to[f] == g
  }

  // ---------------------------------------------------------------- values and heaps

  lemma {:induction false} RelValMono(p: Ren, q: Ren, v: Val, w: Val)
    requires RelVal(p, v, w) && Extends(p, q)
    ensures RelVal(q, v, w)
    decreases v
  {
    if v.ListV? {
      forall i | 0 <= i < |v.elems| ensures RelVal(q, v.elems[i], w.elems[i]) {
        RelValMono(p, q, v.elems[i], w.elems[i]);
      }
    }
  }

  lemma RelMapMono(p: Ren, q: Ren, m: GoMap, n: GoMap)
    requires RelMap(p, m, n) && Extends(p, q)
    ensures RelMap(q, m, n)
  {
    forall k | k in m ensures RelVal(q, m[k], n[k]) { RelValMono(p, q, m[k], n[k]); }
  }

  /** q renames, beyond what p renames, only references from n on. */
  ghost predicate AddsFrom(p: Ren, q: Ren, n: nat) {
    forall a | a in q.to :: a in p.to || n <= a
  }

  /** The renaming after one allocation on each side. */
  function Added(p: Ren, a: nat, b: nat): Ren {
    Ren(p.to[a := b], p.from[b := a])
  }

  lemma RelAlloc(p: Ren, s: State, t: State, m: GoMap, n: GoMap) returns (q: Ren)
    requires Rel(p, s, t)
    requires RelMap(Added(p, |s.heap|, |t.heap|), m, n)
    ensures q == Added(p, |s.heap|, |t.heap|) && Extends(p, q)
    ensures Rel(q, Alloc(s, m), Alloc(t, n)) && Framed(q, |s.heap|, |t.heap|)
  {
    q := Added(p, |s.heap|, |t.heap|);
    forall a | a in q.to
      ensures a < |s.heap| + 1 && q.to[a] < |t.heap| + 1
      ensures RelMap(q, Alloc(s, m).heap[a], Alloc(t, n).heap[q.to[a]])
    {
      if a != |s.heap| { RelMapMono(p, q, s.heap[a], t.heap[p.to[a]]); }
    }
  }

  lemma RelPut(p: Ren, s: State, t: State, a: nat, k: string, v: Val, w: Val)
    requires Rel(p, s, t) && a in p.to && RelVal(p, v, w)
    ensures Rel(p, s.(heap := Put(s.heap, a, k, v)), t.(heap := Put(t.heap, p.to[a], k, w)))
  {
  }

  lemma {:induction false} RelSelect(p: Ren, s: State, t: State, v: Val, w: Val, fields: seq<string>)
    requires Rel(p, s, t) && RelVal(p, v, w)
    ensures RelOut(p, Select(s.heap, v, fields), Select(t.heap, w, fields))
    decreases |fields|
  {
    if fields != [] && v.MapV? {
      var a := v.ref;
      assert At(s.heap, a) == s.heap[a] && At(t.heap, w.ref) == t.heap[p.to[a]];
      if fields[0] in s.heap[a] {
        RelSelect(p, s, t, s.heap[a][fields[0]], t.heap[p.to[a]][fields[0]], fields[1..]);
      }
    }
  }

  lemma RelBin(p: Ren, op: BinOp, v: Val, w: Val, v': Val, w': Val)
    requires RelVal(p, v, v') && RelVal(p, w, w')
    ensures RelOut(p, ApplyBin(op, v, w), ApplyBin(op, v', w'))
  {
  }

  lemma RelHeader(p: Ren, s: State, t: State, v: Val, w: Val)
    requires Rel(p, s, t) && RelVal(p, v, w)
    ensures IsHeader(s.heap, v) == IsHeader(t.heap, w)
  {
    if v.MapV? {
      var m, n := At(s.heap, v.ref), At(t.heap, w.ref);
      assert RelMap(p, m, n);
      forall k | k in m
        ensures m[k].ListV? == n[k].ListV?
        ensures m[k].ListV? ==> |m[k].elems| == |n[k].elems|
        ensures m[k].ListV? ==> forall i | 0 <= i < |m[k].elems| :: m[k].elems[i].StrV? == n[k].elems[i].StrV?
      {
        assert RelVal(p, m[k], n[k]);
        if m[k].ListV? {
          assert forall i | 0 <= i < |m[k].elems| :: RelVal(p, m[k].elems[i], n[k].elems[i]);
        }
      }
    }
  }

  lemma RelSend(cx: Ctx, p: Ren, s: State, t: State, d: Val, d': Val, c: Val, c': Val)
    requires Rel(p, s, t) && RelVal(p, d, d') && RelVal(p, c, c')
    ensures RelRes(p, p, Send(cx, d, c, s), Send(cx, d', c', t))
  {
    RelHeader(p, s, t, c, c');
  }

  // ---------------------------------------------------------------- dotted assignment

  /** A missing map is created on both sides. */
  lemma RelSubmap(p: Ren, s: State, t: State, a: nat, k: string) returns (q: Ren)
    requires Rel(p, s, t) && a in p.to
    ensures Extends(p, q) && Framed(q, |s.heap|, |t.heap|) && AddsFrom(p, q, |s.heap|)
    ensures Rel(q, s.(heap := Put(s.heap, a, k, MapV(|s.heap|)) + [map[]]),
                t.(heap := Put(t.heap, p.to[a], k, MapV(|t.heap|)) + [map[]]))
  {
    q := RelAlloc(p, s, t, map[], map[]);
    var s1, t1 := Alloc(s, map[]), Alloc(t, map[]);
    RelPut(q, s1, t1, a, k, MapV(|s.heap|), MapV(|t.heap|));
    assert Put(s1.heap, a, k, MapV(|s.heap|)) == Put(s.heap, a, k, MapV(|s.heap|)) + [map[]];
    assert Put(t1.heap, p.to[a], k, MapV(|t.heap|)) == Put(t.heap, p.to[a], k, MapV(|t.heap|)) + [map[]];
  }

  lemma {:induction false} RelAssignAt(p: Ren, s: State, t: State, a: nat, names: seq<string>, v: Val, w: Val)
      returns (q: Ren)
    requires |names| >= 1 && Rel(p, s, t) && a in p.to && RelVal(p, v, w)
    ensures Extends(p, q) && AddsFrom(p, q, |s.heap|)
    ensures AssignAt(s.heap, a, names, v).Some? == AssignAt(t.heap, p.to[a], names, w).Some?
    ensures AssignAt(s.heap, a, names, v).Some? ==>
              Rel(q, s.(heap := AssignAt(s.heap, a, names, v).value),
                  t.(heap := AssignAt(t.heap, p.to[a], names, w).value))
    decreases |names|
  {
    q := p;
    if |names| == 1 {
      RelPut(p, s, t, a, names[0], v, w);
    } else if names[0] !in s.heap[a] {
      var q1 := RelSubmap(p, s, t, a, names[0]);
      var s1 := s.(heap := Put(s.heap, a, names[0], MapV(|s.heap|)) + [map[]]);
      var t1 := t.(heap := Put(t.heap, p.to[a], names[0], MapV(|t.heap|)) + [map[]]);
      RelValMono(p, q1, v, w);
      q := RelAssignAt(q1, s1, t1, |s.heap|, names[1..], v, w);
      ExtendsTrans(p, q1, q);
    } else {
      assert RelVal(p, s.heap[a][names[0]], t.heap[p.to[a]][names[0]]);
      if s.heap[a][names[0]].MapV? {
        q := RelAssignAt(p, s, t, s.heap[a][names[0]].ref, names[1..], v, w);
      }
    }
  }

  lemma {:induction false} RelKind(p: Ren, v: Val, w: Val)
    requires RelVal(p, v, w)
    ensures KindOf(v) == KindOf(w)
  {
  }

  lemma RelCreatePlain(cx: Ctx, env: Env, p: Ren, f: nat, g: nat, name: string, v: Val, w: Val, s: State, t: State)
    requires Rel(p, s, t) && Framed(p, f, g) && RelVal(p, v, w) && |SplitDots(name)| == 1
    ensures SameRes(p, p, CreateVariable(cx, env, f, name, v, s), CreateVariable(cx, env, g, name, w, t))
  {
    RelKind(p, v, w);
    RelPut(p, s, t, f, SplitDots(name)[0], v, w);
  }

  /** The declarations after a dotted assignment, if they are accepted. */
  function RootEnv(cx: Ctx, env: Env, f: nat, names: seq<string>, s: State): Option<Env>
    requires |names| >= 1
  {
    if names[0] in At(s.heap, f) then Some(env) else Extend(cx, env, names[0], TMap)
  }

  lemma DottedUnfolds(cx: Ctx, env: Env, f: nat, name: string, v: Val, s: State)
    requires |SplitDots(name)| > 1
    ensures var e, h := RootEnv(cx, env, f, SplitDots(name), s), AssignAt(s.heap, f, SplitDots(name), v);
            CreateVariable(cx, env, f, name, v, s)
            == if e.Some? && h.Some? then Res(s.(heap := h.value), Done(e.value)) else Res(s, Fail)
  {
  }

  lemma RelCreateDotted(cx: Ctx, env: Env, p: Ren, f: nat, g: nat, name: string, v: Val, w: Val, s: State, t: State)
      returns (q: Ren)
    requires Rel(p, s, t) && Framed(p, f, g) && RelVal(p, v, w) && |SplitDots(name)| > 1
    ensures SameRes(p, q, CreateVariable(cx, env, f, name, v, s), CreateVariable(cx, env, g, name, w, t))
    ensures AddsFrom(p, q, |s.heap|)
  {
    var names := SplitDots(name);
    q := p;
    assert RelMap(p, s.heap[f], t.heap[g]);
    DottedUnfolds(cx, env, f, name, v, s);
    DottedUnfolds(cx, env, g, name, w, t);
    var q1 := RelAssignAt(p, s, t, f, names, v, w);
    if RootEnv(cx, env, f, names, s).Some? && AssignAt(s.heap, f, names, v).Some? { q := q1; }
  }

  lemma RelCreate(cx: Ctx, env: Env, p: Ren, f: nat, g: nat, name: string, v: Val, w: Val, s: State, t: State)
      returns (q: Ren)
    requires Rel(p, s, t) && Framed(p, f, g) && RelVal(p, v, w)
    ensures SameRes(p, q, CreateVariable(cx, env, f, name, v, s), CreateVariable(cx, env, g, name, w, t))
    ensures AddsFrom(p, q, |s.heap|)
  {
    var names := SplitDots(name);
    q := p;
    if |names| == 1 {
      RelCreatePlain(cx, env, p, f, g, name, v, w, s, t);
    } else {
      q := RelCreateDotted(cx, env, p, f, g, name, v, w, s, t);
    }
  }

  // ---------------------------------------------------------------- expressions

  lemma RelPath(p: Ren, f: nat, g: nat, root: string, fields: seq<string>, s: State, t: State)
    requires Rel(p, s, t) && Framed(p, f, g)
    ensures RelOut(p, ReadPath(s.heap, At(s.heap, f), root, fields), ReadPath(t.heap, At(t.heap, g), root, fields))
  {
    assert RelMap(p, s.heap[f], t.heap[g]);
    if root in s.heap[f] { RelSelect(p, s, t, s.heap[f][root], t.heap[g][root], fields); }
  }

  lemma {:induction false} RelExpr(cx: Ctx, fuel: nat, e: Expr, f: nat, g: nat, s: State, t: State, p: Ren)
      returns (q: Ren)
    requires Rel(p, s, t) && Framed(p, f, g)
    ensures RelRes(p, q, EvalExpr(cx, fuel, e, f, s), EvalExpr(cx, fuel, e, g, t))
    decreases fuel, e, 3
  {
    match e
    case Lit(c) =>
      q := p;
    case Path(root, fields) =>
      q := p;
      RelPath(p, f, g, root, fields, s, t);
    case Not(a) =>
      q := RelExpr(cx, fuel, a, f, g, s, t, p);
    case And(l, r) =>
      q := RelAnd(cx, fuel, e, f, g, s, t, p);
    case Bin(_, _, _) =>
      q := RelBinExpr(cx, fuel, e, f, g, s, t, p);
    case KabaneroConfig =>
      q := RelAlloc(p, s, t, map["namespace" := StrV(cx.namespace_)], map["namespace" := StrV(cx.namespace_)]);
    case Call(_, _) =>
      q := RelCall(cx, fuel, e, f, g, s, t, p);
    case Filter(_, _) =>
      q := RelFilter(cx, fuel, e, f, g, s, t, p);
    case SendEvent(_, _, _) =>
      q := RelSendExpr(cx, fuel, e, f, g, s, t, p);
    case ApplyResources(d, v) =>
      q := RelApply(cx, fuel, e, f, g, s, t, p);
  }

  lemma BinUnfolds(cx: Ctx, fuel: nat, e: Expr, vars: nat, s: State)
    requires e.Bin?
    ensures var x := EvalExpr(cx, fuel, e.left, vars, s);
            var y := EvalExpr(cx, fuel, e.right, vars, x.s);
            EvalExpr(cx, fuel, e, vars, s) == AfterBin(e.op, Both(x.out, y.out), y.s)
  {
  }

  lemma RelAfterBin(op: BinOp, a: Outcome<(Val, Val)>, a': Outcome<(Val, Val)>, s: State, t: State, p: Ren)
    requires Rel(p, s, t) && RelBoth(p, a, a')
    ensures RelRes(p, p, AfterBin(op, a, s), AfterBin(op, a', t))
  {
    if a.Done? { RelBin(p, op, a.value.0, a.value.1, a'.value.0, a'.value.1); }
  }

  lemma {:induction false} RelBinExpr(cx: Ctx, fuel: nat, e: Expr, f: nat, g: nat, s: State, t: State, p: Ren)
      returns (q: Ren)
    requires Rel(p, s, t) && Framed(p, f, g) && e.Bin?
    ensures RelRes(p, q, EvalExpr(cx, fuel, e, f, s), EvalExpr(cx, fuel, e, g, t))
    decreases fuel, e, 1
  {
    var x, x' := EvalExpr(cx, fuel, e.left, f, s), EvalExpr(cx, fuel, e.left, g, t);
    var y, y' := EvalExpr(cx, fuel, e.right, f, x.s), EvalExpr(cx, fuel, e.right, g, x'.s);
    q := RelPair(cx, fuel, e, e.left, e.right, f, g, s, t, p);
    RelAfterBin(e.op, Both(x.out, y.out), Both(x'.out, y'.out), y.s, y'.s, q);
    BinUnfolds(cx, fuel, e, f, s);
    BinUnfolds(cx, fuel, e, g, t);
  }

  lemma ApplyUnfolds(cx: Ctx, fuel: nat, e: Expr, vars: nat, s: State)
    requires e.ApplyResources?
    ensures var x := EvalExpr(cx, fuel, e.dir, vars, s);
            var y := EvalExpr(cx, fuel, e.variables, vars, x.s);
            EvalExpr(cx, fuel, e, vars, s) == AfterDir(cx, Both(x.out, y.out), y.s)
  {
  }

  lemma RelAfterDir(cx: Ctx, a: Outcome<(Val, Val)>, a': Outcome<(Val, Val)>, s: State, t: State, p: Ren)
    requires Rel(p, s, t) && RelBoth(p, a, a')
    ensures RelRes(p, p, AfterDir(cx, a, s), AfterDir(cx, a', t))
  {
  }

  lemma {:induction false} RelApply(cx: Ctx, fuel: nat, e: Expr, f: nat, g: nat, s: State, t: State, p: Ren)
      returns (q: Ren)
    requires Rel(p, s, t) && Framed(p, f, g) && e.ApplyResources?
    ensures RelRes(p, q, EvalExpr(cx, fuel, e, f, s), EvalExpr(cx, fuel, e, g, t))
    decreases fuel, e, 1
  {
    var x, x' := EvalExpr(cx, fuel, e.dir, f, s), EvalExpr(cx, fuel, e.dir, g, t);
    var y, y' := EvalExpr(cx, fuel, e.variables, f, x.s), EvalExpr(cx, fuel, e.variables, g, x'.s);
    q := RelPair(cx, fuel, e, e.dir, e.variables, f, g, s, t, p);
    RelAfterDir(cx, Both(x.out, y.out), Both(x'.out, y'.out), y.s, y'.s, q);
    ApplyUnfolds(cx, fuel, e, f, s);
    ApplyUnfolds(cx, fuel, e, g, t);
  }

  lemma {:induction false} RelPair(cx: Ctx, fuel: nat, e: Expr, l: Expr, r: Expr, f: nat, g: nat, s: State, t: State,
                                   p: Ren) returns (q: Ren)
    requires Rel(p, s, t) && Framed(p, f, g) && l < e && r < e
    ensures var x, x' := EvalExpr(cx, fuel, l, f, s), EvalExpr(cx, fuel, l, g, t);
            var y, y' := EvalExpr(cx, fuel, r, f, x.s), EvalExpr(cx, fuel, r, g, x'.s);
            RelRes(p, q, y, y') && RelOut(q, x.out, x'.out) && RelBoth(q, Both(x.out, y.out), Both(x'.out, y'.out))
    decreases fuel, e, 0
  {
    var q1 := RelExpr(cx, fuel, l, f, g, s, t, p);
    var x, x' := EvalExpr(cx, fuel, l, f, s), EvalExpr(cx, fuel, l, g, t);
    q := RelExpr(cx, fuel, r, f, g, x.s, x'.s, q1);
    ExtendsTrans(p, q1, q);
    if x.out.Done? { RelValMono(q1, q, x.out.value, x'.out.value); }
    BothRelated(q, x.out, x'.out, EvalExpr(cx, fuel, r, f, x.s).out, EvalExpr(cx, fuel, r, g, x'.s).out);
  }

  lemma BothRelated(p: Ren, a: Outcome<Val>, a': Outcome<Val>, b: Outcome<Val>, b': Outcome<Val>)
    requires RelOut(p, a, a') && RelOut(p, b, b')
    ensures RelBoth(p, Both(a, b), Both(a', b'))
  {
  }

  lemma AndUnfolds(cx: Ctx, fuel: nat, e: Expr, vars: nat, s: State)
    requires e.And?
    ensures var x := EvalExpr(cx, fuel, e.left, vars, s);
            var y := EvalExpr(cx, fuel, e.right, vars, x.s);
            EvalExpr(cx, fuel, e, vars, s)
            == if x.out == Done(BoolV(false)) then x else Res(y.s, Conjoin(x.out, y.out))
  {
  }

  lemma RelConjoin(p: Ren, a: Outcome<Val>, a': Outcome<Val>, b: Outcome<Val>, b': Outcome<Val>)
    requires RelOut(p, a, a') && RelOut(p, b, b')
    ensures RelOut(p, Conjoin(a, b), Conjoin(a', b'))
  {
  }

  lemma {:induction false} RelAnd(cx: Ctx, fuel: nat, e: Expr, f: nat, g: nat, s: State, t: State, p: Ren)
      returns (q: Ren)
    requires Rel(p, s, t) && Framed(p, f, g) && e.And?
    ensures RelRes(p, q, EvalExpr(cx, fuel, e, f, s), EvalExpr(cx, fuel, e, g, t))
    decreases fuel, e, 1
  {
    AndUnfolds(cx, fuel, e, f, s);
    AndUnfolds(cx, fuel, e, g, t);
    var x, x' := EvalExpr(cx, fuel, e.left, f, s), EvalExpr(cx, fuel, e.left, g, t);
    if x.out == Done(BoolV(false)) {
      q := RelExpr(cx, fuel, e.left, f, g, s, t, p);
    } else {
      q := RelPair(cx, fuel, e, e.left, e.right, f, g, s, t, p);
      RelConjoin(q, x.out, x'.out, EvalExpr(cx, fuel, e.right, f, x.s).out, EvalExpr(cx, fuel, e.right, g, x'.s).out);
    }
  }

  /** What a call does once its operands are evaluated. */
  function AfterCall(cx: Ctx, fuel: nat, args: Outcome<(Val, Val)>, s: State): Res<Val> {
    match args
    case Done((name, arg)) =>
      if !name.StrV? || name.s !in cx.functions then Res(s, Fail)
      else if fuel == 0 then Res(s, OutOfFuel)
      else CallFunction(cx, fuel - 1, cx.functions[name.s], arg, s)
    case Fail => Res(s, Fail)
    case OutOfFuel => Res(s, OutOfFuel)
  }

  lemma CallUnfolds(cx: Ctx, fuel: nat, e: Expr, vars: nat, s: State)
    requires e.Call?
    ensures var x := EvalExpr(cx, fuel, e.callee, vars, s);
            var y := EvalExpr(cx, fuel, e.param, vars, x.s);
            EvalExpr(cx, fuel, e, vars, s) == AfterCall(cx, fuel, Both(x.out, y.out), y.s)
  {
  }

  lemma {:induction false} RelAfterCall(cx: Ctx, fuel: nat, e: Expr, a: Outcome<(Val, Val)>, a': Outcome<(Val, Val)>,
                                        s: State, t: State, p: Ren) returns (q: Ren)
    requires Rel(p, s, t) && RelBoth(p, a, a')
    ensures RelRes(p, q, AfterCall(cx, fuel, a, s), AfterCall(cx, fuel, a', t))
    decreases fuel, e, 0
  {
    q := p;
    if a.Done? && a.value.0.StrV? && a.value.0.s in cx.functions && fuel > 0 {
      q := RelFunction(cx, fuel - 1, cx.functions[a.value.0.s], a.value.1, a'.value.1, s, t, p);
    }
  }

  lemma ExtendsTrans(p: Ren, q: Ren, r: Ren)
    requires Extends(p, q) && Extends(q, r)
    ensures Extends(p, r)
  {
  }

  lemma {:induction false} RelCall(cx: Ctx, fuel: nat, e: Expr, f: nat, g: nat, s: State, t: State, p: Ren)
      returns (q: Ren)
    requires Rel(p, s, t) && Framed(p, f, g) && e.Call?
    ensures RelRes(p, q, EvalExpr(cx, fuel, e, f, s), EvalExpr(cx, fuel, e, g, t))
    decreases fuel, e, 1
  {
    var x, x' := EvalExpr(cx, fuel, e.callee, f, s), EvalExpr(cx, fuel, e.callee, g, t);
    var y, y' := EvalExpr(cx, fuel, e.param, f, x.s), EvalExpr(cx, fuel, e.param, g, x'.s);
    var q1 := RelPair(cx, fuel, e, e.callee, e.param, f, g, s, t, p);
    q := RelAfterCall(cx, fuel, e, Both(x.out, y.out), Both(x'.out, y'.out), y.s, y'.s, q1);
    ExtendsTrans(p, q1, q);
    CallUnfolds(cx, fuel, e, f, s);
    CallUnfolds(cx, fuel, e, g, t);
  }

  /** What sendEvent does once its destination is evaluated. */
  function AfterDestination(cx: Ctx, fuel: nat, e: Expr, d: Val, vars: nat, s: State): Res<Val>
    requires e.SendEvent?
  {
    var y := EvalExpr(cx, fuel, e.message, vars, s);
    if !y.out.Done? then y
    else
      var z := EvalExpr(cx, fuel, e.context, vars, y.s);
      if !z.out.Done? then z else Send(cx, d, z.out.value, z.s)
  }

  lemma {:induction false} RelAfterDestination(cx: Ctx, fuel: nat, e: Expr, d: Val, d': Val, f: nat, g: nat, s: State,
                                               t: State, p: Ren) returns (q: Ren)
    requires Rel(p, s, t) && Framed(p, f, g) && e.SendEvent? && RelVal(p, d, d')
    ensures RelRes(p, q, AfterDestination(cx, fuel, e, d, f, s), AfterDestination(cx, fuel, e, d', g, t))
    decreases fuel, e, 1
  {
    var y, y' := EvalExpr(cx, fuel, e.message, f, s), EvalExpr(cx, fuel, e.message, g, t);
    if y.out.Done? {
      var z, z' := EvalExpr(cx, fuel, e.context, f, y.s), EvalExpr(cx, fuel, e.context, g, y'.s);
      q := RelPair(cx, fuel, e, e.message, e.context, f, g, s, t, p);
      RelValMono(p, q, d, d');
      if z.out.Done? { RelSend(cx, q, z.s, z'.s, d, d', z.out.value, z'.out.value); }
    } else {
      q := RelExpr(cx, fuel, e.message, f, g, s, t, p);
    }
  }

  lemma SendUnfolds(cx: Ctx, fuel: nat, e: Expr, vars: nat, s: State)
    requires e.SendEvent?
    ensures var x := EvalExpr(cx, fuel, e.destination, vars, s);
            EvalExpr(cx, fuel, e, vars, s)
            == if x.out.Done? then AfterDestination(cx, fuel, e, x.out.value, vars, x.s) else x
  {
  }

  lemma {:induction false} RelSendExpr(cx: Ctx, fuel: nat, e: Expr, f: nat, g: nat, s: State, t: State, p: Ren)
      returns (q: Ren)
    requires Rel(p, s, t) && Framed(p, f, g) && e.SendEvent?
    ensures RelRes(p, q, EvalExpr(cx, fuel, e, f, s), EvalExpr(cx, fuel, e, g, t))
    decreases fuel, e, 2
  {
    SendUnfolds(cx, fuel, e, f, s);
    SendUnfolds(cx, fuel, e, g, t);
    q := RelExpr(cx, fuel, e.destination, f, g, s, t, p);
    var x, x' := EvalExpr(cx, fuel, e.destination, f, s), EvalExpr(cx, fuel, e.destination, g, t);
    if x.out.Done? {
      var q1 := q;
      q := RelAfterDestination(cx, fuel, e, x.out.value, x'.out.value, f, g, x.s, x'.s, q1);
      ExtendsTrans(p, q1, q);
    }
  }

  /** What a filter of a map does once the map is known. */
  function AfterMap(cx: Ctx, fuel: nat, pred: Source, ref: nat, s: State): Res<Val> {
    var keys := Permute(SortedKeys(At(s.heap, ref).Keys), cx.visit(s.tick));
    FilterMap(cx, fuel, pred, ref, keys, map[], s.(tick := s.tick + 1))
  }

  /** What a filter does once its collection is evaluated. */
  function AfterColl(cx: Ctx, fuel: nat, pred: Source, a: Outcome<Val>, s: State): Res<Val> {
    match a
    case Done(ListV(elems)) => FilterList(cx, fuel, pred, elems, [], s)
    case Done(MapV(ref)) => AfterMap(cx, fuel, pred, ref, s)
    case OutOfFuel => Res(s, OutOfFuel)
    case _ => Res(s, Fail)
  }

  lemma FilterUnfolds(cx: Ctx, fuel: nat, e: Expr, vars: nat, s: State)
    requires e.Filter?
    ensures var x := EvalExpr(cx, fuel, e.coll, vars, s);
            EvalExpr(cx, fuel, e, vars, s) == AfterColl(cx, fuel, e.pred, x.out, x.s)
  {
  }

  lemma {:induction false} RelAfterMap(cx: Ctx, fuel: nat, pred: Source, a: nat, b: nat, s: State, t: State, p: Ren)
      returns (q: Ren)
    requires Rel(p, s, t) && a in p.to && p.to[a] == b
    ensures RelRes(p, q, AfterMap(cx, fuel, pred, a, s), AfterMap(cx, fuel, pred, b, t))
    decreases fuel, pred, 2
  {
    var keys := Permute(SortedKeys(At(s.heap, a).Keys), cx.visit(s.tick));
    SameVisit(cx, a, b, s, t, p);
    q := RelFilterMap(cx, fuel, pred, a, b, keys, map[], map[], s.(tick := s.tick + 1), t.(tick := t.tick + 1), p);
  }

  lemma SameVisit(cx: Ctx, a: nat, b: nat, s: State, t: State, p: Ren)
    requires Rel(p, s, t) && a in p.to && p.to[a] == b
    ensures Rel(p, s.(tick := s.tick + 1), t.(tick := t.tick + 1))
    ensures Permute(SortedKeys(At(s.heap, a).Keys), cx.visit(s.tick))
         == Permute(SortedKeys(At(t.heap, b).Keys), cx.visit(t.tick))
  {
    assert RelMap(p, At(s.heap, a), At(t.heap, b));
  }

  lemma {:induction false} RelAfterColl(cx: Ctx, fuel: nat, pred: Source, a: Outcome<Val>, b: Outcome<Val>, s: State,
                                        t: State, p: Ren) returns (q: Ren)
    requires Rel(p, s, t) && RelOut(p, a, b)
    ensures RelRes(p, q, AfterColl(cx, fuel, pred, a, s), AfterColl(cx, fuel, pred, b, t))
    decreases fuel, pred, 3
  {
    q := p;
    if a.Done? && a.value.ListV? {
      q := RelFilterList(cx, fuel, pred, a.value.elems, b.value.elems, [], [], s, t, p);
    } else if a.Done? && a.value.MapV? {
      q := RelAfterMap(cx, fuel, pred, a.value.ref, b.value.ref, s, t, p);
    }
  }

  lemma {:induction false} RelFilter(cx: Ctx, fuel: nat, e: Expr, f: nat, g: nat, s: State, t: State, p: Ren)
      returns (q: Ren)
    requires Rel(p, s, t) && Framed(p, f, g) && e.Filter?
    ensures RelRes(p, q, EvalExpr(cx, fuel, e, f, s), EvalExpr(cx, fuel, e, g, t))
    decreases fuel, e, 1
  {
    var x, x' := EvalExpr(cx, fuel, e.coll, f, s), EvalExpr(cx, fuel, e.coll, g, t);
    var q1 := RelExpr(cx, fuel, e.coll, f, g, s, t, p);
    q := RelAfterColl(cx, fuel, e.pred, x.out, x'.out, x.s, x'.s, q1);
    ExtendsTrans(p, q1, q);
    FilterUnfolds(cx, fuel, e, f, s);
    FilterUnfolds(cx, fuel, e, g, t);
  }

  lemma StillExtends(p: Ren, s: State, t: State)
    requires Rel(p, s, t)
    ensures Extends(p, Added(p, |s.heap|, |t.heap|))
  {
  }

  lemma {:induction false} RelElem(cx: Ctx, fuel: nat, pred: Source, v: Val, w: Val, s: State, t: State, p: Ren)
      returns (q: Ren)
    requires Rel(p, s, t) && RelVal(p, v, w)
    ensures SameRes(p, q,
              EvalCondition(cx, fuel, VALUE_ENV, pred, |s.heap|, Alloc(s, map["value" := v])),
              EvalCondition(cx, fuel, VALUE_ENV, pred, |t.heap|, Alloc(t, map["value" := w])))
    decreases fuel, pred, 1, 0
  {
    var m, n := map["value" := v], map["value" := w];
    StillExtends(p, s, t);
    RelValMono(p, Added(p, |s.heap|, |t.heap|), v, w);
    var q1 := RelAlloc(p, s, t, m, n);
    q := RelCondition(cx, fuel, VALUE_ENV, pred, |s.heap|, |t.heap|, Alloc(s, m), Alloc(t, n), q1);
    ExtendsTrans(p, q1, q);
  }

  lemma RelTail(p: Ren, q: Ren, xs: seq<Val>, ys: seq<Val>)
    requires xs != [] && RelVal(p, ListV(xs), ListV(ys)) && Extends(p, q)
    ensures RelVal(p, xs[0], ys[0]) && RelVal(q, ListV(xs[1..]), ListV(ys[1..]))
  {
    assert RelVal(p, ListV(xs[1..]), ListV(ys[1..]));
    RelValMono(p, q, ListV(xs[1..]), ListV(ys[1..]));
  }

  lemma RelKeptElems(p: Ren, q: Ren, kx: seq<Val>, ky: seq<Val>, v: Val, w: Val, keep: bool)
    requires RelVal(p, ListV(kx), ListV(ky)) && RelVal(p, v, w) && Extends(p, q)
    ensures RelVal(q, ListV(if keep then kx + [v] else kx), ListV(if keep then ky + [w] else ky))
  {
    var kx', ky' := if keep then kx + [v] else kx, if keep then ky + [w] else ky;
    assert RelVal(p, ListV(kx'), ListV(ky'));
    RelValMono(p, q, ListV(kx'), ListV(ky'));
  }

  lemma {:induction false} RelFilterList(cx: Ctx, fuel: nat, pred: Source, xs: seq<Val>, ys: seq<Val>, kx: seq<Val>,
                                         ky: seq<Val>, s: State, t: State, p: Ren) returns (q: Ren)
    requires Rel(p, s, t) && RelVal(p, ListV(xs), ListV(ys)) && RelVal(p, ListV(kx), ListV(ky))
    ensures RelRes(p, q, FilterList(cx, fuel, pred, xs, kx, s), FilterList(cx, fuel, pred, ys, ky, t))
    decreases fuel, pred, 1, |xs|
  {
    q := p;
    if xs != [] {
      RelTail(p, p, xs, ys);
      q := RelElem(cx, fuel, pred, xs[0], ys[0], s, t, p);
      var c := EvalCondition(cx, fuel, VALUE_ENV, pred, |s.heap|, Alloc(s, map["value" := xs[0]]));
      var c' := EvalCondition(cx, fuel, VALUE_ENV, pred, |t.heap|, Alloc(t, map["value" := ys[0]]));
      if c.out.Done? {
        var q1, keep := q, c.out.value;
        RelTail(p, q1, xs, ys);
        RelKeptElems(p, q1, kx, ky, xs[0], ys[0], keep);
        q := RelFilterList(cx, fuel, pred, xs[1..], ys[1..], if keep then kx + [xs[0]] else kx,
                           if keep then ky + [ys[0]] else ky, c.s, c'.s, q1);
        ExtendsTrans(p, q1, q);
      }
    }
  }

  lemma {:induction false} RelEntry(cx: Ctx, fuel: nat, pred: Source, key: string, v: Val, w: Val, s: State, t: State,
                                    p: Ren) returns (q: Ren)
    requires Rel(p, s, t) && RelVal(p, v, w)
    ensures SameRes(p, q,
              EvalCondition(cx, fuel, ENTRY_ENV, pred, |s.heap|, Alloc(s, map["key" := StrV(key), "value" := v])),
              EvalCondition(cx, fuel, ENTRY_ENV, pred, |t.heap|, Alloc(t, map["key" := StrV(key), "value" := w])))
    decreases fuel, pred, 1, 0
  {
    var m, n := map["key" := StrV(key), "value" := v], map["key" := StrV(key), "value" := w];
    StillExtends(p, s, t);
    RelValMono(p, Added(p, |s.heap|, |t.heap|), v, w);
    var q1 := RelAlloc(p, s, t, m, n);
    q := RelCondition(cx, fuel, ENTRY_ENV, pred, |s.heap|, |t.heap|, Alloc(s, m), Alloc(t, n), q1);
    ExtendsTrans(p, q1, q);
  }

  lemma RelKeptEntries(p: Ren, q: Ren, kx: GoMap, ky: GoMap, key: string, v: Val, w: Val, keep: bool)
    requires RelMap(p, kx, ky) && RelVal(p, v, w) && Extends(p, q)
    ensures RelMap(q, if keep then kx[key := v] else kx, if keep then ky[key := w] else ky)
  {
    var kx', ky' := if keep then kx[key := v] else kx, if keep then ky[key := w] else ky;
    assert RelMap(p, kx', ky');
    RelMapMono(p, q, kx', ky');
  }

  lemma RelNewMap(s: State, t: State, m: GoMap, n: GoMap, p: Ren) returns (q: Ren)
    requires Rel(p, s, t) && RelMap(p, m, n)
    ensures RelRes(p, q, Res(Alloc(s, m), Done(MapV(|s.heap|))), Res(Alloc(t, n), Done(MapV(|t.heap|))))
  {
    StillExtends(p, s, t);
    RelMapMono(p, Added(p, |s.heap|, |t.heap|), m, n);
    q := RelAlloc(p, s, t, m, n);
  }

  lemma {:induction false} RelFilterMap(cx: Ctx, fuel: nat, pred: Source, a: nat, b: nat, keys: seq<string>, kx: GoMap,
                                        ky: GoMap, s: State, t: State, p: Ren) returns (q: Ren)
    requires Rel(p, s, t) && a in p.to && p.to[a] == b && RelMap(p, kx, ky)
    ensures RelRes(p, q, FilterMap(cx, fuel, pred, a, keys, kx, s), FilterMap(cx, fuel, pred, b, keys, ky, t))
    decreases fuel, pred, 1, |keys|
  {
    assert RelMap(p, At(s.heap, a), At(t.heap, b));
    if keys == [] {
      q := RelNewMap(s, t, kx, ky, p);
    } else if keys[0] !in At(s.heap, a) {
      q := RelFilterMap(cx, fuel, pred, a, b, keys[1..], kx, ky, s, t, p);
    } else {
      var k, v, w := keys[0], At(s.heap, a)[keys[0]], At(t.heap, b)[keys[0]];
      q := RelEntry(cx, fuel, pred, k, v, w, s, t, p);
      var c := EvalCondition(cx, fuel, ENTRY_ENV, pred, |s.heap|, Alloc(s, map["key" := StrV(k), "value" := v]));
      var c' := EvalCondition(cx, fuel, ENTRY_ENV, pred, |t.heap|, Alloc(t, map["key" := StrV(k), "value" := w]));
      if c.out.Done? {
        var q1, keep := q, c.out.value;
        RelKeptEntries(p, q1, kx, ky, k, v, w, keep);
        q := RelFilterMap(cx, fuel, pred, a, b, keys[1..], if keep then kx[k := v] else kx,
                          if keep then ky[k := w] else ky, c.s, c'.s, q1);
        ExtendsTrans(p, q1, q);
      }
    }
  }

  lemma RelBool(p: Ren, q: Ren, x: Res<Val>, y: Res<Val>)
    requires RelRes(p, q, x, y)
    ensures SameRes(p, q, BoolOf(x), BoolOf(y))
  {
  }

  lemma ConditionUnfolds(cx: Ctx, fuel: nat, env: Env, when: Source, vars: nat, s: State)
    ensures EvalCondition(cx, fuel, env, when, vars, s)
         == if when.EmptyText? then Res(s, Done(true))
            else if when.Malformed? || TypeOf(env, when.e).None? then Res(s, Fail)
            else BoolOf(EvalExpr(cx, fuel, when.e, vars, s))
  {
  }

  lemma {:induction false} RelCondition(cx: Ctx, fuel: nat, env: Env, when: Source, f: nat, g: nat, s: State, t: State,
                                        p: Ren) returns (q: Ren)
    requires Rel(p, s, t) && Framed(p, f, g)
    ensures SameRes(p, q, EvalCondition(cx, fuel, env, when, f, s), EvalCondition(cx, fuel, env, when, g, t))
    decreases fuel, when, 0
  {
    ConditionUnfolds(cx, fuel, env, when, f, s);
    ConditionUnfolds(cx, fuel, env, when, g, t);
    q := p;
    if when.Text? && TypeOf(env, when.e).Some? {
      q := RelExpr(cx, fuel, when.e, f, g, s, t, p);
      RelBool(p, q, EvalExpr(cx, fuel, when.e, f, s), EvalExpr(cx, fuel, when.e, g, t));
    }
  }

  /** The frame, the parameter and the body of a call. */
  function InFrame(cx: Ctx, fuel: nat, fd: FuncDef, arg: Val, s: State): Res<Env>
    requires Callable(fd)
  {
    var c := CreateVariable(cx, map[], |s.heap|, fd.input.value, arg, Alloc(s, map[]));
    if c.out.Done? then EvalArray(cx, fuel, c.out.value, |s.heap|, fd.body.elems, c.s) else Res(c.s, Fail)
  }

  lemma {:induction false} RelInFrame(cx: Ctx, fuel: nat, fd: FuncDef, v: Val, w: Val, s: State, t: State, p: Ren)
      returns (q: Ren)
    requires Rel(p, s, t) && RelVal(p, v, w) && Callable(fd)
    ensures SameRes(p, q, InFrame(cx, fuel, fd, v, s), InFrame(cx, fuel, fd, w, t))
    ensures Framed(q, |s.heap|, |t.heap|)
    decreases fuel, fd, 0
  {
    var f, g := |s.heap|, |t.heap|;
    var q1 := RelAlloc(p, s, t, map[], map[]);
    RelValMono(p, q1, v, w);
    var s1, t1 := Alloc(s, map[]), Alloc(t, map[]);
    var q2 := RelCreate(cx, map[], q1, f, g, fd.input.value, v, w, s1, t1);
    var c := CreateVariable(cx, map[], f, fd.input.value, v, s1);
    var c' := CreateVariable(cx, map[], g, fd.input.value, w, t1);
    ExtendsTrans(p, q1, q2);
    q := q2;
    if c.out.Done? {
      q := RelArray(cx, fuel, c.out.value, f, g, fd.body.elems, c.s, c'.s, q2);
      ExtendsTrans(p, q2, q);
    }
  }

  lemma {:induction false} RelFunction(cx: Ctx, fuel: nat, fd: FuncDef, v: Val, w: Val, s: State, t: State, p: Ren)
      returns (q: Ren)
    requires Rel(p, s, t) && RelVal(p, v, w)
    ensures RelRes(p, q, CallFunction(cx, fuel, fd, v, s), CallFunction(cx, fuel, fd, w, t))
    decreases fuel
  {
    q := p;
    if Callable(fd) {
      q := RelInFrame(cx, fuel, fd, v, w, s, t, p);
      FunctionUnfolds(cx, fuel, fd, v, s);
      FunctionUnfolds(cx, fuel, fd, w, t);
      RelOutput(p, q, fd.output.value, |s.heap|, |t.heap|, InFrame(cx, fuel, fd, v, s), InFrame(cx, fuel, fd, w, t));
    }
  }

  /** The output of a call whose body has run in frame f. */
  function OutputOf(output: string, f: nat, r: Res<Env>): Res<Val> {
    match r.out
    case Fail => Res(r.s, Fail)
    case OutOfFuel => Res(r.s, OutOfFuel)
    case Done(_) =>
      if output !in At(r.s.heap, f) || ConvertToRefVal(At(r.s.heap, f)[output]).None? then Res(r.s, Fail)
      else Res(r.s, Done(At(r.s.heap, f)[output]))
  }

  lemma FunctionUnfolds(cx: Ctx, fuel: nat, fd: FuncDef, arg: Val, s: State)
    requires Callable(fd)
    ensures CallFunction(cx, fuel, fd, arg, s) == OutputOf(fd.output.value, |s.heap|, InFrame(cx, fuel, fd, arg, s))
  {
  }

  lemma RelOutput(p: Ren, q: Ren, output: string, f: nat, g: nat, x: Res<Env>, y: Res<Env>)
    requires SameRes(p, q, x, y) && Framed(q, f, g)
    ensures RelRes(p, q, OutputOf(output, f, x), OutputOf(output, g, y))
  {
    if x.out.Done? {
      var m, n := At(x.s.heap, f), At(y.s.heap, g);
      assert RelMap(q, m, n);
      if output in m { assert RelVal(q, m[output], n[output]); }
    }
  }

  // ---------------------------------------------------------------- statements

  lemma RelStore(cx: Ctx, env: Env, p: Ren, f: nat, g: nat, name: string, x: Res<Val>, y: Res<Val>, q1: Ren)
      returns (q: Ren)
    requires RelRes(p, q1, x, y) && Framed(p, f, g)
    ensures SameRes(p, q, StoreResult(cx, env, f, name, x), StoreResult(cx, env, g, name, y))
  {
    q := q1;
    if x.out.Done? {
      q := RelCreate(cx, env, q1, f, g, name, x.out.value, y.out.value, x.s, y.s);
      ExtendsTrans(p, q1, q);
    }
  }

  lemma SetOneUnfolds(cx: Ctx, fuel: nat, env: Env, vars: nat, name: string, val: Source, s: State)
    ensures SetOneVariable(cx, fuel, env, vars, name, val, s)
         == if name == "" then Res(s, Done(env))
            else if !val.Text? || TypeOf(env, val.e).None? then Res(s, Fail)
            else StoreResult(cx, env, vars, name, EvalExpr(cx, fuel, val.e, vars, s))
  {
  }

  lemma {:induction false} RelSetOne(cx: Ctx, fuel: nat, env: Env, f: nat, g: nat, name: string, val: Source, s: State,
                                     t: State, p: Ren) returns (q: Ren)
    requires Rel(p, s, t) && Framed(p, f, g)
    ensures SameRes(p, q, SetOneVariable(cx, fuel, env, f, name, val, s),
                    SetOneVariable(cx, fuel, env, g, name, val, t))
    decreases fuel, val, 0
  {
    SetOneUnfolds(cx, fuel, env, f, name, val, s);
    SetOneUnfolds(cx, fuel, env, g, name, val, t);
    q := p;
    if name != "" && val.Text? && TypeOf(env, val.e).Some? {
      var q1 := RelExpr(cx, fuel, val.e, f, g, s, t, p);
      q := RelStore(cx, env, p, f, g, name, EvalExpr(cx, fuel, val.e, f, s), EvalExpr(cx, fuel, val.e, g, t), q1);
    }
  }

  lemma {:induction false} RelField(cx: Ctx, fuel: nat, env: Env, f: nat, g: nat, fld: Field, s: State, t: State,
                                    p: Ren)
      returns (q: Ren)
    requires Rel(p, s, t) && Framed(p, f, g)
    ensures SameRes(p, q, AssignField(cx, fuel, env, f, fld, s), AssignField(cx, fuel, env, g, fld, t))
    decreases fuel, fld, 1
  {
    q := p;
    if fld.key.Name? && !IsKeyword(fld.key.name) && IsText(fld.value) {
      q := RelSetOne(cx, fuel, env, f, g, fld.key.name, fld.value.text, s, t, p);
    }
  }

  lemma {:induction false} RelFields(cx: Ctx, fuel: nat, env: Env, f: nat, g: nat, fields: seq<Field>, order: seq<nat>,
                                     s: State, t: State, p: Ren) returns (q: Ren)
    requires Rel(p, s, t) && Framed(p, f, g)
    requires forall i | i in order :: i < |fields|
    ensures SameRes(p, q, AssignFields(cx, fuel, env, f, fields, order, s),
                    AssignFields(cx, fuel, env, g, fields, order, t))
    decreases fuel, fields, 1, |order|
  {
    q := p;
    if order != [] {
      assert order[0] in order && forall i | i in order[1..] :: i in order;
      q := RelField(cx, fuel, env, f, g, fields[order[0]], s, t, p);
      var r := AssignField(cx, fuel, env, f, fields[order[0]], s);
      var r' := AssignField(cx, fuel, env, g, fields[order[0]], t);
      if r.out.Done? { q := RelFields(cx, fuel, r.out.value, f, g, fields, order[1..], r.s, r'.s, q); }
    }
  }

  lemma {:induction false} RelBody(cx: Ctx, fuel: nat, env: Env, f: nat, g: nat, body: Yaml, s: State, t: State, p: Ren)
      returns (q: Ren)
    requires Rel(p, s, t) && Framed(p, f, g)
    ensures SameRes(p, q, EvalBody(cx, fuel, env, f, body, s), EvalBody(cx, fuel, env, g, body, t))
    decreases fuel, body, 1
  {
    q := p;
    if body.YList? { q := RelArray(cx, fuel, env, f, g, body.elems, s, t, p); }
  }

  lemma {:induction false} RelAssignment(cx: Ctx, fuel: nat, env: Env, f: nat, g: nat, fields: seq<Field>, s: State,
                                         t: State, p: Ren) returns (q: Ren)
    requires Rel(p, s, t) && Framed(p, f, g)
    ensures SameRes(p, q, EvalAssignment(cx, fuel, env, f, fields, s), EvalAssignment(cx, fuel, env, g, fields, t))
    decreases fuel, fields, 2
  {
    q := RelFields(cx, fuel, env, f, g, fields, VisitOrder(|fields|, cx.visit(s.tick)), s.(tick := s.tick + 1),
                   t.(tick := t.tick + 1), p);
  }

  lemma {:induction false} RelThen(cx: Ctx, fuel: nat, env: Env, f: nat, g: nat, fields: seq<Field>, s: State, t: State,
                                   p: Ren) returns (q: Ren)
    requires Rel(p, s, t) && Framed(p, f, g)
    ensures SameRes(p, q, ThenPart(cx, fuel, env, f, fields, s), ThenPart(cx, fuel, env, g, fields, t))
    decreases fuel, fields, 3
  {
    if Get(fields, BODY).Some? {
      q := RelBody(cx, fuel, env, f, g, Get(fields, BODY).value, s, t, p);
    } else if Get(fields, SWITCH).Some? {
      q := RelSwitch(cx, fuel, env, f, g, Get(fields, SWITCH).value, s, t, p);
    } else {
      q := RelAssignment(cx, fuel, env, f, g, fields, s, t, p);
    }
  }

  lemma {:induction false} RelIf(cx: Ctx, fuel: nat, env: Env, f: nat, g: nat, fields: seq<Field>, s: State, t: State,
                                 p: Ren) returns (q: Ren)
    requires Rel(p, s, t) && Framed(p, f, g)
    ensures SameRes(p, q, EvalIf(cx, fuel, env, f, fields, s), EvalIf(cx, fuel, env, g, fields, t))
    decreases fuel, fields, 4, 1
  {
    q := p;
    IfUnfolds(cx, fuel, env, f, fields, s);
    IfUnfolds(cx, fuel, env, g, fields, t);
    if IfSyntax(fields) {
      var when := Get(fields, IF).value.text;
      q := RelCondition(cx, fuel, env, when, f, g, s, t, p);
      var c, c' := EvalCondition(cx, fuel, env, when, f, s), EvalCondition(cx, fuel, env, when, g, t);
      if c.out == Done(true) {
        q := RelTaken(cx, fuel, env, f, g, fields, c.s, c'.s, p, q);
      }
    }
  }

  lemma {:induction false} RelTaken(cx: Ctx, fuel: nat, env: Env, f: nat, g: nat, fields: seq<Field>, s: State,
                                    t: State, p: Ren, p1: Ren) returns (q: Ren)
    requires Rel(p1, s, t) && Framed(p1, f, g) && Extends(p, p1)
    ensures SameRes(p, q, Taken(ThenPart(cx, fuel, env, f, fields, s)), Taken(ThenPart(cx, fuel, env, g, fields, t)))
    decreases fuel, fields, 4, 0
  {
    q := RelThen(cx, fuel, env, f, g, fields, s, t, p1);
    ExtendsTrans(p, p1, q);
  }

  /** The outcome of an if whose condition held. */
  function Taken(r: Res<Env>): Res<(Env, bool)> {
    match r.out
    case Done(env) => Res(r.s, Done((env, true)))
    case Fail => Res(r.s, Fail)
    case OutOfFuel => Res(r.s, OutOfFuel)
  }

  lemma IfUnfolds(cx: Ctx, fuel: nat, env: Env, vars: nat, fields: seq<Field>, s: State)
    ensures EvalIf(cx, fuel, env, vars, fields, s)
         == if !IfSyntax(fields) then Res(s, Fail)
            else
              var c := EvalCondition(cx, fuel, env, Get(fields, IF).value.text, vars, s);
              match c.out
              case Fail => Res(c.s, Fail)
              case OutOfFuel => Res(c.s, OutOfFuel)
              case Done(b) =>
                if b then Taken(ThenPart(cx, fuel, env, vars, fields, c.s)) else Res(c.s, Done((env, false)))
  {
  }

  lemma {:induction false} RelSwitch(cx: Ctx, fuel: nat, env: Env, f: nat, g: nat, cases: Yaml, s: State, t: State,
                                     p: Ren) returns (q: Ren)
    requires Rel(p, s, t) && Framed(p, f, g)
    ensures SameRes(p, q, EvalSwitch(cx, fuel, env, f, cases, s), EvalSwitch(cx, fuel, env, g, cases, t))
    decreases fuel, cases, 1
  {
    q := p;
    if cases.YList? { q := RelCases(cx, fuel, env, f, g, cases.elems, 0, None, s, t, p); }
  }

  lemma {:induction false} RelCases(cx: Ctx, fuel: nat, env: Env, f: nat, g: nat, cases: seq<Yaml>, i: nat,
                                    dflt: Option<nat>, s: State, t: State, p: Ren) returns (q: Ren)
    requires Rel(p, s, t) && Framed(p, f, g)
    requires i <= |cases|
    requires dflt.Some? ==> dflt.value < |cases| && IsDefault(cases[dflt.value])
    ensures SameRes(p, q, SwitchCases(cx, fuel, env, f, cases, i, dflt, s),
                    SwitchCases(cx, fuel, env, g, cases, i, dflt, t))
    decreases fuel, cases, |cases| - i
  {
    q := p;
    if i == |cases| {
      if dflt.Some? {
        q := RelArray(cx, fuel, env, f, g, Get(cases[dflt.value].fields, DEFAULT).value.elems, s, t, p);
      }
    } else if cases[i].YObject? && Get(cases[i].fields, IF).Some? {
      q := RelIf(cx, fuel, env, f, g, cases[i].fields, s, t, p);
      var r, r' := EvalIf(cx, fuel, env, f, cases[i].fields, s), EvalIf(cx, fuel, env, g, cases[i].fields, t);
      if r.out.Done? && !r.out.value.1 { q := RelCases(cx, fuel, env, f, g, cases, i + 1, dflt, r.s, r'.s, q); }
    } else if IsDefault(cases[i]) && dflt.None? {
      q := RelCases(cx, fuel, env, f, g, cases, i + 1, Some(i), s, t, p);
    }
  }

  lemma {:induction false} RelObject(cx: Ctx, fuel: nat, env: Env, f: nat, g: nat, item: Yaml, s: State, t: State,
                                     p: Ren) returns (q: Ren)
    requires Rel(p, s, t) && Framed(p, f, g)
    ensures SameRes(p, q, EvalObject(cx, fuel, env, f, item, s), EvalObject(cx, fuel, env, g, item, t))
    decreases fuel, item, 0
  {
    q := p;
    if item.YObject? {
      var fields := item.fields;
      var k := CountKeywords(fields);
      if k.hasIf {
        q := RelIf(cx, fuel, env, f, g, fields, s, t, p);
      } else if (k.hasSwitch || k.hasBody) && (k.count > 1 || |fields| > 1) {
      } else if k.hasSwitch {
        if Get(fields, SWITCH).Some? { q := RelSwitch(cx, fuel, env, f, g, Get(fields, SWITCH).value, s, t, p); }
      } else if k.hasBody {
        if Get(fields, BODY).Some? { q := RelBody(cx, fuel, env, f, g, Get(fields, BODY).value, s, t, p); }
      } else if !k.hasDefault && |fields| <= 1 {
        q := RelAssignment(cx, fuel, env, f, g, fields, s, t, p);
      }
    }
  }

  /** The main result: a list of statements does the same in corresponding states. */
  lemma {:induction false} RelArray(cx: Ctx, fuel: nat, env: Env, f: nat, g: nat, body: seq<Yaml>, s: State, t: State,
                                    p: Ren) returns (q: Ren)
    requires Rel(p, s, t) && Framed(p, f, g)
    ensures SameRes(p, q, EvalArray(cx, fuel, env, f, body, s), EvalArray(cx, fuel, env, g, body, t))
    decreases fuel, body, 0
  {
    q := p;
    if body != [] {
      q := RelObject(cx, fuel, env, f, g, body[0], s, t, p);
      var r, r' := EvalObject(cx, fuel, env, f, body[0], s), EvalObject(cx, fuel, env, g, body[0], t);
      if r.out.Done? { q := RelArray(cx, fuel, r.out.value, f, g, body[1..], r.s, r'.s, q); }
    }
  }
}
