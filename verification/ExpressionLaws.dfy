/** Laws of expressions. */
module ExpressionLaws {
  import opened Text
  import opened Values
  import opened Syntax
  import opened Semantics
  import opened Ownership
  import opened Scoping
  import opened Renaming

  // What the value of an expression is, in terms of the values of its parts and of the laws that the
  // operators obey; and what the type check has to do with it: a checked expression that has a value
  // has one of its type, and the check rejects nothing that could have a value.

  // ---------------------------------------------------------------- operators

  /** Integers wrap around at 64 bits: z is the sum up to k times 2^64, and subtraction undoes addition. */
  lemma Integers(x: int64, y: int64) returns (z: int64, k: int)
    ensures ApplyBin(Add, IntV(x), IntV(y)) == Done(IntV(z)) && z == x + y + k * 0x1_0000_0000_0000_0000
    ensures ApplyBin(Sub, IntV(z), IntV(y)) == Done(IntV(x))
    ensures ApplyBin(Leq, IntV(x), IntV(y)) == Done(BoolV(x <= y))
  {
    z := Wrap64(x + y);
    k := Wraps(x + y);
    var m := Wraps(z - y);
    assert Wrap64(z - y) == x + (k + m) * TWO_TO_THE_64;
    assert k + m == 0;
  }

  /** Wrap-around keeps the number up to a multiple of 2^64. */
  lemma Wraps(i: int) returns (k: int)
    ensures Wrap64(i) == i + k * TWO_TO_THE_64
  {
    k := -((i - MIN_INT64) / TWO_TO_THE_64);
  }

  /** Doubles are added and compared as real numbers. */
  lemma Doubles(a: real, b: real)
    ensures ApplyBin(Add, DoubleV(a), DoubleV(b)) == ApplyBin(Add, DoubleV(b), DoubleV(a))
    ensures ApplyBin(Add, DoubleV(a), DoubleV(b)) == Done(DoubleV(a + b))
    ensures ApplyBin(Sub, DoubleV(a + b), DoubleV(b)) == Done(DoubleV(a))
    ensures ApplyBin(Leq, DoubleV(a), DoubleV(b)) == Done(BoolV(a <= b))
  {
  }

  /** Strings and lists are joined: the left operand comes first. */
  lemma Concatenation(x: string, y: string, xs: seq<Val>, ys: seq<Val>)
    ensures exists z ::
              ApplyBin(Add, StrV(x), StrV(y)) == Done(StrV(z)) && |z| == |x| + |y| && z[..|x|] == x && z[|x|..] == y
    ensures exists zs ::
              ApplyBin(Add, ListV(xs), ListV(ys)) == Done(ListV(zs)) && |zs| == |xs| + |ys|
              && zs[..|xs|] == xs && zs[|xs|..] == ys
  {
    var z, zs := x + y, xs + ys;
    assert z[..|x|] == x && z[|x|..] == y && zs[..|xs|] == xs && zs[|xs|..] == ys;
    assert ApplyBin(Add, StrV(x), StrV(y)) == Done(StrV(z));
    assert ApplyBin(Add, ListV(xs), ListV(ys)) == Done(ListV(zs));
  }

  ghost predicate AtMost(v: Val, w: Val) {
    ApplyBin(Leq, v, w) == Done(BoolV(true))
  }

  /** The kinds that are ordered. */
  predicate Ordered(v: Val) {
    v.IntV? || v.DoubleV? || v.StrV? || v.BoolV?
  }

  /** On each ordered kind `<=` is a total order with the equality `==`. */
  lemma LeqIsOrder(u: Val, v: Val, w: Val)
    requires Ordered(u) && KindOf(u) == KindOf(v) == KindOf(w)
    ensures ApplyBin(Leq, u, v).Done? && ApplyBin(Leq, u, v).value.BoolV?
    ensures AtMost(u, u) && (AtMost(u, v) || AtMost(v, u))
    ensures AtMost(u, v) && AtMost(v, w) ==> AtMost(u, w)
    ensures AtMost(u, v) && AtMost(v, u) <==> ApplyBin(Eq, u, v) == Done(BoolV(true))
  {
    if u.StrV? {
      LexTotal(u.s, v.s);
      LexTotal(u.s, u.s);
      if LexLeq(u.s, v.s) && LexLeq(v.s, w.s) { LexTransitive(u.s, v.s, w.s); }
    }
  }

  /** Strings are ordered by their first difference, and false is below true. */
  lemma LeqDirection(x: string, c: char, d: char, y: string, z: string)
    ensures c < d ==> AtMost(StrV(x + ([c] + y)), StrV(x + ([d] + z)))
    ensures AtMost(StrV(x), StrV(x + y))
    ensures AtMost(BoolV(false), BoolV(true))
  {
    if c < d { FirstDifference(x, [c] + y, [d] + z); }
    FirstDifference(x, "", y);
    assert x + "" == x;
  }

  lemma {:induction false} FirstDifference(x: string, y: string, z: string)
    requires LexLeq(y, z)
    ensures LexLeq(x + y, x + z)
    decreases |x|
  {
    if x == "" {
      assert x + y == y && x + z == z;
    } else {
      FirstDifference(x[1..], y, z);
      assert (x + y)[1..] == x[1..] + y && (x + z)[1..] == x[1..] + z;
    }
  }

  /** Equality holds of equal values only; values of different kinds cannot be compared. */
  lemma Equality(v: Val, w: Val)
    requires Ordered(v)
    ensures KindOf(v) == KindOf(w) ==> ApplyBin(Eq, v, w) == Done(BoolV(v == w))
    ensures KindOf(v) != KindOf(w) ==> forall op :: ApplyBin(op, v, w) == Fail && ApplyBin(op, w, v) == Fail
  {
  }

  // ---------------------------------------------------------------- evaluation

  /** A literal denotes itself. */
  lemma Literals(cx: Ctx, fuel: nat, f: nat, s: State, i: int64, b: bool, r: real, t: string)
    ensures EvalExpr(cx, fuel, Lit(CInt(i)), f, s) == Res(s, Done(IntV(i)))
    ensures EvalExpr(cx, fuel, Lit(CBool(b)), f, s) == Res(s, Done(BoolV(b)))
    ensures EvalExpr(cx, fuel, Lit(CDouble(r)), f, s) == Res(s, Done(DoubleV(r)))
    ensures EvalExpr(cx, fuel, Lit(CString(t)), f, s) == Res(s, Done(StrV(t)))
    ensures EvalExpr(cx, fuel, Lit(CNull), f, s) == Res(s, Done(NullV))
  {
  }

  /** A path reads the variable, then one component after the other. */
  lemma Paths(cx: Ctx, fuel: nat, f: nat, s: State, x: string, fields: seq<string>, k: string)
    ensures EvalExpr(cx, fuel, Path(x, []), f, s)
         == Res(s, if x in At(s.heap, f) then Done(At(s.heap, f)[x]) else Fail)
    ensures var a := EvalExpr(cx, fuel, Path(x, fields), f, s).out;
            EvalExpr(cx, fuel, Path(x, fields + [k]), f, s)
            == Res(s, if a.Done? && a.value.MapV? && k in At(s.heap, a.value.ref) then Done(At(s.heap, a.value.ref)[k])
                      else Fail)
  {
    if x in At(s.heap, f) { SelectMore(s.heap, At(s.heap, f)[x], fields, k); }
  }

  lemma {:induction false} SelectMore(h: Heap, v: Val, fields: seq<string>, k: string)
    ensures var a := Select(h, v, fields);
            Select(h, v, fields + [k])
            == if a.Done? && a.value.MapV? && k in At(h, a.value.ref) then Done(At(h, a.value.ref)[k]) else Fail
    decreases |fields|
  {
    if fields == [] {
      assert (fields + [k])[1..] == [];
    } else {
      assert (fields + [k])[1..] == fields[1..] + [k];
      if v.MapV? && fields[0] in At(h, v.ref) { SelectMore(h, At(h, v.ref)[fields[0]], fields[1..], k); }
    }
  }

  /** Negation is defined on bools, and undoes itself. */
  lemma Negation(cx: Ctx, fuel: nat, a: Expr, f: nat, s: State)
    ensures var x := EvalExpr(cx, fuel, a, f, s); var r := EvalExpr(cx, fuel, Not(a), f, s);
            && r.s == x.s && (r.out == OutOfFuel <==> x.out == OutOfFuel)
            && (r.out == Done(BoolV(true)) <==> x.out == Done(BoolV(false)))
            && (r.out == Done(BoolV(false)) <==> x.out == Done(BoolV(true)))
            && (r.out.Done? ==> r.out.value.BoolV?)
  {
  }

  /**
   A conjunction: a false left side decides alone; otherwise both sides are evaluated, both must be
   true for it to be true, and a false right side makes it false even when the left side failed.
   */
  lemma Conjunctions(cx: Ctx, fuel: nat, l: Expr, r: Expr, f: nat, s: State)
    ensures var x := EvalExpr(cx, fuel, l, f, s); var y := EvalExpr(cx, fuel, r, f, x.s);
            var c := EvalExpr(cx, fuel, And(l, r), f, s);
            && (x.out == Done(BoolV(false)) ==> c == x)
            && (x.out != Done(BoolV(false)) ==>
                  && c.s == y.s
                  && (c.out == OutOfFuel <==> x.out == OutOfFuel || y.out == OutOfFuel)
                  && (c.out == Done(BoolV(true)) <==> x.out == Done(BoolV(true)) && y.out == Done(BoolV(true)))
                  && (c.out == Done(BoolV(false)) <==> x.out != OutOfFuel && y.out == Done(BoolV(false)))
                  && (c.out.Done? ==> c.out.value.BoolV?))
  {
    AndUnfolds(cx, fuel, And(l, r), f, s);
  }

  /** An operator evaluates both operands, left first, and fails when one of them does. */
  lemma Operators(cx: Ctx, fuel: nat, op: BinOp, l: Expr, r: Expr, f: nat, s: State)
    ensures var x := EvalExpr(cx, fuel, l, f, s); var y := EvalExpr(cx, fuel, r, f, x.s);
            var e := EvalExpr(cx, fuel, Bin(op, l, r), f, s);
            && e.s == y.s && (e.out == OutOfFuel <==> x.out == OutOfFuel || y.out == OutOfFuel)
            && (x.out.Done? && y.out.Done? ==> e.out == ApplyBin(op, x.out.value, y.out.value))
            && (x.out.Fail? || y.out.Fail? ==> !e.out.Done?)
  {
    BinUnfolds(cx, fuel, Bin(op, l, r), f, s);
  }

  /**
   A call by name: an unknown name or a callee that is not a string fails, without running anything
   after the operands; a declared function is run on the parameter, one level deeper.
   */
  lemma Calls(cx: Ctx, fuel: nat, callee: Expr, p: Expr, f: nat, s: State)
    ensures var x := EvalExpr(cx, fuel, callee, f, s); var y := EvalExpr(cx, fuel, p, f, x.s);
            var r := EvalExpr(cx, fuel, Call(callee, p), f, s);
            && (x.out == OutOfFuel || y.out == OutOfFuel ==> r == Res(y.s, OutOfFuel))
            && (x.out != OutOfFuel && y.out != OutOfFuel && (x.out.Fail? || y.out.Fail?) ==> r == Res(y.s, Fail))
            && (x.out.Done? && y.out.Done? ==>
                  && ((forall name | name in cx.functions :: x.out.value != StrV(name)) ==> r == Res(y.s, Fail))
                  && (forall name | name in cx.functions && x.out.value == StrV(name) ::
                        r == if fuel == 0 then Res(y.s, OutOfFuel)
                             else CallFunction(cx, fuel - 1, cx.functions[name], y.out.value, y.s)))
  {
    CallUnfolds(cx, fuel, Call(callee, p), f, s);
  }

  /** The body of a call, in a new frame that holds the parameter only. */
  ghost function Body(cx: Ctx, fuel: nat, input: string, ty: Ty, body: seq<Yaml>, arg: Val, s: State): Res<Env> {
    EvalArray(cx, fuel, map[input := ty], |s.heap|, body, Alloc(s, map[input := arg]))
  }

  /**
   What a call returns: the output variable of the frame after the body. A declaration without input
   name, output name or list body, and a parameter that cannot be declared, fail before anything runs.
   */
  lemma CallReturns(cx: Ctx, fuel: nat, fd: FuncDef, arg: Val, s: State)
    ensures fd.input.None? || fd.output.None? || !fd.body.YList? ==> CallFunction(cx, fuel, fd, arg, s) == Res(s, Fail)
    ensures fd.input.Some? && fd.output.Some? && fd.body.YList? && '.' !in fd.input.value ==>
              var r := CallFunction(cx, fuel, fd, arg, s);
              if KindOf(arg).None? then r == Res(Alloc(s, map[]), Fail)
              else
                var b := Body(cx, fuel, fd.input.value, KindOf(arg).value, fd.body.elems, arg, s);
                var m := At(b.s.heap, |s.heap|);
                && r.s == b.s && (r.out.OutOfFuel? <==> b.out.OutOfFuel?)
                && (r.out.Done? <==> b.out.Done? && fd.output.value in m && KindOf(m[fd.output.value]).Some?)
                && (r.out.Done? ==> r.out.value == m[fd.output.value])
  {
    if fd.input.Some? && '.' !in fd.input.value {
      SplitPlain(fd.input.value);
      var s1 := Alloc(s, map[]);
      assert Put(s1.heap, |s.heap|, fd.input.value, arg) == Alloc(s, map[fd.input.value := arg]).heap;
    }
  }

  /** An empty condition holds; any other must check, and give a bool, which is its verdict. */
  lemma Conditions(cx: Ctx, fuel: nat, env: Env, e: Expr, f: nat, s: State)
    ensures EvalCondition(cx, fuel, env, EmptyText, f, s) == Res(s, Done(true))
    ensures EvalCondition(cx, fuel, env, Malformed, f, s) == Res(s, Fail)
    ensures TypeOf(env, e).None? ==> EvalCondition(cx, fuel, env, Text(e), f, s) == Res(s, Fail)
    ensures TypeOf(env, e).Some? ==>
              var x := EvalExpr(cx, fuel, e, f, s); var c := EvalCondition(cx, fuel, env, Text(e), f, s);
              && c.s == x.s && (c.out.OutOfFuel? <==> x.out.OutOfFuel?)
              && forall b :: c.out == Done(b) <==> x.out == Done(BoolV(b))
  {
  }

  /** A filter fails on what is neither a list nor a map. */
  lemma FilterNeedsCollection(cx: Ctx, fuel: nat, coll: Expr, p: Source, f: nat, s: State)
    ensures var x := EvalExpr(cx, fuel, coll, f, s); var r := EvalExpr(cx, fuel, Filter(coll, p), f, s);
            && (x.out.OutOfFuel? ==> r == x)
            && (x.out.Fail? || (x.out.Done? && !x.out.value.ListV? && !x.out.value.MapV?) ==> r == Res(x.s, Fail))
  {
  }

  // ---------------------------------------------------------------- the type check

  /** A checked expression that has a value has one of its type. */
  lemma {:induction false} TypeSound(cx: Ctx, fuel: nat, env: Env, e: Expr, f: nat, s: State)
    requires Sealed(s.heap, AllBut(f), f) && Agrees(env, At(s.heap, f)) && TypeOf(env, e).Some?
    ensures var x := EvalExpr(cx, fuel, e, f, s); x.out.Done? ==> HasType(x.out.value, TypeOf(env, e).value)
    decreases e
  {
    match e
    case Lit(_) =>
    case Path(root, fields) => assert root in env;
    case Not(_) => Negation(cx, fuel, e.arg, f, s);
    case And(l, r) => Conjunctions(cx, fuel, l, r, f, s);
    case Bin(op, l, r) =>
      TypeSound(cx, fuel, env, l, f, s);
      ExprKept(cx, fuel, l, f, s, AllBut(f));
      var x := EvalExpr(cx, fuel, l, f, s);
      TypeSound(cx, fuel, env, r, f, x.s);
      Operators(cx, fuel, op, l, r, f, s);
      var y := EvalExpr(cx, fuel, r, f, x.s);
      if x.out.Done? && y.out.Done? {
        ResultTyped(op, TypeOf(env, l).value, TypeOf(env, r).value, x.out.value, y.out.value);
      }
    case KabaneroConfig =>
    case Call(_, _) =>
    case Filter(_, _) =>
    case SendEvent(_, _, _) => SendText(cx, fuel, e, f, s);
    case ApplyResources(_, _) => ApplyText(cx, fuel, e, f, s);
  }

  lemma ResultTyped(op: BinOp, a: Ty, b: Ty, v: Val, w: Val)
    requires BinTy(op, a, b).Some? && HasType(v, a) && HasType(w, b)
    ensures ApplyBin(op, v, w).Done? ==> HasType(ApplyBin(op, v, w).value, BinTy(op, a, b).value)
  {
  }

  lemma SendText(cx: Ctx, fuel: nat, e: Expr, f: nat, s: State)
    requires e.SendEvent?
    ensures var x := EvalExpr(cx, fuel, e, f, s); x.out.Done? ==> x.out.value.StrV?
  {
    SendUnfolds(cx, fuel, e, f, s);
  }

  lemma ApplyText(cx: Ctx, fuel: nat, e: Expr, f: nat, s: State)
    requires e.ApplyResources?
    ensures var x := EvalExpr(cx, fuel, e, f, s); x.out.Done? ==> x.out.value.StrV?
  {
    ApplyUnfolds(cx, fuel, e, f, s);
  }

  /** Some values of these types can be operands. */
  ghost predicate CanApply(op: BinOp, a: Ty, b: Ty) {
    exists v, w :: HasType(v, a) && HasType(w, b) && ApplyBin(op, v, w).Done?
  }

  function Sample(t: Ty): Val {
    match t
    case TInt => IntV(0)
    case TBool => BoolV(true)
    case TDouble => DoubleV(0.0)
    case TString => StrV("")
    case TList => ListV([])
    case TMap => MapV(0)
    case TAny => IntV(0)
  }

  /** An operator is rejected exactly when no values of the operands' types are operands of it. */
  lemma OperatorChecked(op: BinOp, a: Ty, b: Ty)
    requires op == Eq ==> a != TList && a != TMap && b != TList && b != TMap
    ensures BinTy(op, a, b).Some? <==> CanApply(op, a, b)
  {
    if BinTy(op, a, b).Some? {
      var v, w := if a == TAny then Sample(b) else Sample(a), if b == TAny then Sample(a) else Sample(b);
      assert HasType(v, a) && HasType(w, b) && ApplyBin(op, v, w).Done?;
    }
  }

  /**
   What the check knows: a comparison is a bool, and an arithmetic operator gives the type of its operands,
   which is unknown only when both are. Constants, the configuration and the two effects have known types.
   */
  lemma KnownTypes(env: Env, op: BinOp, a: Ty, b: Ty, e: Expr, c: Const)
    ensures (op == Leq || op == Eq) && BinTy(op, a, b).Some? ==> BinTy(op, a, b) == Some(TBool)
    ensures (op == Add || op == Sub) && BinTy(op, a, b).Some? ==> BinTy(op, a, b).value == if a == TAny then b else a
    ensures (e.Not? || e.And?) && TypeOf(env, e).Some? ==> TypeOf(env, e) == Some(TBool)
    ensures (e.SendEvent? || e.ApplyResources?) && TypeOf(env, e).Some? ==> TypeOf(env, e) == Some(TString)
    ensures e.KabaneroConfig? ==> TypeOf(env, e) == Some(TMap)
    ensures (e.Call? || e.Filter?) && TypeOf(env, e).Some? ==> TypeOf(env, e) == Some(TAny)
    ensures TypeOf(env, Lit(c)) == if c == CNull then Some(TAny) else KindOf(ConstVal(c))
    ensures e.Path? && TypeOf(env, e).Some? ==> TypeOf(env, e) == Some(if e.fields == [] then env[e.root] else TAny)
  {
  }

  /** An undeclared root is rejected wherever it is read, and so is a component of what cannot be a map. */
  lemma PathChecked(env: Env, x: string, fields: seq<string>)
    ensures TypeOf(env, Path(x, fields)).Some?
        <==> x in env && (fields == [] || exists v :: HasType(v, env[x]) && KindOf(v) == Some(TMap))
  {
    assert HasType(MapV(0), TMap) && HasType(MapV(0), TAny);
  }

  /** Where bools are needed, a part is rejected exactly when it cannot be one. */
  lemma BoolsChecked(env: Env, a: Expr, b: Expr)
    ensures TypeOf(env, Not(a)).Some? <==> MayBe(env, a, TBool)
    ensures TypeOf(env, And(a, b)).Some? <==> MayBe(env, a, TBool) && MayBe(env, b, TBool)
  {
    MayBeTyped(env, a, TBool);
    MayBeTyped(env, b, TBool);
  }

  /** The functions demand a string first; the other operands only have to check. */
  lemma FunctionsChecked(env: Env, a: Expr, b: Expr, c: Expr, p: Source)
    ensures TypeOf(env, Call(a, b)).Some? <==> MayBe(env, a, TString) && TypeOf(env, b).Some?
    ensures TypeOf(env, Filter(a, p)).Some? <==> TypeOf(env, a).Some?
    ensures TypeOf(env, SendEvent(a, b, c)).Some?
        <==> MayBe(env, a, TString) && TypeOf(env, b).Some? && TypeOf(env, c).Some?
    ensures TypeOf(env, ApplyResources(a, b)).Some? <==> MayBe(env, a, TString) && TypeOf(env, b).Some?
  {
    MayBeTyped(env, a, TString);
  }

  lemma MayBeTyped(env: Env, e: Expr, t: Ty)
    requires t != TAny
    ensures MayBe(env, e, t) <==> Accepts(TypeOf(env, e), t)
  {
    assert KindOf(Sample(t)) == Some(t);
    if Accepts(TypeOf(env, e), t) { assert HasType(Sample(t), TypeOf(env, e).value); }
  }

  /** The expression checks, and a value of the type could be one of the given type. */
  ghost predicate MayBe(env: Env, e: Expr, t: Ty) {
    TypeOf(env, e).Some? && exists v :: HasType(v, TypeOf(env, e).value) && KindOf(v) == Some(t)
  }
}
