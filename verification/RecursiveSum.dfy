/**
 The recursive function of the documentation, run through the interpreter.
 */
module RecursiveSum {
  import opened Text
  import opened Values
  import opened Syntax
  import opened Semantics
  import opened Termination
  import opened Scoping
  import opened Divergence
  import opened Purity
  import opened Steadiness

  const INPUT := Path("input", [])

  const STOP: Expr := Bin(Leq, INPUT, Lit(CInt(0)))

  const STEP: Expr := Bin(Add, INPUT, Call(Lit(CString("sum")), Bin(Sub, INPUT, Lit(CInt(1)))))

  const STOP_CASE: seq<Field> :=
    [Field(Name("if"), YString(Text(STOP))), Field(Name("output"), YString(Text(INPUT)))]

  const STEP_BODY: seq<Yaml> := [Assign("output", Text(STEP))]

  const DEFAULT_CASE: Yaml := YObject([Field(Name("default"), YList(STEP_BODY))])

  const CASES: seq<Yaml> := [YObject(STOP_CASE), DEFAULT_CASE]

  const SUM_BODY: seq<Yaml> := [YObject([Field(Name("switch"), YList(CASES))])]

  const SUM: FuncDef := FuncDef(Some("input"), Some("output"), YList(SUM_BODY))

  /** 1 + 2 + ... + n. */
  function Triangle(n: nat): nat {
    if n == 0 then 0 else n + Triangle(n - 1)
  }

  lemma {:induction false} TriangleClosed(n: nat)
    ensures Triangle(n) == n * (n + 1) / 2
    ensures n * (n + 1) % 2 == 0
  {
    if n > 0 {
      TriangleClosed(n - 1);
      assert n * (n + 1) == (n - 1) * n + 2 * n;
    }
  }

  /** What the function returns: the 64-bit sum, or the input itself when that is not positive. */
  function SumOf(n: int64): int64 {
    if n <= 0 then n else Wrap64(Triangle(n))
  }

  lemma WrapAbsorbs(a: int, b: int)
    ensures Wrap64(a + Wrap64(b)) == Wrap64(a + b)
  {
    var m := TWO_TO_THE_64;
    var q := (b - MIN_INT64) / m;
    assert Wrap64(b) == b - q * m;
    ShiftMod(a + b - MIN_INT64, q, m);
  }

  lemma ShiftMod(x: int, q: int, m: int)
    requires m == TWO_TO_THE_64
    ensures (x - q * m) % m == x % m
  {
    var k := x / m;
    assert x == k * m + x % m;
    assert x - q * m == (k - q) * m + x % m;
  }

  lemma WrapInRange(n: int64)
    ensures Wrap64(n) == n
  {
  }

  // ---------------------------------------------------------------- the pieces of one call

  const ENV: Env := map["input" := TInt]

  /** The frame of a call with argument n, before its body. */
  ghost predicate AtEntry(s: State, f: nat, n: int64) {
    f < |s.heap| && s.heap[f] == map["input" := IntV(n)]
  }

  lemma Condition(cx: Ctx, fuel: nat, f: nat, s: State, n: int64)
    requires AtEntry(s, f, n)
    ensures EvalCondition(cx, fuel, ENV, Text(STOP), f, s) == Res(s, Done(n <= 0))
  {
    assert EvalExpr(cx, fuel, INPUT, f, s) == Res(s, Done(IntV(n)));
    assert EvalExpr(cx, fuel, Lit(CInt(0)), f, s) == Res(s, Done(IntV(0)));
    assert EvalBin(cx, fuel, STOP, f, s) == Res(s, ApplyBin(Leq, IntV(n), IntV(0)));
    assert EvalExpr(cx, fuel, STOP, f, s) == Res(s, Done(BoolV(n <= 0)));
    assert TypeOf(ENV, INPUT) == Some(TInt);
  }

  /** Assigning the output adds it to the frame and to the declarations. */
  lemma SetOutput(cx: Ctx, fuel: nat, f: nat, e: Expr, v: int64, s: State, s': State)
    requires f < |s'.heap| && TypeOf(ENV, e).Some?
    requires EvalExpr(cx, fuel, e, f, s) == Res(s', Done(IntV(v)))
    ensures SetOneVariable(cx, fuel, ENV, f, "output", Text(e), s)
         == Res(s'.(heap := Put(s'.heap, f, "output", IntV(v))), Done(ENV["output" := TInt]))
  {
    SplitPlain("output");
  }

  lemma CaseSyntax()
    ensures IfSyntax(STOP_CASE) && Get(STOP_CASE, IF) == Some(YString(Text(STOP)))
    ensures Get(STOP_CASE, BODY) == None && Get(STOP_CASE, SWITCH) == None
    ensures IsDefault(DEFAULT_CASE) && Get(DEFAULT_CASE.fields, DEFAULT) == Some(YList(STEP_BODY))
    ensures CountKeywords(SUM_BODY[0].fields) == Keywords(1, false, true, false, false)
    ensures Get(SUM_BODY[0].fields, SWITCH) == Some(YList(CASES))
  {
    var a, b := STOP_CASE[0], STOP_CASE[1];
    assert STOP_CASE[..1] == [a] && [a][..0] == [];
    assert CountKeywords([]) == Keywords(0, false, false, false, false);
    assert CountKeywords([a]) == Keywords(1, true, false, false, false);
    assert CountKeywords(STOP_CASE) == Keywords(1, true, false, false, false);
    assert STOP_CASE[1..] == [b] && [b][1..] == [];
    assert Get([b], BODY) == None && Get([b], SWITCH) == None;
    var d, w := DEFAULT_CASE.fields[0], SUM_BODY[0].fields[0];
    assert DEFAULT_CASE.fields[1..] == [] && SUM_BODY[0].fields[..0] == [];
    assert Get(DEFAULT_CASE.fields, IF) == None;
  }

  /** Visiting the two entries of an object one after the other. */
  lemma TwoFields(cx: Ctx, fuel: nat, env: Env, f: nat, fields: seq<Field>, i: nat, j: nat, s: State)
    requires i < |fields| && j < |fields|
    requires AssignField(cx, fuel, env, f, fields[i], s).out.Done?
    ensures var r := AssignField(cx, fuel, env, f, fields[i], s);
            AssignFields(cx, fuel, env, f, fields, [i, j], s)
            == AssignField(cx, fuel, r.out.value, f, fields[j], r.s)
  {
    var r := AssignField(cx, fuel, env, f, fields[i], s);
    var r' := AssignField(cx, fuel, r.out.value, f, fields[j], r.s);
    assert [i, j][1..] == [j] && [j][1..] == [];
    if r'.out.Done? { assert AssignFields(cx, fuel, r'.out.value, f, fields, [], r'.s) == r'; }
    assert AssignFields(cx, fuel, r.out.value, f, fields, [j], r.s) == r';
  }

  lemma ConditionSkipped(cx: Ctx, fuel: nat, env: Env, f: nat, s: State)
    ensures AssignField(cx, fuel, env, f, STOP_CASE[0], s) == Res(s, Done(env))
  {
  }

  lemma OutputSet(cx: Ctx, fuel: nat, f: nat, s: State, n: int64)
    requires AtEntry(s, f, n)
    ensures AssignField(cx, fuel, ENV, f, STOP_CASE[1], s)
         == Res(s.(heap := Put(s.heap, f, "output", IntV(n))), Done(ENV["output" := TInt]))
  {
    assert EvalExpr(cx, fuel, INPUT, f, s) == Res(s, Done(IntV(n)));
    SetOutput(cx, fuel, f, INPUT, n, s, s);
  }

  /** The two entries of the first case, in either order: the condition is skipped. */
  lemma StopAssigns(cx: Ctx, fuel: nat, f: nat, s: State, n: int64)
    requires AtEntry(s, f, n)
    ensures ThenPart(cx, fuel, ENV, f, STOP_CASE, s)
         == Res(State(Put(s.heap, f, "output", IntV(n)), s.trace, s.tick + 1), Done(ENV["output" := TInt]))
  {
    CaseSyntax();
    StopAssignment(cx, fuel, f, s, n);
  }

  lemma StopAssignment(cx: Ctx, fuel: nat, f: nat, s: State, n: int64)
    requires AtEntry(s, f, n)
    ensures EvalAssignment(cx, fuel, ENV, f, STOP_CASE, s)
         == Res(State(Put(s.heap, f, "output", IntV(n)), s.trace, s.tick + 1), Done(ENV["output" := TInt]))
  {
    OrderOfTwo(cx.visit(s.tick));
    EitherOrder(cx, fuel, f, s.(tick := s.tick + 1), n);
  }

  /** The condition is skipped, before or after the output is set. */
  lemma EitherOrder(cx: Ctx, fuel: nat, f: nat, s: State, n: int64)
    requires AtEntry(s, f, n)
    ensures var r := Res(State(Put(s.heap, f, "output", IntV(n)), s.trace, s.tick), Done(ENV["output" := TInt]));
            && AssignFields(cx, fuel, ENV, f, STOP_CASE, [0, 1], s) == r
            && AssignFields(cx, fuel, ENV, f, STOP_CASE, [1, 0], s) == r
  {
    OutputSet(cx, fuel, f, s, n);
    ConditionSkipped(cx, fuel, ENV, f, s);
    var r := AssignField(cx, fuel, ENV, f, STOP_CASE[1], s);
    ConditionSkipped(cx, fuel, r.out.value, f, r.s);
    TwoFields(cx, fuel, ENV, f, STOP_CASE, 0, 1, s);
    TwoFields(cx, fuel, ENV, f, STOP_CASE, 1, 0, s);
  }

  lemma OrderOfOne(x: nat, picks: seq<nat>)
    ensures Permute([x], picks) == [x]
  {
    var i := if picks != [] && picks[0] < 1 then picks[0] else 0;
    assert i == 0 && RemoveAt([x], 0) == [];
    assert Permute<nat>([], if picks == [] then [] else picks[1..]) == [];
  }

  lemma OrderOfTwo(picks: seq<nat>)
    ensures VisitOrder(2, picks) == [0, 1] || VisitOrder(2, picks) == [1, 0]
  {
    var xs := Indices(2);
    assert xs == [0, 1];
    var i := if picks != [] && picks[0] < 2 then picks[0] else 0;
    var rest := if picks == [] then [] else picks[1..];
    assert RemoveAt(xs, 0) == [1] && RemoveAt(xs, 1) == [0];
    OrderOfOne(1 - i, rest);
    assert Permute(xs, picks) == [i] + [1 - i];
  }

  // ---------------------------------------------------------------- the result

  ghost predicate Defined(cx: Ctx) {
    "sum" in cx.functions && cx.functions["sum"] == SUM
  }

  /** A call that returns v, leaves every existing map alone and has no effects. */
  ghost predicate Returns(r: Res<Val>, s: State, v: int64) {
    r.out == Done(IntV(v)) && s.heap <= r.s.heap && r.s.trace == s.trace
  }

  /** The body as a whole: the first case or the default, in the frame of the call. */
  lemma BodyUnfolds(cx: Ctx, fuel: nat, f: nat, s: State, n: int64)
    requires AtEntry(s, f, n)
    ensures var r := if n <= 0 then ThenPart(cx, fuel, ENV, f, STOP_CASE, s)
                     else EvalObject(cx, fuel, ENV, f, STEP_BODY[0], s);
            r.out.Done? ==> EvalArray(cx, fuel, ENV, f, SUM_BODY, s) == Res(r.s, Done(ENV))
  {
    CaseSyntax();
    Condition(cx, fuel, f, s, n);
    assert SUM_BODY[1..] == [] && STEP_BODY[1..] == [];
    var r := if n <= 0 then ThenPart(cx, fuel, ENV, f, STOP_CASE, s)
             else EvalObject(cx, fuel, ENV, f, STEP_BODY[0], s);
    if r.out.Done? {
      if n <= 0 {
        assert SwitchCases(cx, fuel, ENV, f, CASES, 0, None, s) == r;
      } else {
        assert EvalArray(cx, fuel, ENV, f, STEP_BODY, s) == r;
        assert SwitchCases(cx, fuel, ENV, f, CASES, 2, Some(1), s) == r;
        assert SwitchCases(cx, fuel, ENV, f, CASES, 1, None, s) == r;
        assert SwitchCases(cx, fuel, ENV, f, CASES, 0, None, s) == r;
      }
      assert EvalSwitch(cx, fuel, ENV, f, YList(CASES), s) == r;
      assert EvalObject(cx, fuel, ENV, f, SUM_BODY[0], s) == Res(r.s, Done(ENV));
    }
  }

  lemma StepTypes()
    ensures TypeOf(ENV, STEP) == Some(TInt)
  {
    assert TypeOf(ENV, INPUT) == Some(TInt);
    assert TypeOf(ENV, Bin(Sub, INPUT, Lit(CInt(1)))) == Some(TInt);
    assert TypeOf(ENV, Call(Lit(CString("sum")), Bin(Sub, INPUT, Lit(CInt(1))))) == Some(TAny);
  }

  const INNER: Expr := Bin(Sub, INPUT, Lit(CInt(1)))

  lemma InnerCall(cx: Ctx, fuel: nat, f: nat, s: State, n: int64)
    requires Defined(cx) && AtEntry(s, f, n) && 0 < n && 0 < fuel
    ensures EvalExpr(cx, fuel, Call(Lit(CString("sum")), INNER), f, s)
         == CallFunction(cx, fuel - 1, SUM, IntV(n - 1), s)
  {
    WrapInRange(n - 1);
    assert EvalExpr(cx, fuel, INPUT, f, s) == Res(s, Done(IntV(n)));
    assert EvalExpr(cx, fuel, Lit(CInt(1)), f, s) == Res(s, Done(IntV(1)));
    assert EvalExpr(cx, fuel, INNER, f, s) == Res(s, Done(IntV(n - 1)));
    assert EvalExpr(cx, fuel, Lit(CString("sum")), f, s) == Res(s, Done(StrV("sum")));
  }

  /** The recursive expression, when the inner call returns. */
  lemma StepEvaluates(cx: Ctx, fuel: nat, f: nat, s: State, n: int64)
    requires Defined(cx) && AtEntry(s, f, n) && 0 < n && 0 < fuel
    requires Returns(CallFunction(cx, fuel - 1, SUM, IntV(n - 1), s), s, SumOf(n - 1))
    ensures Returns(EvalExpr(cx, fuel, STEP, f, s), s, SumOf(n))
  {
    InnerCall(cx, fuel, f, s, n);
    var y := CallFunction(cx, fuel - 1, SUM, IntV(n - 1), s);
    assert EvalExpr(cx, fuel, INPUT, f, s) == Res(s, Done(IntV(n)));
    assert EvalExpr(cx, fuel, STEP, f, s) == Res(y.s, Done(IntV(Wrap64(n + SumOf(n - 1)))));
    if n == 1 {
      assert Triangle(1) == 1 + Triangle(0);
    } else {
      WrapAbsorbs(n, Triangle(n - 1));
    }
  }

  lemma Entry(cx: Ctx, n: int64, s: State)
    ensures var c := CreateVariable(cx, map[], |s.heap|, "input", IntV(n), Alloc(s, map[]));
            c == Res(Alloc(s, map["input" := IntV(n)]), Done(ENV))
  {
    SplitPlain("input");
    assert Put(Alloc(s, map[]).heap, |s.heap|, "input", IntV(n)) == Alloc(s, map["input" := IntV(n)]).heap;
  }

  /** The result of a call whose body has set the output to v. */
  lemma CallEnds(cx: Ctx, fuel: nat, n: int64, s: State)
    requires var r := EvalArray(cx, fuel, ENV, |s.heap|, SUM_BODY, Alloc(s, map["input" := IntV(n)]));
             && r.out.Done? && |s.heap| < |r.s.heap| && s.heap <= r.s.heap && r.s.trace == s.trace
             && "output" in r.s.heap[|s.heap|] && r.s.heap[|s.heap|]["output"] == IntV(SumOf(n))
    ensures Returns(CallFunction(cx, fuel, SUM, IntV(n), s), s, SumOf(n))
  {
    Entry(cx, n, s);
  }

  /** The default case, when the inner call returns. */
  lemma StepAssigns(cx: Ctx, fuel: nat, f: nat, s: State, n: int64)
    requires Defined(cx) && AtEntry(s, f, n) && 0 < n && 0 < fuel
    requires var s1 := s.(tick := s.tick + 1);
             Returns(CallFunction(cx, fuel - 1, SUM, IntV(n - 1), s1), s1, SumOf(n - 1))
    ensures var r := EvalObject(cx, fuel, ENV, f, STEP_BODY[0], s);
            && r.out.Done? && r.s.trace == s.trace && |s.heap| <= |r.s.heap|
            && (forall q | 0 <= q < |s.heap| && q != f :: r.s.heap[q] == s.heap[q])
            && "output" in r.s.heap[f] && r.s.heap[f]["output"] == IntV(SumOf(n))
  {
    var s1 := s.(tick := s.tick + 1);
    StepEvaluates(cx, fuel, f, s1, n);
    StepTypes();
    SetOutput(cx, fuel, f, STEP, SumOf(n), s1, EvalExpr(cx, fuel, STEP, f, s1).s);
    SingleAssign(cx, fuel, ENV, f, "output", Text(STEP), s);
    OutputStored(EvalExpr(cx, fuel, STEP, f, s1).s.heap, s.heap, f, SumOf(n));
  }

  /** Setting the output in frame f, in maps that go on from h. */
  lemma OutputStored(g: Heap, h: Heap, f: nat, v: int64)
    requires h <= g && f < |h|
    ensures var g' := Put(g, f, "output", IntV(v));
            && |h| <= |g'| && (forall q | 0 <= q < |h| && q != f :: g'[q] == h[q])
            && "output" in g'[f] && g'[f]["output"] == IntV(v)
  {
    forall q | 0 <= q < |h| && q != f ensures Put(g, f, "output", IntV(v))[q] == h[q] { assert g[q] == h[q]; }
  }

  lemma StopReturns(cx: Ctx, fuel: nat, n: int64, s: State)
    requires n <= 0
    ensures Returns(CallFunction(cx, fuel, SUM, IntV(n), s), s, SumOf(n))
  {
    var s1 := Alloc(s, map["input" := IntV(n)]);
    BodyUnfolds(cx, fuel, |s.heap|, s1, n);
    StopAssigns(cx, fuel, |s.heap|, s1, n);
    CallEnds(cx, fuel, n, s);
  }

  lemma OldMapsKept(h: Heap, m: GoMap, g: Heap)
    requires |h| < |g| && forall q | 0 <= q < |h| + 1 && q != |h| :: g[q] == (h + [m])[q]
    ensures h <= g
  {
    assert forall q | 0 <= q < |h| :: g[q] == (h + [m])[q] == h[q];
  }

  lemma StepReturns(cx: Ctx, fuel: nat, n: int64, s: State)
    requires Defined(cx) && 0 < n && 0 < fuel
    requires var s1 := Alloc(s, map["input" := IntV(n)]).(tick := s.tick + 1);
             Returns(CallFunction(cx, fuel - 1, SUM, IntV(n - 1), s1), s1, SumOf(n - 1))
    ensures Returns(CallFunction(cx, fuel, SUM, IntV(n), s), s, SumOf(n))
  {
    var s1 := Alloc(s, map["input" := IntV(n)]);
    StepAssigns(cx, fuel, |s.heap|, s1, n);
    var r := EvalObject(cx, fuel, ENV, |s.heap|, STEP_BODY[0], s1);
    OldMapsKept(s.heap, map["input" := IntV(n)], r.s.heap);
    BodyUnfolds(cx, fuel, |s.heap|, s1, n);
    CallEnds(cx, fuel, n, s);
  }

  /**
   call("sum", n) for every n: the sum of 1 to n in 64-bit arithmetic when n is positive, and n
   itself otherwise. One level of calls per unit of n is enough.
   */
  lemma {:induction false} SumCorrect(cx: Ctx, fuel: nat, n: int64, s: State)
    requires Defined(cx) && n <= fuel
    ensures Returns(CallFunction(cx, fuel, SUM, IntV(n), s), s, SumOf(n))
    decreases fuel
  {
    if n <= 0 {
      StopReturns(cx, fuel, n, s);
    } else {
      var s1 := Alloc(s, map["input" := IntV(n)]);
      SumCorrect(cx, fuel - 1, n - 1, s1.(tick := s1.tick + 1));
      StepReturns(cx, fuel, n, s);
    }
  }

  /** When n(n+1)/2 fits in 64 bits, it is the result. */
  lemma SumInRange(cx: Ctx, fuel: nat, n: int64, s: State)
    requires Defined(cx) && 0 <= n <= fuel && n * (n + 1) / 2 < -MIN_INT64
    ensures Returns(CallFunction(cx, fuel, SUM, IntV(n), s), s, n * (n + 1) / 2)
  {
    SumCorrect(cx, fuel, n, s);
    TriangleClosed(n);
    if n > 0 { WrapInRange(Triangle(n)); }
  }

  // ---------------------------------------------------------------- the call inside other expressions

  function SumCall(arg: Expr): Expr {
    Call(Lit(CString("sum")), arg)
  }

  lemma SumCallValue(cx: Ctx, fuel: nat, arg: Expr, f: nat, s: State, n: int64)
    requires Defined(cx) && fuel > 0 && n < fuel && EvalExpr(cx, fuel, arg, f, s) == Res(s, Done(IntV(n)))
    ensures Returns(EvalExpr(cx, fuel, SumCall(arg), f, s), s, SumOf(n))
  {
    assert EvalExpr(cx, fuel, Lit(CString("sum")), f, s) == Res(s, Done(StrV("sum")));
    assert EvalExpr(cx, fuel, SumCall(arg), f, s) == CallFunction(cx, fuel - 1, SUM, IntV(n), s);
    SumCorrect(cx, fuel - 1, n, s);
  }

  /** A call of the function with a number always gives the same number and only allocates maps. */
  lemma SumSteady(cx: Ctx, fuel: nat, n: int64, f: nat, h: Heap, W: Slots)
    requires Defined(cx) && fuel > 0 && n < fuel
    ensures Steady(cx, fuel, SumCall(Lit(CInt(n))), f, h, W, Some(Old(IntV(SumOf(n)))))
  {
    forall g: State | Sees(h, W, g.heap)
      ensures Gives(h, g, EvalExpr(cx, fuel, SumCall(Lit(CInt(n))), f, g), Some(Old(IntV(SumOf(n)))))
    {
      assert EvalExpr(cx, fuel, Lit(CInt(n)), f, g) == Res(g, Done(IntV(n)));
      SumCallValue(cx, fuel, Lit(CInt(n)), f, g, n);
      GivesOld(h, g, EvalExpr(cx, fuel, SumCall(Lit(CInt(n))), f, g), IntV(SumOf(n)));
    }
  }

  /** The predicate `call("sum", value) <= bound`. */
  function SumAtMost(bound: int64): Source {
    Text(Bin(Leq, SumCall(Path("value", [])), Lit(CInt(bound))))
  }

  lemma SumAtMostRuns(cx: Ctx, fuel: nat, bound: int64, n: int64, f: nat, s: State)
    requires Defined(cx) && fuel > 0 && n < fuel && f < |s.heap| && s.heap[f] == map["value" := IntV(n)]
    ensures var r := EvalCondition(cx, fuel, VALUE_ENV, SumAtMost(bound), f, s);
            OnlyAdds(s, r.s) && r.out == Done(SumOf(n) <= bound)
  {
    var v, b := Path("value", []), Lit(CInt(bound));
    assert EvalExpr(cx, fuel, v, f, s) == Res(s, Done(IntV(n)));
    SumCallValue(cx, fuel, v, f, s, n);
    var x := EvalExpr(cx, fuel, SumCall(v), f, s);
    assert EvalExpr(cx, fuel, b, f, x.s) == Res(x.s, Done(IntV(bound)));
    assert TypeOf(VALUE_ENV, v) == Some(TAny) && TypeOf(VALUE_ENV, SumCall(v)) == Some(TAny);
    assert TypeOf(VALUE_ENV, Bin(Leq, SumCall(v), b)) == Some(TBool);
    assert EvalExpr(cx, fuel, Bin(Leq, SumCall(v), b), f, s) == Res(x.s, Done(BoolV(SumOf(n) <= bound)));
  }

  /** A predicate that calls a recursive function has no effect, and its verdict is the comparison. */
  lemma SumAtMostEffectFree(cx: Ctx, fuel: nat, bound: int64, n: int64, h: Heap, W: Slots)
    requires Defined(cx) && fuel > 0 && n < fuel
    ensures EffectFree(cx, fuel, VALUE_ENV, SumAtMost(bound), h, W, map["value" := IntV(n)])
    ensures Verdict(cx, fuel, VALUE_ENV, SumAtMost(bound), h, map["value" := IntV(n)]) == Done(SumOf(n) <= bound)
  {
    var m := map["value" := IntV(n)];
    SumAtMostRuns(cx, fuel, bound, n, |h|, State(h + [m], [], 0));
    forall s: State, f: nat | Sees(h, W, s.heap) && |h| <= f < |s.heap| && s.heap[f] == m
      ensures var r := EvalCondition(cx, fuel, VALUE_ENV, SumAtMost(bound), f, s);
              OnlyAdds(s, r.s) && r.out == Done(SumOf(n) <= bound)
    {
      SumAtMostRuns(cx, fuel, bound, n, f, s);
    }
  }

  // ---------------------------------------------------------------- without the stop case

  /** The function with its recursive statement only. */
  const ENDLESS_SUM: FuncDef := FuncDef(Some("input"), Some("output"), YList(STEP_BODY))

  ghost function SumCalls(): Calls {
    (g: string, arg: Val, s: State) => g == "sum" && arg.IntV?
  }

  lemma StepReaches(cx: Ctx, fuel: nat, f: nat, n: int64, s: State)
    requires AtEntry(s, f, n)
    ensures ExprReaches(cx, SumCalls(), fuel, STEP, f, s)
  {
    assert EvalExpr(cx, fuel, INPUT, f, s) == Res(s, Done(IntV(n)));
    assert EvalExpr(cx, fuel, Lit(CInt(1)), f, s) == Res(s, Done(IntV(1)));
    assert EvalExpr(cx, fuel, INNER, f, s) == Res(s, Done(IntV(Wrap64(n - 1))));
    assert EvalExpr(cx, fuel, Lit(CString("sum")), f, s) == Res(s, Done(StrV("sum")));
  }

  lemma OutputReaches(cx: Ctx, fuel: nat, f: nat, n: int64, s: State)
    requires AtEntry(s, f, n)
    ensures ObjectReaches(cx, SumCalls(), fuel, ENV, f, Assign("output", Text(STEP)), s)
  {
    StepTypes();
    StepReaches(cx, fuel, f, n, s.(tick := s.tick + 1));
    SingleReaches(cx, SumCalls(), fuel, ENV, f, "output", STEP, s);
  }

  lemma EndlessSumReaches(cx: Ctx, fuel: nat, n: int64, s: State)
    ensures CallReaches(cx, SumCalls(), fuel, ENDLESS_SUM, IntV(n), s)
  {
    Entry(cx, n, s);
    OutputReaches(cx, fuel, |s.heap|, n, Alloc(s, map["input" := IntV(n)]));
    assert ENDLESS_SUM.body.elems[0] == Assign("output", Text(STEP));
  }

  /** Without its stop case the recursive sum never ends, for any integer and under any bound. */
  lemma EndlessSum(cx: Ctx, fuel: nat, n: int64, s: State)
    requires "sum" in cx.functions && cx.functions["sum"] == ENDLESS_SUM
    ensures CallFunction(cx, fuel, ENDLESS_SUM, IntV(n), s).out == OutOfFuel
  {
    forall g, arg, u | SumCalls()(g, arg, u)
      ensures g in cx.functions && ForAnyBound(cx, SumCalls(), cx.functions[g], arg, u)
    {
      forall b: nat ensures CallReaches(cx, SumCalls(), b, ENDLESS_SUM, arg, u) {
        EndlessSumReaches(cx, b, arg.i, u);
      }
    }
    NeverEnds(cx, SumCalls(), fuel, "sum", IntV(n), s);
  }
}
