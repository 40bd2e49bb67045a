/**
 When a run ends. Recursion other than `call` follows the syntax, so a run is cut off only by
 nested calls. If the functions can be ranked so that every call in a body goes to a function of
 smaller rank, no run is cut off once the fuel reaches the ranks. A function whose first statement
 calls the function itself never ends.
 */
module Termination {
  import opened Text
  import opened Values
  import opened Syntax
  import opened Semantics

  type Rank = map<string, nat>

  ghost predicate CalleeBelow(cx: Ctx, rank: Rank, n: nat, callee: Expr) {
    forall g | g in cx.functions && (callee.Lit? && callee.c.CString? ==> callee.c.s == g) ::
      g in rank && rank[g] < n
  }

  /** Every call in e goes to functions of rank below n; a computed name may be any function. */
  ghost predicate ExprBelow(cx: Ctx, rank: Rank, n: nat, e: Expr)
    decreases e
  {
    match e
    case Lit(_) => true
    case Path(_, _) => true
    case Not(a) => ExprBelow(cx, rank, n, a)
    case And(l, r) => ExprBelow(cx, rank, n, l) && ExprBelow(cx, rank, n, r)
    case Bin(_, l, r) => ExprBelow(cx, rank, n, l) && ExprBelow(cx, rank, n, r)
    case KabaneroConfig => true
    case Call(f, p) => CalleeBelow(cx, rank, n, f) && ExprBelow(cx, rank, n, f) && ExprBelow(cx, rank, n, p)
    case Filter(c, pred) => ExprBelow(cx, rank, n, c) && SourceBelow(cx, rank, n, pred)
    case SendEvent(d, m, c) => ExprBelow(cx, rank, n, d) && ExprBelow(cx, rank, n, m) && ExprBelow(cx, rank, n, c)
    case ApplyResources(d, v) => ExprBelow(cx, rank, n, d) && ExprBelow(cx, rank, n, v)
  }

  ghost predicate SourceBelow(cx: Ctx, rank: Rank, n: nat, src: Source)
    decreases src
  {
    src.Text? ==> ExprBelow(cx, rank, n, src.e)
  }

  ghost predicate YamlBelow(cx: Ctx, rank: Rank, n: nat, y: Yaml)
    decreases y
  {
    match y
    case YString(t) => SourceBelow(cx, rank, n, t)
    case YPrimitive(t) => SourceBelow(cx, rank, n, t)
    case YList(es) => forall i | 0 <= i < |es| :: YamlBelow(cx, rank, n, es[i])
    case YObject(fs) => forall i | 0 <= i < |fs| :: YamlBelow(cx, rank, n, fs[i].value)
    case YOther => true
  }

  ghost predicate BodyBelow(cx: Ctx, rank: Rank, n: nat, body: seq<Yaml>) {
    forall i | 0 <= i < |body| :: YamlBelow(cx, rank, n, body[i])
  }

  ghost predicate FieldsBelow(cx: Ctx, rank: Rank, n: nat, fields: seq<Field>) {
    forall i | 0 <= i < |fields| :: YamlBelow(cx, rank, n, fields[i].value)
  }

  /** The rank decreases on every call. */
  ghost predicate Ranked(cx: Ctx, rank: Rank) {
    forall g | g in cx.functions :: g in rank && YamlBelow(cx, rank, rank[g], cx.functions[g].body)
  }

  lemma {:induction false} ExprEnds(cx: Ctx, rank: Rank, fuel: nat, e: Expr, vars: nat, s: State)
    requires Ranked(cx, rank) && ExprBelow(cx, rank, fuel, e)
    ensures EvalExpr(cx, fuel, e, vars, s).out != OutOfFuel
    decreases fuel, e, 2
  {
    match e
    case Lit(c) =>
    case Path(root, fields) => SelectEnds(s.heap, At(s.heap, vars), root, fields);
    case Not(a) => ExprEnds(cx, rank, fuel, a, vars, s);
    case And(l, r) =>
      ExprEnds(cx, rank, fuel, l, vars, s);
      ExprEnds(cx, rank, fuel, r, vars, EvalExpr(cx, fuel, l, vars, s).s);
    case Bin(op, l, r) =>
      ExprEnds(cx, rank, fuel, l, vars, s);
      ExprEnds(cx, rank, fuel, r, vars, EvalExpr(cx, fuel, l, vars, s).s);
    case KabaneroConfig =>
    case Call(f, p) => CallEnds(cx, rank, fuel, e, vars, s);
    case Filter(c, pred) => FilterEnds(cx, rank, fuel, e, vars, s);
    case SendEvent(d, m, c) =>
      ExprEnds(cx, rank, fuel, d, vars, s);
      var x := EvalExpr(cx, fuel, d, vars, s);
      ExprEnds(cx, rank, fuel, m, vars, x.s);
      ExprEnds(cx, rank, fuel, c, vars, EvalExpr(cx, fuel, m, vars, x.s).s);
    case ApplyResources(d, v) =>
      ExprEnds(cx, rank, fuel, d, vars, s);
      ExprEnds(cx, rank, fuel, v, vars, EvalExpr(cx, fuel, d, vars, s).s);
  }

  lemma {:induction false} SelectEnds(h: Heap, bindings: GoMap, root: string, fields: seq<string>)
    ensures ReadPath(h, bindings, root, fields) != OutOfFuel
  {
    if root in bindings { StepEnds(h, bindings[root], fields); }
  }

  lemma {:induction false} StepEnds(h: Heap, v: Val, fields: seq<string>)
    ensures Select(h, v, fields) != OutOfFuel
    decreases |fields|
  {
    if fields != [] && v.MapV? && fields[0] in At(h, v.ref) {
      StepEnds(h, At(h, v.ref)[fields[0]], fields[1..]);
    }
  }

  lemma {:induction false} CallEnds(cx: Ctx, rank: Rank, fuel: nat, e: Expr, vars: nat, s: State)
    requires Ranked(cx, rank) && e.Call? && ExprBelow(cx, rank, fuel, e)
    ensures EvalExpr(cx, fuel, e, vars, s).out != OutOfFuel
    decreases fuel, e, 1
  {
    ExprEnds(cx, rank, fuel, e.callee, vars, s);
    var x := EvalExpr(cx, fuel, e.callee, vars, s);
    ExprEnds(cx, rank, fuel, e.param, vars, x.s);
    var y := EvalExpr(cx, fuel, e.param, vars, x.s);
    if Both(x.out, y.out).Done? && x.out.value.StrV? && x.out.value.s in cx.functions {
      var g := x.out.value.s;
      assert rank[g] < fuel;
      YamlMono(cx, rank, rank[g], fuel - 1, cx.functions[g].body);
      FunctionEnds(cx, rank, fuel - 1, cx.functions[g], y.out.value, y.s);
    }
  }

  lemma {:induction false} FilterEnds(cx: Ctx, rank: Rank, fuel: nat, e: Expr, vars: nat, s: State)
    requires Ranked(cx, rank) && e.Filter? && ExprBelow(cx, rank, fuel, e)
    ensures EvalExpr(cx, fuel, e, vars, s).out != OutOfFuel
    decreases fuel, e, 1
  {
    ExprEnds(cx, rank, fuel, e.coll, vars, s);
    var x := EvalExpr(cx, fuel, e.coll, vars, s);
    if x.out.Done? && x.out.value.ListV? {
      FilterListEnds(cx, rank, fuel, e.pred, x.out.value.elems, [], x.s);
    } else if x.out.Done? && x.out.value.MapV? {
      var ref := x.out.value.ref;
      var keys := Permute(SortedKeys(At(x.s.heap, ref).Keys), cx.visit(x.s.tick));
      FilterMapEnds(cx, rank, fuel, e.pred, ref, keys, map[], x.s.(tick := x.s.tick + 1));
    }
  }

  lemma {:induction false} FilterListEnds(cx: Ctx, rank: Rank, fuel: nat, pred: Source, elems: seq<Val>,
                                          kept: seq<Val>, s: State)
    requires Ranked(cx, rank) && SourceBelow(cx, rank, fuel, pred)
    ensures FilterList(cx, fuel, pred, elems, kept, s).out != OutOfFuel
    decreases fuel, pred, |elems|
  {
    if elems != [] {
      var s1 := Alloc(s, map["value" := elems[0]]);
      ConditionEnds(cx, rank, fuel, VALUE_ENV, pred, |s.heap|, s1);
      var c := EvalCondition(cx, fuel, VALUE_ENV, pred, |s.heap|, s1);
      if c.out.Done? {
        FilterListEnds(cx, rank, fuel, pred, elems[1..], if c.out.value then kept + [elems[0]] else kept, c.s);
      }
    }
  }

  lemma {:induction false} FilterMapEnds(cx: Ctx, rank: Rank, fuel: nat, pred: Source, ref: nat, keys: seq<string>,
                                         kept: GoMap, s: State)
    requires Ranked(cx, rank) && SourceBelow(cx, rank, fuel, pred)
    ensures FilterMap(cx, fuel, pred, ref, keys, kept, s).out != OutOfFuel
    decreases fuel, pred, |keys|
  {
    if keys == [] {
    } else if keys[0] !in At(s.heap, ref) {
      FilterMapEnds(cx, rank, fuel, pred, ref, keys[1..], kept, s);
    } else {
      var v := At(s.heap, ref)[keys[0]];
      var s1 := Alloc(s, map["key" := StrV(keys[0]), "value" := v]);
      ConditionEnds(cx, rank, fuel, ENTRY_ENV, pred, |s.heap|, s1);
      var c := EvalCondition(cx, fuel, ENTRY_ENV, pred, |s.heap|, s1);
      if c.out.Done? {
        FilterMapEnds(cx, rank, fuel, pred, ref, keys[1..], if c.out.value then kept[keys[0] := v] else kept, c.s);
      }
    }
  }

  lemma {:induction false} ConditionEnds(cx: Ctx, rank: Rank, fuel: nat, env: Env, when: Source, vars: nat, s: State)
    requires Ranked(cx, rank) && SourceBelow(cx, rank, fuel, when)
    ensures EvalCondition(cx, fuel, env, when, vars, s).out != OutOfFuel
    decreases fuel, when, 0
  {
    if when.Text? && TypeOf(env, when.e).Some? { ExprEnds(cx, rank, fuel, when.e, vars, s); }
  }

  lemma {:induction false} FunctionEnds(cx: Ctx, rank: Rank, fuel: nat, fd: FuncDef, arg: Val, s: State)
    requires Ranked(cx, rank) && YamlBelow(cx, rank, fuel, fd.body)
    ensures CallFunction(cx, fuel, fd, arg, s).out != OutOfFuel
    decreases fuel
  {
    if Callable(fd) {
      var c := CreateVariable(cx, map[], |s.heap|, fd.input.value, arg, Alloc(s, map[]));
      if c.out.Done? { ArrayEnds(cx, rank, fuel, c.out.value, |s.heap|, fd.body.elems, c.s); }
    }
  }

  // Larger bounds accept more.

  lemma {:induction false} ExprMono(cx: Ctx, rank: Rank, n: nat, m: nat, e: Expr)
    requires n <= m && ExprBelow(cx, rank, n, e)
    ensures ExprBelow(cx, rank, m, e)
    decreases e
  {
    match e
    case Lit(_) =>
    case Path(_, _) =>
    case Not(a) => ExprMono(cx, rank, n, m, a);
    case And(l, r) => ExprMono(cx, rank, n, m, l); ExprMono(cx, rank, n, m, r);
    case Bin(_, l, r) => ExprMono(cx, rank, n, m, l); ExprMono(cx, rank, n, m, r);
    case KabaneroConfig =>
    case Call(f, p) => ExprMono(cx, rank, n, m, f); ExprMono(cx, rank, n, m, p);
    case Filter(c, pred) =>
      ExprMono(cx, rank, n, m, c);
      if pred.Text? { ExprMono(cx, rank, n, m, pred.e); }
    case SendEvent(d, msg, c) =>
      ExprMono(cx, rank, n, m, d); ExprMono(cx, rank, n, m, msg); ExprMono(cx, rank, n, m, c);
    case ApplyResources(d, v) => ExprMono(cx, rank, n, m, d); ExprMono(cx, rank, n, m, v);
  }

  lemma {:induction false} YamlMono(cx: Ctx, rank: Rank, n: nat, m: nat, y: Yaml)
    requires n <= m && YamlBelow(cx, rank, n, y)
    ensures YamlBelow(cx, rank, m, y)
    decreases y
  {
    match y
    case YString(t) => if t.Text? { ExprMono(cx, rank, n, m, t.e); }
    case YPrimitive(t) => if t.Text? { ExprMono(cx, rank, n, m, t.e); }
    case YList(es) =>
      forall i | 0 <= i < |es| ensures YamlBelow(cx, rank, m, es[i]) { YamlMono(cx, rank, n, m, es[i]); }
    case YObject(fs) =>
      forall i | 0 <= i < |fs| ensures YamlBelow(cx, rank, m, fs[i].value) { YamlMono(cx, rank, n, m, fs[i].value); }
    case YOther =>
  }

  // ---------------------------------------------------------------- statements

  lemma {:induction false} FieldEnds(cx: Ctx, rank: Rank, fuel: nat, env: Env, vars: nat, f: Field, s: State)
    requires Ranked(cx, rank) && YamlBelow(cx, rank, fuel, f.value)
    ensures AssignField(cx, fuel, env, vars, f, s).out != OutOfFuel
    decreases fuel, f, 1
  {
    if f.key.Name? && IsText(f.value) && f.value.text.Text? && TypeOf(env, f.value.text.e).Some? {
      ExprEnds(cx, rank, fuel, f.value.text.e, vars, s);
    }
  }

  lemma {:induction false} AssignmentEnds(cx: Ctx, rank: Rank, fuel: nat, env: Env, vars: nat, fields: seq<Field>,
                                          order: seq<nat>, s: State)
    requires Ranked(cx, rank) && FieldsBelow(cx, rank, fuel, fields)
    requires forall i | i in order :: i < |fields|
    ensures AssignFields(cx, fuel, env, vars, fields, order, s).out != OutOfFuel
    decreases fuel, fields, 1, |order|
  {
    if order != [] {
      assert order[0] in order && forall i | i in order[1..] :: i in order;
      FieldEnds(cx, rank, fuel, env, vars, fields[order[0]], s);
      var r := AssignField(cx, fuel, env, vars, fields[order[0]], s);
      if r.out.Done? { AssignmentEnds(cx, rank, fuel, r.out.value, vars, fields, order[1..], r.s); }
    }
  }

  lemma {:induction false} BodyEnds(cx: Ctx, rank: Rank, fuel: nat, env: Env, vars: nat, body: Yaml, s: State)
    requires Ranked(cx, rank) && YamlBelow(cx, rank, fuel, body)
    ensures EvalBody(cx, fuel, env, vars, body, s).out != OutOfFuel
    decreases fuel, body, 1
  {
    if body.YList? { ArrayEnds(cx, rank, fuel, env, vars, body.elems, s); }
  }

  lemma {:induction false} ThenEnds(cx: Ctx, rank: Rank, fuel: nat, env: Env, vars: nat, fields: seq<Field>, s: State)
    requires Ranked(cx, rank) && FieldsBelow(cx, rank, fuel, fields)
    ensures ThenPart(cx, fuel, env, vars, fields, s).out != OutOfFuel
    decreases fuel, fields, 3
  {
    if Get(fields, BODY).Some? {
      BodyEnds(cx, rank, fuel, env, vars, Get(fields, BODY).value, s);
    } else if Get(fields, SWITCH).Some? {
      SwitchEnds(cx, rank, fuel, env, vars, Get(fields, SWITCH).value, s);
    } else {
      AssignmentEnds(cx, rank, fuel, env, vars, fields, VisitOrder(|fields|, cx.visit(s.tick)),
                     s.(tick := s.tick + 1));
    }
  }

  lemma {:induction false} IfEnds(cx: Ctx, rank: Rank, fuel: nat, env: Env, vars: nat, fields: seq<Field>, s: State)
    requires Ranked(cx, rank) && FieldsBelow(cx, rank, fuel, fields)
    ensures EvalIf(cx, fuel, env, vars, fields, s).out != OutOfFuel
    decreases fuel, fields, 4
  {
    if IfSyntax(fields) {
      var when := Get(fields, IF).value.text;
      assert YamlBelow(cx, rank, fuel, Get(fields, IF).value);
      ConditionEnds(cx, rank, fuel, env, when, vars, s);
      var c := EvalCondition(cx, fuel, env, when, vars, s);
      if c.out == Done(true) { ThenEnds(cx, rank, fuel, env, vars, fields, c.s); }
    }
  }

  lemma {:induction false} SwitchEnds(cx: Ctx, rank: Rank, fuel: nat, env: Env, vars: nat, cases: Yaml, s: State)
    requires Ranked(cx, rank) && YamlBelow(cx, rank, fuel, cases)
    ensures EvalSwitch(cx, fuel, env, vars, cases, s).out != OutOfFuel
    decreases fuel, cases, 1
  {
    if cases.YList? { CasesEnd(cx, rank, fuel, env, vars, cases.elems, 0, None, s); }
  }

  lemma {:induction false} CasesEnd(cx: Ctx, rank: Rank, fuel: nat, env: Env, vars: nat, cases: seq<Yaml>, i: nat,
                                    dflt: Option<nat>, s: State)
    requires Ranked(cx, rank) && BodyBelow(cx, rank, fuel, cases)
    requires i <= |cases|
    requires dflt.Some? ==> dflt.value < |cases| && IsDefault(cases[dflt.value])
    ensures SwitchCases(cx, fuel, env, vars, cases, i, dflt, s).out != OutOfFuel
    decreases fuel, cases, |cases| - i
  {
    if i == |cases| {
      if dflt.Some? {
        var d := cases[dflt.value];
        assert YamlBelow(cx, rank, fuel, d) && YamlBelow(cx, rank, fuel, Get(d.fields, DEFAULT).value);
        ArrayEnds(cx, rank, fuel, env, vars, Get(d.fields, DEFAULT).value.elems, s);
      }
    } else if cases[i].YObject? && Get(cases[i].fields, IF).Some? {
      assert YamlBelow(cx, rank, fuel, cases[i]);
      IfEnds(cx, rank, fuel, env, vars, cases[i].fields, s);
      var r := EvalIf(cx, fuel, env, vars, cases[i].fields, s);
      if r.out.Done? && !r.out.value.1 { CasesEnd(cx, rank, fuel, env, vars, cases, i + 1, dflt, r.s); }
    } else if IsDefault(cases[i]) && dflt.None? {
      CasesEnd(cx, rank, fuel, env, vars, cases, i + 1, Some(i), s);
    }
  }

  lemma {:induction false} ObjectEnds(cx: Ctx, rank: Rank, fuel: nat, env: Env, vars: nat, item: Yaml, s: State)
    requires Ranked(cx, rank) && YamlBelow(cx, rank, fuel, item)
    ensures EvalObject(cx, fuel, env, vars, item, s).out != OutOfFuel
    decreases fuel, item, 0
  {
    if item.YObject? {
      var fields := item.fields;
      var k := CountKeywords(fields);
      if k.hasIf {
        IfEnds(cx, rank, fuel, env, vars, fields, s);
      } else if k.hasSwitch {
        if Get(fields, SWITCH).Some? { SwitchEnds(cx, rank, fuel, env, vars, Get(fields, SWITCH).value, s); }
      } else if k.hasBody {
        if Get(fields, BODY).Some? { BodyEnds(cx, rank, fuel, env, vars, Get(fields, BODY).value, s); }
      } else {
        AssignmentEnds(cx, rank, fuel, env, vars, fields, VisitOrder(|fields|, cx.visit(s.tick)),
                       s.(tick := s.tick + 1));
      }
    }
  }

  lemma {:induction false} ArrayEnds(cx: Ctx, rank: Rank, fuel: nat, env: Env, vars: nat, body: seq<Yaml>, s: State)
    requires Ranked(cx, rank) && BodyBelow(cx, rank, fuel, body)
    ensures EvalArray(cx, fuel, env, vars, body, s).out != OutOfFuel
    decreases fuel, body, 0
  {
    if body != [] {
      ObjectEnds(cx, rank, fuel, env, vars, body[0], s);
      var r := EvalObject(cx, fuel, env, vars, body[0], s);
      if r.out.Done? { ArrayEnds(cx, rank, fuel, r.out.value, vars, body[1..], r.s); }
    }
  }

  // ---------------------------------------------------------------- messages

  ghost predicate AllBelow(cx: Ctx, rank: Rank, n: nat) {
    forall g | g in cx.functions :: g in rank && rank[g] < n
  }

  lemma {:induction false} AnyExprBelow(cx: Ctx, rank: Rank, n: nat, e: Expr)
    requires AllBelow(cx, rank, n)
    ensures ExprBelow(cx, rank, n, e)
    decreases e
  {
    match e
    case Lit(_) =>
    case Path(_, _) =>
    case Not(a) => AnyExprBelow(cx, rank, n, a);
    case And(l, r) => AnyExprBelow(cx, rank, n, l); AnyExprBelow(cx, rank, n, r);
    case Bin(_, l, r) => AnyExprBelow(cx, rank, n, l); AnyExprBelow(cx, rank, n, r);
    case KabaneroConfig =>
    case Call(f, p) => AnyExprBelow(cx, rank, n, f); AnyExprBelow(cx, rank, n, p);
    case Filter(c, pred) =>
      AnyExprBelow(cx, rank, n, c);
      if pred.Text? { AnyExprBelow(cx, rank, n, pred.e); }
    case SendEvent(d, msg, c) =>
      AnyExprBelow(cx, rank, n, d); AnyExprBelow(cx, rank, n, msg); AnyExprBelow(cx, rank, n, c);
    case ApplyResources(d, v) => AnyExprBelow(cx, rank, n, d); AnyExprBelow(cx, rank, n, v);
  }

  lemma {:induction false} AnyYamlBelow(cx: Ctx, rank: Rank, n: nat, y: Yaml)
    requires AllBelow(cx, rank, n)
    ensures YamlBelow(cx, rank, n, y)
    decreases y
  {
    match y
    case YString(t) => if t.Text? { AnyExprBelow(cx, rank, n, t.e); }
    case YPrimitive(t) => if t.Text? { AnyExprBelow(cx, rank, n, t.e); }
    case YList(es) =>
      forall i | 0 <= i < |es| ensures YamlBelow(cx, rank, n, es[i]) { AnyYamlBelow(cx, rank, n, es[i]); }
    case YObject(fs) =>
      forall i | 0 <= i < |fs| ensures YamlBelow(cx, rank, n, fs[i].value) { AnyYamlBelow(cx, rank, n, fs[i].value); }
    case YOther =>
  }

  lemma {:induction false} TriggersEnd(cx: Ctx, rank: Rank, fuel: nat, ts: seq<Trigger>, message: nat, saved: seq<nat>,
                                       s: State)
    requires Ranked(cx, rank) && AllBelow(cx, rank, fuel)
    ensures RunTriggers(cx, fuel, ts, message, saved, s).out != OutOfFuel
    decreases |ts|
  {
    if ts != [] {
      var t := ts[0];
      if t.input.Some? && t.body.Some? {
        forall i | 0 <= i < |t.body.value| ensures YamlBelow(cx, rank, fuel, t.body.value[i]) {
          AnyYamlBelow(cx, rank, fuel, t.body.value[i]);
        }
        ArrayEnds(cx, rank, fuel, map[t.input.value := TMap], |s.heap|, t.body.value,
                  Alloc(s, map[t.input.value := MapV(message)]));
      }
      var r := RunTrigger(cx, fuel, t, message, s);
      if r.out.Done? { TriggersEnd(cx, rank, fuel, ts[1..], message, saved + [r.out.value], r.s); }
    }
  }

  /** With ranked functions, every message is answered once the fuel exceeds all ranks. */
  lemma MessageEnds(cx: Ctx, rank: Rank, fuel: nat, eventSource: string, message: nat, s: State)
    requires Ranked(cx, rank) && AllBelow(cx, rank, fuel)
    ensures ProcessMessage(cx, fuel, eventSource, message, s).out != OutOfFuel
  {
    if eventSource in cx.triggers { TriggersEnd(cx, rank, fuel, cx.triggers[eventSource], message, [], s); }
  }

  // ---------------------------------------------------------------- a run that never ends

  /** An object with one plain assignment. */
  function Assign(name: string, val: Source): Yaml {
    YObject([Field(Name(name), YString(val))])
  }

  lemma SingleAssign(cx: Ctx, fuel: nat, env: Env, vars: nat, name: string, val: Source, s: State)
    requires !IsKeyword(name)
    ensures EvalObject(cx, fuel, env, vars, Assign(name, val), s)
         == SetOneVariable(cx, fuel, env, vars, name, val, s.(tick := s.tick + 1))
  {
    var f := Field(Name(name), YString(val));
    assert CountKeywords([f]) == CountKeywords([]);
    var order := VisitOrder(1, cx.visit(s.tick));
    assert order[0] in order && order == [0];
    var s1 := s.(tick := s.tick + 1);
    var r := AssignField(cx, fuel, env, vars, f, s1);
    assert [f][0] == f && order[1..] == [];
    assert r.out.Done? ==> AssignFields(cx, fuel, r.out.value, vars, [f], [], r.s) == Res(r.s, Done(r.out.value));
    assert AssignFields(cx, fuel, env, vars, [f], [0], s1) == r;
  }

  /** The body hands its input on to the function itself, whatever comes after. */
  ghost predicate CallsItselfFirst(cx: Ctx, g: string, name: string) {
    && g in cx.functions && Callable(cx.functions[g]) && cx.functions[g].body.elems != []
    && '.' !in cx.functions[g].input.value && name != "" && !IsKeyword(name)
    && cx.functions[g].body.elems[0]
       == Assign(name, Text(Call(Lit(CString(g)), Path(cx.functions[g].input.value, []))))
  }

  lemma {:induction false} SelfCallNeverEnds(cx: Ctx, fuel: nat, g: string, name: string, arg: Val, s: State)
    requires CallsItselfFirst(cx, g, name) && KindOf(arg).Some?
    ensures CallFunction(cx, fuel, cx.functions[g], arg, s).out == OutOfFuel
    decreases fuel
  {
    var fd := cx.functions[g];
    var frame := |s.heap|;
    SplitPlain(fd.input.value);
    var c := CreateVariable(cx, map[], frame, fd.input.value, arg, Alloc(s, map[]));
    var env := map[fd.input.value := KindOf(arg).value];
    assert c.out == Done(env) && At(c.s.heap, frame)[fd.input.value] == arg;
    var e := Call(Lit(CString(g)), Path(fd.input.value, []));
    SingleAssign(cx, fuel, env, frame, name, Text(e), c.s);
    var s1 := c.s.(tick := c.s.tick + 1);
    assert TypeOf(env, e) == Some(TAny);
    assert EvalExpr(cx, fuel, Lit(CString(g)), frame, s1) == Res(s1, Done(StrV(g)));
    assert EvalExpr(cx, fuel, Path(fd.input.value, []), frame, s1) == Res(s1, Done(arg));
    if fuel > 0 { SelfCallNeverEnds(cx, fuel - 1, g, name, arg, s1); }
    assert EvalExpr(cx, fuel, e, frame, s1).out == OutOfFuel;
    assert SetOneVariable(cx, fuel, env, frame, name, Text(e), s1).out == OutOfFuel;
  }
}
