/**
 Fuel only decides whether a run is cut off: a run that was not cut off gives the same state and
 outcome with any larger fuel.

 Fuel is not part of the program: it makes the functions of `Semantics` total although user functions
 may call each other without end. The lemmas below follow the steps of the interpreter one by one. The
 result is that a finished run has one result, whatever bound was chosen to compute it; `Termination`
 says for which programs a bound exists.
 */
module Determinacy {
  import opened Text
  import opened Values
  import opened Syntax
  import opened Semantics

  lemma {:induction false} ExprMore(cx: Ctx, fuel: nat, more: nat, e: Expr, vars: nat, s: State)
    requires fuel <= more && EvalExpr(cx, fuel, e, vars, s).out != OutOfFuel
    ensures EvalExpr(cx, more, e, vars, s) == EvalExpr(cx, fuel, e, vars, s)
    decreases fuel, e, 2
  {
    match e
    case Lit(c) =>
    case Path(root, fields) =>
    case Not(a) => ExprMore(cx, fuel, more, a, vars, s);
    case And(l, r) => AndMore(cx, fuel, more, e, vars, s);
    case Bin(op, l, r) =>
      ExprMore(cx, fuel, more, l, vars, s);
      ExprMore(cx, fuel, more, r, vars, EvalExpr(cx, fuel, l, vars, s).s);
    case KabaneroConfig =>
    case Call(f, p) => CallMore(cx, fuel, more, e, vars, s);
    case Filter(c, pred) => FilterMore(cx, fuel, more, e, vars, s);
    case SendEvent(d, m, c) => SendMore(cx, fuel, more, e, vars, s);
    case ApplyResources(d, v) =>
      ExprMore(cx, fuel, more, d, vars, s);
      ExprMore(cx, fuel, more, v, vars, EvalExpr(cx, fuel, d, vars, s).s);
  }

  lemma {:induction false} AndMore(cx: Ctx, fuel: nat, more: nat, e: Expr, vars: nat, s: State)
    requires fuel <= more && e.And? && EvalExpr(cx, fuel, e, vars, s).out != OutOfFuel
    ensures EvalExpr(cx, more, e, vars, s) == EvalExpr(cx, fuel, e, vars, s)
    decreases fuel, e, 1
  {
    ExprMore(cx, fuel, more, e.left, vars, s);
    var x := EvalExpr(cx, fuel, e.left, vars, s);
    if x.out != Done(BoolV(false)) { ExprMore(cx, fuel, more, e.right, vars, x.s); }
  }

  lemma {:induction false} CallMore(cx: Ctx, fuel: nat, more: nat, e: Expr, vars: nat, s: State)
    requires fuel <= more && e.Call? && EvalExpr(cx, fuel, e, vars, s).out != OutOfFuel
    ensures EvalExpr(cx, more, e, vars, s) == EvalExpr(cx, fuel, e, vars, s)
    decreases fuel, e, 1
  {
    ExprMore(cx, fuel, more, e.callee, vars, s);
    var x := EvalExpr(cx, fuel, e.callee, vars, s);
    ExprMore(cx, fuel, more, e.param, vars, x.s);
    var y := EvalExpr(cx, fuel, e.param, vars, x.s);
    if Both(x.out, y.out).Done? && x.out.value.StrV? && x.out.value.s in cx.functions {
      FunctionMore(cx, fuel - 1, more - 1, cx.functions[x.out.value.s], y.out.value, y.s);
    }
  }

  lemma {:induction false} FilterMore(cx: Ctx, fuel: nat, more: nat, e: Expr, vars: nat, s: State)
    requires fuel <= more && e.Filter? && EvalExpr(cx, fuel, e, vars, s).out != OutOfFuel
    ensures EvalExpr(cx, more, e, vars, s) == EvalExpr(cx, fuel, e, vars, s)
    decreases fuel, e, 1
  {
    ExprMore(cx, fuel, more, e.coll, vars, s);
    var x := EvalExpr(cx, fuel, e.coll, vars, s);
    if x.out.Done? && x.out.value.ListV? {
      FilterListMore(cx, fuel, more, e.pred, x.out.value.elems, [], x.s);
    } else if x.out.Done? && x.out.value.MapV? {
      var ref := x.out.value.ref;
      var keys := Permute(SortedKeys(At(x.s.heap, ref).Keys), cx.visit(x.s.tick));
      FilterMapMore(cx, fuel, more, e.pred, ref, keys, map[], x.s.(tick := x.s.tick + 1));
    }
  }

  lemma {:induction false} SendMore(cx: Ctx, fuel: nat, more: nat, e: Expr, vars: nat, s: State)
    requires fuel <= more && e.SendEvent? && EvalExpr(cx, fuel, e, vars, s).out != OutOfFuel
    ensures EvalExpr(cx, more, e, vars, s) == EvalExpr(cx, fuel, e, vars, s)
    decreases fuel, e, 1
  {
    ExprMore(cx, fuel, more, e.destination, vars, s);
    var x := EvalExpr(cx, fuel, e.destination, vars, s);
    if x.out.Done? {
      ExprMore(cx, fuel, more, e.message, vars, x.s);
      var y := EvalExpr(cx, fuel, e.message, vars, x.s);
      if y.out.Done? { ExprMore(cx, fuel, more, e.context, vars, y.s); }
    }
  }

  lemma {:induction false} FilterListMore(cx: Ctx, fuel: nat, more: nat, pred: Source, elems: seq<Val>, kept: seq<Val>,
                                          s: State)
    requires fuel <= more && FilterList(cx, fuel, pred, elems, kept, s).out != OutOfFuel
    ensures FilterList(cx, more, pred, elems, kept, s) == FilterList(cx, fuel, pred, elems, kept, s)
    decreases fuel, pred, |elems|
  {
    if elems != [] {
      var s1 := Alloc(s, map["value" := elems[0]]);
      ConditionMore(cx, fuel, more, VALUE_ENV, pred, |s.heap|, s1);
      var c := EvalCondition(cx, fuel, VALUE_ENV, pred, |s.heap|, s1);
      if c.out.Done? {
        FilterListMore(cx, fuel, more, pred, elems[1..], if c.out.value then kept + [elems[0]] else kept, c.s);
      }
    }
  }

  lemma {:induction false} FilterMapMore(cx: Ctx, fuel: nat, more: nat, pred: Source, ref: nat, keys: seq<string>,
                                         kept: GoMap, s: State)
    requires fuel <= more && FilterMap(cx, fuel, pred, ref, keys, kept, s).out != OutOfFuel
    ensures FilterMap(cx, more, pred, ref, keys, kept, s) == FilterMap(cx, fuel, pred, ref, keys, kept, s)
    decreases fuel, pred, |keys|
  {
    if keys == [] {
    } else if keys[0] !in At(s.heap, ref) {
      FilterMapMore(cx, fuel, more, pred, ref, keys[1..], kept, s);
    } else {
      var v := At(s.heap, ref)[keys[0]];
      var s1 := Alloc(s, map["key" := StrV(keys[0]), "value" := v]);
      ConditionMore(cx, fuel, more, ENTRY_ENV, pred, |s.heap|, s1);
      var c := EvalCondition(cx, fuel, ENTRY_ENV, pred, |s.heap|, s1);
      if c.out.Done? {
        FilterMapMore(cx, fuel, more, pred, ref, keys[1..], if c.out.value then kept[keys[0] := v] else kept, c.s);
      }
    }
  }

  lemma {:induction false} ConditionMore(cx: Ctx, fuel: nat, more: nat, env: Env, when: Source, vars: nat, s: State)
    requires fuel <= more && EvalCondition(cx, fuel, env, when, vars, s).out != OutOfFuel
    ensures EvalCondition(cx, more, env, when, vars, s) == EvalCondition(cx, fuel, env, when, vars, s)
    decreases fuel, when, 0
  {
    if when.Text? && TypeOf(env, when.e).Some? { ExprMore(cx, fuel, more, when.e, vars, s); }
  }

  lemma {:induction false} FunctionMore(cx: Ctx, fuel: nat, more: nat, fd: FuncDef, arg: Val, s: State)
    requires fuel <= more && CallFunction(cx, fuel, fd, arg, s).out != OutOfFuel
    ensures CallFunction(cx, more, fd, arg, s) == CallFunction(cx, fuel, fd, arg, s)
    decreases fuel
  {
    if Callable(fd) {
      var c := CreateVariable(cx, map[], |s.heap|, fd.input.value, arg, Alloc(s, map[]));
      if c.out.Done? { ArrayMore(cx, fuel, more, c.out.value, |s.heap|, fd.body.elems, c.s); }
    }
  }

  lemma {:induction false} FieldMore(cx: Ctx, fuel: nat, more: nat, env: Env, vars: nat, f: Field, s: State)
    requires fuel <= more && AssignField(cx, fuel, env, vars, f, s).out != OutOfFuel
    ensures AssignField(cx, more, env, vars, f, s) == AssignField(cx, fuel, env, vars, f, s)
    decreases fuel, f, 1
  {
    if f.key.Name? && IsText(f.value) && f.value.text.Text? && TypeOf(env, f.value.text.e).Some? && f.key.name != ""
       && !IsKeyword(f.key.name) {
      ExprMore(cx, fuel, more, f.value.text.e, vars, s);
    }
  }

  lemma {:induction false} FieldsMore(cx: Ctx, fuel: nat, more: nat, env: Env, vars: nat, fields: seq<Field>,
                                      order: seq<nat>, s: State)
    requires forall i | i in order :: i < |fields|
    requires fuel <= more && AssignFields(cx, fuel, env, vars, fields, order, s).out != OutOfFuel
    ensures AssignFields(cx, more, env, vars, fields, order, s) == AssignFields(cx, fuel, env, vars, fields, order, s)
    decreases fuel, fields, 1, |order|
  {
    if order != [] {
      assert order[0] in order && forall i | i in order[1..] :: i in order;
      FieldMore(cx, fuel, more, env, vars, fields[order[0]], s);
      var r := AssignField(cx, fuel, env, vars, fields[order[0]], s);
      if r.out.Done? { FieldsMore(cx, fuel, more, r.out.value, vars, fields, order[1..], r.s); }
    }
  }

  lemma {:induction false} BodyMore(cx: Ctx, fuel: nat, more: nat, env: Env, vars: nat, body: Yaml, s: State)
    requires fuel <= more && EvalBody(cx, fuel, env, vars, body, s).out != OutOfFuel
    ensures EvalBody(cx, more, env, vars, body, s) == EvalBody(cx, fuel, env, vars, body, s)
    decreases fuel, body, 1
  {
    if body.YList? { ArrayMore(cx, fuel, more, env, vars, body.elems, s); }
  }

  lemma {:induction false} ThenMore(cx: Ctx, fuel: nat, more: nat, env: Env, vars: nat, fields: seq<Field>, s: State)
    requires fuel <= more && ThenPart(cx, fuel, env, vars, fields, s).out != OutOfFuel
    ensures ThenPart(cx, more, env, vars, fields, s) == ThenPart(cx, fuel, env, vars, fields, s)
    decreases fuel, fields, 3
  {
    if Get(fields, BODY).Some? {
      BodyMore(cx, fuel, more, env, vars, Get(fields, BODY).value, s);
    } else if Get(fields, SWITCH).Some? {
      SwitchMore(cx, fuel, more, env, vars, Get(fields, SWITCH).value, s);
    } else {
      AssignmentMore(cx, fuel, more, env, vars, fields, s);
    }
  }

  lemma {:induction false} AssignmentMore(cx: Ctx, fuel: nat, more: nat, env: Env, vars: nat, fields: seq<Field>,
                                          s: State)
    requires fuel <= more && EvalAssignment(cx, fuel, env, vars, fields, s).out != OutOfFuel
    ensures EvalAssignment(cx, more, env, vars, fields, s) == EvalAssignment(cx, fuel, env, vars, fields, s)
    decreases fuel, fields, 2
  {
    FieldsMore(cx, fuel, more, env, vars, fields, VisitOrder(|fields|, cx.visit(s.tick)), s.(tick := s.tick + 1));
  }

  lemma {:induction false} IfMore(cx: Ctx, fuel: nat, more: nat, env: Env, vars: nat, fields: seq<Field>, s: State)
    requires fuel <= more && EvalIf(cx, fuel, env, vars, fields, s).out != OutOfFuel
    ensures EvalIf(cx, more, env, vars, fields, s) == EvalIf(cx, fuel, env, vars, fields, s)
    decreases fuel, fields, 4
  {
    if IfSyntax(fields) {
      var when := Get(fields, IF).value.text;
      ConditionMore(cx, fuel, more, env, when, vars, s);
      var c := EvalCondition(cx, fuel, env, when, vars, s);
      if c.out == Done(true) { ThenMore(cx, fuel, more, env, vars, fields, c.s); }
    }
  }

  lemma {:induction false} SwitchMore(cx: Ctx, fuel: nat, more: nat, env: Env, vars: nat, cases: Yaml, s: State)
    requires fuel <= more && EvalSwitch(cx, fuel, env, vars, cases, s).out != OutOfFuel
    ensures EvalSwitch(cx, more, env, vars, cases, s) == EvalSwitch(cx, fuel, env, vars, cases, s)
    decreases fuel, cases, 1
  {
    if cases.YList? { CasesMore(cx, fuel, more, env, vars, cases.elems, 0, None, s); }
  }

  lemma {:induction false} CasesMore(cx: Ctx, fuel: nat, more: nat, env: Env, vars: nat, cases: seq<Yaml>, i: nat,
                                     dflt: Option<nat>, s: State)
    requires i <= |cases|
    requires dflt.Some? ==> dflt.value < |cases| && IsDefault(cases[dflt.value])
    requires fuel <= more && SwitchCases(cx, fuel, env, vars, cases, i, dflt, s).out != OutOfFuel
    ensures SwitchCases(cx, more, env, vars, cases, i, dflt, s) == SwitchCases(cx, fuel, env, vars, cases, i, dflt, s)
    decreases fuel, cases, |cases| - i
  {
    if i == |cases| {
      if dflt.Some? {
        ArrayMore(cx, fuel, more, env, vars, Get(cases[dflt.value].fields, DEFAULT).value.elems, s);
      }
    } else if cases[i].YObject? && Get(cases[i].fields, IF).Some? {
      IfMore(cx, fuel, more, env, vars, cases[i].fields, s);
      var r := EvalIf(cx, fuel, env, vars, cases[i].fields, s);
      if r.out.Done? && !r.out.value.1 { CasesMore(cx, fuel, more, env, vars, cases, i + 1, dflt, r.s); }
    } else if IsDefault(cases[i]) && dflt.None? {
      CasesMore(cx, fuel, more, env, vars, cases, i + 1, Some(i), s);
    }
  }

  lemma {:induction false} ObjectMore(cx: Ctx, fuel: nat, more: nat, env: Env, vars: nat, item: Yaml, s: State)
    requires fuel <= more && EvalObject(cx, fuel, env, vars, item, s).out != OutOfFuel
    ensures EvalObject(cx, more, env, vars, item, s) == EvalObject(cx, fuel, env, vars, item, s)
    decreases fuel, item, 0
  {
    if item.YObject? {
      var fields := item.fields;
      var k := CountKeywords(fields);
      if k.hasIf {
        IfMore(cx, fuel, more, env, vars, fields, s);
      } else if (k.hasSwitch || k.hasBody) && (k.count > 1 || |fields| > 1) {
      } else if k.hasSwitch {
        if Get(fields, SWITCH).Some? { SwitchMore(cx, fuel, more, env, vars, Get(fields, SWITCH).value, s); }
      } else if k.hasBody {
        if Get(fields, BODY).Some? { BodyMore(cx, fuel, more, env, vars, Get(fields, BODY).value, s); }
      } else if !k.hasDefault && |fields| <= 1 {
        AssignmentMore(cx, fuel, more, env, vars, fields, s);
      }
    }
  }

  lemma {:induction false} ArrayMore(cx: Ctx, fuel: nat, more: nat, env: Env, vars: nat, body: seq<Yaml>, s: State)
    requires fuel <= more && EvalArray(cx, fuel, env, vars, body, s).out != OutOfFuel
    ensures EvalArray(cx, more, env, vars, body, s) == EvalArray(cx, fuel, env, vars, body, s)
    decreases fuel, body, 0
  {
    if body != [] {
      ObjectMore(cx, fuel, more, env, vars, body[0], s);
      var r := EvalObject(cx, fuel, env, vars, body[0], s);
      if r.out.Done? { ArrayMore(cx, fuel, more, r.out.value, vars, body[1..], r.s); }
    }
  }

  lemma {:induction false} TriggersMore(cx: Ctx, fuel: nat, more: nat, ts: seq<Trigger>, message: nat, saved: seq<nat>,
                                        s: State)
    requires fuel <= more && RunTriggers(cx, fuel, ts, message, saved, s).out != OutOfFuel
    ensures RunTriggers(cx, more, ts, message, saved, s) == RunTriggers(cx, fuel, ts, message, saved, s)
    decreases |ts|
  {
    if ts != [] {
      var t := ts[0];
      if t.input.Some? && t.body.Some? {
        ArrayMore(cx, fuel, more, map[t.input.value := TMap], |s.heap|, t.body.value,
                  Alloc(s, map[t.input.value := MapV(message)]));
      }
      var r := RunTrigger(cx, fuel, t, message, s);
      if r.out.Done? { TriggersMore(cx, fuel, more, ts[1..], message, saved + [r.out.value], r.s); }
    }
  }

  /** Two fuels that both suffice give the same result for a whole message. */
  lemma MessageDeterminate(cx: Ctx, fuel: nat, fuel': nat, eventSource: string, message: nat, s: State)
    requires ProcessMessage(cx, fuel, eventSource, message, s).out != OutOfFuel
    requires ProcessMessage(cx, fuel', eventSource, message, s).out != OutOfFuel
    ensures ProcessMessage(cx, fuel, eventSource, message, s) == ProcessMessage(cx, fuel', eventSource, message, s)
  {
    if eventSource in cx.triggers {
      var ts := cx.triggers[eventSource];
      if fuel <= fuel' {
        TriggersMore(cx, fuel, fuel', ts, message, [], s);
      } else {
        TriggersMore(cx, fuel', fuel, ts, message, [], s);
      }
    }
  }
}
