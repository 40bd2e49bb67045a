/** Calls that never end. */
module Divergence {
  import opened Text
  import opened Values
  import opened Syntax
  import opened Semantics
  import opened Ownership
  import opened Termination
  import opened Scoping

  // A family of calls is closed when the run of each of them is cut off or comes to another call of the
  // family: in an expression that must be evaluated, in any statement and after any statements that
  // succeed. No call of a closed family ever ends. The family may hold several functions that call each
  // other, and may restrict the arguments and the states in which they are called.

  type Calls = (string, Val, State) -> bool

  // ---------------------------------------------------------------- coming to a call

  /** Evaluating e comes to a call of the family. */
  ghost predicate ExprReaches(cx: Ctx, calls: Calls, fuel: nat, e: Expr, vars: nat, s: State)
    decreases e
  {
    match e
    case Lit(_) => false
    case Path(_, _) => false
    case KabaneroConfig => false
    case Not(a) => ExprReaches(cx, calls, fuel, a, vars, s)
    case And(l, r) =>
      || ExprReaches(cx, calls, fuel, l, vars, s)
      || (var x := EvalExpr(cx, fuel, l, vars, s);
          x.out != Done(BoolV(false)) && ExprReaches(cx, calls, fuel, r, vars, x.s))
    case Bin(_, l, r) =>
      || ExprReaches(cx, calls, fuel, l, vars, s)
      || ExprReaches(cx, calls, fuel, r, vars, EvalExpr(cx, fuel, l, vars, s).s)
    case ApplyResources(d, v) =>
      || ExprReaches(cx, calls, fuel, d, vars, s)
      || ExprReaches(cx, calls, fuel, v, vars, EvalExpr(cx, fuel, d, vars, s).s)
    case Filter(c, p) =>
      || ExprReaches(cx, calls, fuel, c, vars, s)
      || (var x := EvalExpr(cx, fuel, c, vars, s);
          match x.out
          case Done(ListV(xs)) => ListReaches(cx, calls, fuel, p, xs, x.s)
          case Done(MapV(ref)) =>
            var keys := Permute(SortedKeys(At(x.s.heap, ref).Keys), cx.visit(x.s.tick));
            EntriesReach(cx, calls, fuel, p, ref, keys, x.s.(tick := x.s.tick + 1))
          case _ => false)
    case SendEvent(d, m, c) =>
      || ExprReaches(cx, calls, fuel, d, vars, s)
      || (var x := EvalExpr(cx, fuel, d, vars, s);
          x.out.Done? && (|| ExprReaches(cx, calls, fuel, m, vars, x.s)
                          || (var y := EvalExpr(cx, fuel, m, vars, x.s);
                              y.out.Done? && ExprReaches(cx, calls, fuel, c, vars, y.s))))
    case Call(f, p) =>
      var x := EvalExpr(cx, fuel, f, vars, s);
      var y := EvalExpr(cx, fuel, p, vars, x.s);
      || ExprReaches(cx, calls, fuel, f, vars, s)
      || ExprReaches(cx, calls, fuel, p, vars, x.s)
      || (x.out.Done? && x.out.value.StrV? && y.out.Done? && calls(x.out.value.s, y.out.value, y.s))
  }

  /** The predicate of a filter comes to a call on one of the elements, and has a verdict on those before. */
  ghost predicate ListReaches(cx: Ctx, calls: Calls, fuel: nat, p: Source, xs: seq<Val>, s: State)
    decreases p, |xs|, 1
  {
    xs != [] &&
    var s1 := Alloc(s, map["value" := xs[0]]);
    || SourceReaches(cx, calls, fuel, VALUE_ENV, p, |s.heap|, s1)
    || (var c := EvalCondition(cx, fuel, VALUE_ENV, p, |s.heap|, s1);
        c.out.Done? && ListReaches(cx, calls, fuel, p, xs[1..], c.s))
  }

  /** The same on one of the entries, in the order of the visit. */
  ghost predicate EntriesReach(cx: Ctx, calls: Calls, fuel: nat, p: Source, ref: nat, keys: seq<string>, s: State)
    decreases p, |keys|, 1
  {
    keys != [] &&
    if keys[0] !in At(s.heap, ref) then EntriesReach(cx, calls, fuel, p, ref, keys[1..], s)
    else
      var s1 := Alloc(s, map["key" := StrV(keys[0]), "value" := At(s.heap, ref)[keys[0]]]);
      || SourceReaches(cx, calls, fuel, ENTRY_ENV, p, |s.heap|, s1)
      || (var c := EvalCondition(cx, fuel, ENTRY_ENV, p, |s.heap|, s1);
          c.out.Done? && EntriesReach(cx, calls, fuel, p, ref, keys[1..], c.s))
  }

  ghost predicate SourceReaches(cx: Ctx, calls: Calls, fuel: nat, env: Env, src: Source, vars: nat, s: State)
    decreases src, 0, 0
  {
    src.Text? && TypeOf(env, src.e).Some? && ExprReaches(cx, calls, fuel, src.e, vars, s)
  }

  ghost predicate FieldReaches(cx: Ctx, calls: Calls, fuel: nat, env: Env, vars: nat, f: Field, s: State) {
    && f.key.Name? && !IsKeyword(f.key.name) && f.key.name != "" && IsText(f.value)
    && SourceReaches(cx, calls, fuel, env, f.value.text, vars, s)
  }

  ghost predicate FieldsReach(cx: Ctx, calls: Calls, fuel: nat, env: Env, vars: nat, fields: seq<Field>,
                              order: seq<nat>, s: State)
    requires forall i | i in order :: i < |fields|
    decreases |order|
  {
    && order != []
    && (assert order[0] in order && forall i | i in order[1..] :: i in order;
        var r := AssignField(cx, fuel, env, vars, fields[order[0]], s);
        || FieldReaches(cx, calls, fuel, env, vars, fields[order[0]], s)
        || (r.out.Done? && FieldsReach(cx, calls, fuel, r.out.value, vars, fields, order[1..], r.s)))
  }

  ghost predicate AssignmentReaches(cx: Ctx, calls: Calls, fuel: nat, env: Env, vars: nat, fields: seq<Field>,
                                    s: State) {
    FieldsReach(cx, calls, fuel, env, vars, fields, VisitOrder(|fields|, cx.visit(s.tick)), s.(tick := s.tick + 1))
  }

  ghost predicate BodyReaches(cx: Ctx, calls: Calls, fuel: nat, env: Env, vars: nat, body: Yaml, s: State)
    decreases body, 1
  {
    body.YList? && ArrayReaches(cx, calls, fuel, env, vars, body.elems, s)
  }

  ghost predicate ThenReaches(cx: Ctx, calls: Calls, fuel: nat, env: Env, vars: nat, fields: seq<Field>, s: State)
    decreases fields, 3
  {
    if Get(fields, BODY).Some? then BodyReaches(cx, calls, fuel, env, vars, Get(fields, BODY).value, s)
    else if Get(fields, SWITCH).Some? then SwitchReaches(cx, calls, fuel, env, vars, Get(fields, SWITCH).value, s)
    else AssignmentReaches(cx, calls, fuel, env, vars, fields, s)
  }

  ghost predicate IfReaches(cx: Ctx, calls: Calls, fuel: nat, env: Env, vars: nat, fields: seq<Field>, s: State)
    decreases fields, 4
  {
    && IfSyntax(fields)
    && var when := Get(fields, IF).value.text;
       var c := EvalCondition(cx, fuel, env, when, vars, s);
       || SourceReaches(cx, calls, fuel, env, when, vars, s)
       || (c.out == Done(true) && ThenReaches(cx, calls, fuel, env, vars, fields, c.s))
  }

  ghost predicate SwitchReaches(cx: Ctx, calls: Calls, fuel: nat, env: Env, vars: nat, cases: Yaml, s: State)
    decreases cases, 1
  {
    cases.YList? && CasesReach(cx, calls, fuel, env, vars, cases.elems, 0, None, s)
  }

  ghost predicate CasesReach(cx: Ctx, calls: Calls, fuel: nat, env: Env, vars: nat, cases: seq<Yaml>, i: nat,
                             dflt: Option<nat>, s: State)
    requires i <= |cases|
    requires dflt.Some? ==> dflt.value < |cases| && IsDefault(cases[dflt.value])
    decreases cases, |cases| - i
  {
    if i == |cases| then
      dflt.Some?
      && ArrayReaches(cx, calls, fuel, env, vars, Get(cases[dflt.value].fields, DEFAULT).value.elems, s)
    else if !cases[i].YObject? then false
    else if Get(cases[i].fields, IF).Some? then
      var r := EvalIf(cx, fuel, env, vars, cases[i].fields, s);
      || IfReaches(cx, calls, fuel, env, vars, cases[i].fields, s)
      || (r.out.Done? && !r.out.value.1 && CasesReach(cx, calls, fuel, env, vars, cases, i + 1, dflt, r.s))
    else IsDefault(cases[i]) && dflt.None? && CasesReach(cx, calls, fuel, env, vars, cases, i + 1, Some(i), s)
  }

  ghost predicate ObjectReaches(cx: Ctx, calls: Calls, fuel: nat, env: Env, vars: nat, item: Yaml, s: State)
    decreases item, 0
  {
    && item.YObject?
    && var fields := item.fields;
       var k := CountKeywords(fields);
       if k.hasIf then IfReaches(cx, calls, fuel, env, vars, fields, s)
       else if k.hasSwitch || k.hasBody then
         && k.count <= 1 && |fields| <= 1
         && if k.hasSwitch then
              Get(fields, SWITCH).Some?
              && SwitchReaches(cx, calls, fuel, env, vars, Get(fields, SWITCH).value, s)
            else
              Get(fields, BODY).Some? && BodyReaches(cx, calls, fuel, env, vars, Get(fields, BODY).value, s)
       else !k.hasDefault && |fields| <= 1 && AssignmentReaches(cx, calls, fuel, env, vars, fields, s)
  }

  /** The statements come to a call of the family; those before it succeed. */
  ghost predicate ArrayReaches(cx: Ctx, calls: Calls, fuel: nat, env: Env, vars: nat, body: seq<Yaml>, s: State)
    decreases body, 0
  {
    && body != []
    && var r := EvalObject(cx, fuel, env, vars, body[0], s);
       || ObjectReaches(cx, calls, fuel, env, vars, body[0], s)
       || (r.out.Done? && ArrayReaches(cx, calls, fuel, r.out.value, vars, body[1..], r.s))
  }

  // ---------------------------------------------------------------- a run that comes to a call is cut off

  /** With this bound, the calls of the family are cut off. */
  ghost predicate CutOff(cx: Ctx, calls: Calls, fuel: nat) {
    forall g, arg, s | calls(g, arg, s) ::
      g in cx.functions && (fuel == 0 || CallFunction(cx, fuel - 1, cx.functions[g], arg, s).out == OutOfFuel)
  }

  lemma {:induction false} ExprCut(cx: Ctx, calls: Calls, fuel: nat, e: Expr, vars: nat, s: State)
    requires CutOff(cx, calls, fuel) && ExprReaches(cx, calls, fuel, e, vars, s)
    ensures EvalExpr(cx, fuel, e, vars, s).out == OutOfFuel
    decreases e
  {
    match e
    case Not(a) => ExprCut(cx, calls, fuel, a, vars, s);
    case And(l, r) =>
      if ExprReaches(cx, calls, fuel, l, vars, s) {
        ExprCut(cx, calls, fuel, l, vars, s);
      } else {
        ExprCut(cx, calls, fuel, r, vars, EvalExpr(cx, fuel, l, vars, s).s);
      }
    case Bin(_, l, r) => PairCut(cx, calls, fuel, e, l, r, vars, s);
    case ApplyResources(d, v) => PairCut(cx, calls, fuel, e, d, v, vars, s);
    case Filter(c, p) =>
      var x := EvalExpr(cx, fuel, c, vars, s);
      if ExprReaches(cx, calls, fuel, c, vars, s) {
        ExprCut(cx, calls, fuel, c, vars, s);
      } else if x.out.Done? && x.out.value.ListV? {
        ListCut(cx, calls, fuel, p, x.out.value.elems, [], x.s);
      } else {
        var keys := Permute(SortedKeys(At(x.s.heap, x.out.value.ref).Keys), cx.visit(x.s.tick));
        EntriesCut(cx, calls, fuel, p, x.out.value.ref, keys, map[], x.s.(tick := x.s.tick + 1));
      }
    case SendEvent(d, m, c) =>
      var x := EvalExpr(cx, fuel, d, vars, s);
      if ExprReaches(cx, calls, fuel, d, vars, s) {
        ExprCut(cx, calls, fuel, d, vars, s);
      } else if ExprReaches(cx, calls, fuel, m, vars, x.s) {
        ExprCut(cx, calls, fuel, m, vars, x.s);
      } else {
        ExprCut(cx, calls, fuel, c, vars, EvalExpr(cx, fuel, m, vars, x.s).s);
      }
    case Call(f, p) =>
      var x := EvalExpr(cx, fuel, f, vars, s);
      if ExprReaches(cx, calls, fuel, f, vars, s) || ExprReaches(cx, calls, fuel, p, vars, x.s) {
        PairCut(cx, calls, fuel, e, f, p, vars, s);
      }
  }

  lemma {:induction false} ListCut(cx: Ctx, calls: Calls, fuel: nat, p: Source, xs: seq<Val>, kept: seq<Val>, s: State)
    requires CutOff(cx, calls, fuel) && ListReaches(cx, calls, fuel, p, xs, s)
    ensures FilterList(cx, fuel, p, xs, kept, s).out == OutOfFuel
    decreases p, |xs|, 1
  {
    var s1 := Alloc(s, map["value" := xs[0]]);
    if SourceReaches(cx, calls, fuel, VALUE_ENV, p, |s.heap|, s1) {
      ConditionCut(cx, calls, fuel, VALUE_ENV, p, |s.heap|, s1);
    } else {
      var c := EvalCondition(cx, fuel, VALUE_ENV, p, |s.heap|, s1);
      ListCut(cx, calls, fuel, p, xs[1..], if c.out.value then kept + [xs[0]] else kept, c.s);
    }
  }

  lemma {:induction false} EntriesCut(cx: Ctx, calls: Calls, fuel: nat, p: Source, ref: nat, keys: seq<string>,
                                      kept: GoMap, s: State)
    requires CutOff(cx, calls, fuel) && EntriesReach(cx, calls, fuel, p, ref, keys, s)
    ensures FilterMap(cx, fuel, p, ref, keys, kept, s).out == OutOfFuel
    decreases p, |keys|, 1
  {
    if keys[0] !in At(s.heap, ref) {
      EntriesCut(cx, calls, fuel, p, ref, keys[1..], kept, s);
    } else {
      var v := At(s.heap, ref)[keys[0]];
      var s1 := Alloc(s, map["key" := StrV(keys[0]), "value" := v]);
      if SourceReaches(cx, calls, fuel, ENTRY_ENV, p, |s.heap|, s1) {
        ConditionCut(cx, calls, fuel, ENTRY_ENV, p, |s.heap|, s1);
      } else {
        var c := EvalCondition(cx, fuel, ENTRY_ENV, p, |s.heap|, s1);
        EntriesCut(cx, calls, fuel, p, ref, keys[1..], if c.out.value then kept[keys[0] := v] else kept, c.s);
      }
    }
  }

  lemma {:induction false} ConditionCut(cx: Ctx, calls: Calls, fuel: nat, env: Env, p: Source, vars: nat, s: State)
    requires CutOff(cx, calls, fuel) && SourceReaches(cx, calls, fuel, env, p, vars, s)
    ensures EvalCondition(cx, fuel, env, p, vars, s).out == OutOfFuel
    decreases p, 0, 0
  {
    ExprCut(cx, calls, fuel, p.e, vars, s);
  }

  lemma {:induction false} PairCut(cx: Ctx, calls: Calls, fuel: nat, e: Expr, l: Expr, r: Expr, vars: nat, s: State)
    requires CutOff(cx, calls, fuel) && l < e && r < e
    requires ExprReaches(cx, calls, fuel, l, vars, s)
             || ExprReaches(cx, calls, fuel, r, vars, EvalExpr(cx, fuel, l, vars, s).s)
    ensures var x := EvalExpr(cx, fuel, l, vars, s);
            Both(x.out, EvalExpr(cx, fuel, r, vars, x.s).out) == OutOfFuel
    decreases e, 0
  {
    if ExprReaches(cx, calls, fuel, l, vars, s) {
      ExprCut(cx, calls, fuel, l, vars, s);
    } else {
      ExprCut(cx, calls, fuel, r, vars, EvalExpr(cx, fuel, l, vars, s).s);
    }
  }

  lemma FieldCut(cx: Ctx, calls: Calls, fuel: nat, env: Env, vars: nat, f: Field, s: State)
    requires CutOff(cx, calls, fuel) && FieldReaches(cx, calls, fuel, env, vars, f, s)
    ensures AssignField(cx, fuel, env, vars, f, s).out == OutOfFuel
  {
    ExprCut(cx, calls, fuel, f.value.text.e, vars, s);
  }

  lemma {:induction false} FieldsCut(cx: Ctx, calls: Calls, fuel: nat, env: Env, vars: nat, fields: seq<Field>,
                                     order: seq<nat>, s: State)
    requires forall i | i in order :: i < |fields|
    requires CutOff(cx, calls, fuel) && FieldsReach(cx, calls, fuel, env, vars, fields, order, s)
    ensures AssignFields(cx, fuel, env, vars, fields, order, s).out == OutOfFuel
    decreases |order|
  {
    assert order[0] in order && forall i | i in order[1..] :: i in order;
    var r := AssignField(cx, fuel, env, vars, fields[order[0]], s);
    if FieldReaches(cx, calls, fuel, env, vars, fields[order[0]], s) {
      FieldCut(cx, calls, fuel, env, vars, fields[order[0]], s);
    } else {
      FieldsCut(cx, calls, fuel, r.out.value, vars, fields, order[1..], r.s);
    }
  }

  lemma AssignmentCut(cx: Ctx, calls: Calls, fuel: nat, env: Env, vars: nat, fields: seq<Field>, s: State)
    requires CutOff(cx, calls, fuel) && AssignmentReaches(cx, calls, fuel, env, vars, fields, s)
    ensures EvalAssignment(cx, fuel, env, vars, fields, s).out == OutOfFuel
  {
    FieldsCut(cx, calls, fuel, env, vars, fields, VisitOrder(|fields|, cx.visit(s.tick)), s.(tick := s.tick + 1));
  }

  lemma {:induction false} BodyCut(cx: Ctx, calls: Calls, fuel: nat, env: Env, vars: nat, body: Yaml, s: State)
    requires CutOff(cx, calls, fuel) && BodyReaches(cx, calls, fuel, env, vars, body, s)
    ensures EvalBody(cx, fuel, env, vars, body, s).out == OutOfFuel
    decreases body, 1
  {
    ArrayCut(cx, calls, fuel, env, vars, body.elems, s);
  }

  lemma {:induction false} ThenCut(cx: Ctx, calls: Calls, fuel: nat, env: Env, vars: nat, fields: seq<Field>, s: State)
    requires CutOff(cx, calls, fuel) && ThenReaches(cx, calls, fuel, env, vars, fields, s)
    ensures ThenPart(cx, fuel, env, vars, fields, s).out == OutOfFuel
    decreases fields, 3
  {
    if Get(fields, BODY).Some? {
      BodyCut(cx, calls, fuel, env, vars, Get(fields, BODY).value, s);
    } else if Get(fields, SWITCH).Some? {
      SwitchCut(cx, calls, fuel, env, vars, Get(fields, SWITCH).value, s);
    } else {
      AssignmentCut(cx, calls, fuel, env, vars, fields, s);
    }
  }

  lemma {:induction false} IfCut(cx: Ctx, calls: Calls, fuel: nat, env: Env, vars: nat, fields: seq<Field>, s: State)
    requires CutOff(cx, calls, fuel) && IfReaches(cx, calls, fuel, env, vars, fields, s)
    ensures EvalIf(cx, fuel, env, vars, fields, s).out == OutOfFuel
    decreases fields, 4
  {
    var when := Get(fields, IF).value.text;
    if SourceReaches(cx, calls, fuel, env, when, vars, s) {
      ExprCut(cx, calls, fuel, when.e, vars, s);
    } else {
      ThenCut(cx, calls, fuel, env, vars, fields, EvalCondition(cx, fuel, env, when, vars, s).s);
    }
  }

  lemma {:induction false} SwitchCut(cx: Ctx, calls: Calls, fuel: nat, env: Env, vars: nat, cases: Yaml, s: State)
    requires CutOff(cx, calls, fuel) && SwitchReaches(cx, calls, fuel, env, vars, cases, s)
    ensures EvalSwitch(cx, fuel, env, vars, cases, s).out == OutOfFuel
    decreases cases, 1
  {
    CasesCut(cx, calls, fuel, env, vars, cases.elems, 0, None, s);
  }

  lemma {:induction false} CasesCut(cx: Ctx, calls: Calls, fuel: nat, env: Env, vars: nat, cases: seq<Yaml>, i: nat,
                                    dflt: Option<nat>, s: State)
    requires i <= |cases|
    requires dflt.Some? ==> dflt.value < |cases| && IsDefault(cases[dflt.value])
    requires CutOff(cx, calls, fuel) && CasesReach(cx, calls, fuel, env, vars, cases, i, dflt, s)
    ensures SwitchCases(cx, fuel, env, vars, cases, i, dflt, s).out == OutOfFuel
    decreases cases, |cases| - i
  {
    if i == |cases| {
      ArrayCut(cx, calls, fuel, env, vars, Get(cases[dflt.value].fields, DEFAULT).value.elems, s);
    } else if Get(cases[i].fields, IF).Some? {
      var r := EvalIf(cx, fuel, env, vars, cases[i].fields, s);
      if IfReaches(cx, calls, fuel, env, vars, cases[i].fields, s) {
        IfCut(cx, calls, fuel, env, vars, cases[i].fields, s);
      } else {
        CasesCut(cx, calls, fuel, env, vars, cases, i + 1, dflt, r.s);
      }
    } else {
      CasesCut(cx, calls, fuel, env, vars, cases, i + 1, Some(i), s);
    }
  }

  lemma {:induction false} ObjectCut(cx: Ctx, calls: Calls, fuel: nat, env: Env, vars: nat, item: Yaml, s: State)
    requires CutOff(cx, calls, fuel) && ObjectReaches(cx, calls, fuel, env, vars, item, s)
    ensures EvalObject(cx, fuel, env, vars, item, s).out == OutOfFuel
    decreases item, 0
  {
    var fields := item.fields;
    var k := CountKeywords(fields);
    if k.hasIf {
      IfCut(cx, calls, fuel, env, vars, fields, s);
    } else if k.hasSwitch {
      SwitchCut(cx, calls, fuel, env, vars, Get(fields, SWITCH).value, s);
    } else if k.hasBody {
      BodyCut(cx, calls, fuel, env, vars, Get(fields, BODY).value, s);
    } else {
      AssignmentCut(cx, calls, fuel, env, vars, fields, s);
    }
  }

  lemma {:induction false} ArrayCut(cx: Ctx, calls: Calls, fuel: nat, env: Env, vars: nat, body: seq<Yaml>, s: State)
    requires CutOff(cx, calls, fuel) && ArrayReaches(cx, calls, fuel, env, vars, body, s)
    ensures EvalArray(cx, fuel, env, vars, body, s).out == OutOfFuel
    decreases body, 0
  {
    var r := EvalObject(cx, fuel, env, vars, body[0], s);
    if ObjectReaches(cx, calls, fuel, env, vars, body[0], s) {
      ObjectCut(cx, calls, fuel, env, vars, body[0], s);
    } else {
      ArrayCut(cx, calls, fuel, r.out.value, vars, body[1..], r.s);
    }
  }

  // ---------------------------------------------------------------- closed families

  /** The body of a call comes to a call of the family. */
  ghost predicate CallReaches(cx: Ctx, calls: Calls, fuel: nat, fd: FuncDef, arg: Val, s: State) {
    && Callable(fd)
    && var c := CreateVariable(cx, map[], |s.heap|, fd.input.value, arg, Alloc(s, map[]));
       c.out.Done? && ArrayReaches(cx, calls, fuel, c.out.value, |s.heap|, fd.body.elems, c.s)
  }

  ghost predicate Closed(cx: Ctx, calls: Calls) {
    forall g, arg, s | calls(g, arg, s) :: g in cx.functions && ForAnyBound(cx, calls, cx.functions[g], arg, s)
  }

  ghost predicate ForAnyBound(cx: Ctx, calls: Calls, fd: FuncDef, arg: Val, s: State) {
    forall fuel: nat ::
      CallFunction(cx, fuel, fd, arg, s).out == OutOfFuel || CallReaches(cx, calls, fuel, fd, arg, s)
  }

  /** No call of a closed family ever ends: whatever the bound on nested calls, the run goes beyond it. */
  lemma {:induction false} NeverEnds(cx: Ctx, calls: Calls, fuel: nat, g: string, arg: Val, s: State)
    requires Closed(cx, calls) && calls(g, arg, s)
    ensures g in cx.functions && CallFunction(cx, fuel, cx.functions[g], arg, s).out == OutOfFuel
    decreases fuel
  {
    forall g', arg', s' | calls(g', arg', s')
      ensures g' in cx.functions
              && (fuel == 0 || CallFunction(cx, fuel - 1, cx.functions[g'], arg', s').out == OutOfFuel)
    {
      if fuel > 0 { NeverEnds(cx, calls, fuel - 1, g', arg', s'); }
    }
    var fd := cx.functions[g];
    assert ForAnyBound(cx, calls, fd, arg, s);
    if CallReaches(cx, calls, fuel, fd, arg, s) {
      var c := CreateVariable(cx, map[], |s.heap|, fd.input.value, arg, Alloc(s, map[]));
      ArrayCut(cx, calls, fuel, c.out.value, |s.heap|, fd.body.elems, c.s);
    }
  }

  // ---------------------------------------------------------------- functions that call each other

  /** A class of arguments; it is kept when the input stays in it, whatever statements run. */
  type Arguments = Val -> bool

  ghost predicate Declarable(cx: Ctx, A: Arguments) {
    && (forall v | A(v) :: KindOf(v).Some?)
    && (cx.redeclare ==> forall v: Val | KindOf(v).Some? :: A(v))
  }

  /** A frame in which the input is of the class A. */
  ghost predicate InputFrame(A: Arguments, f: nat, input: string, s: State) {
    && Sealed(s.heap, AllBut(f), f) && Convertible(At(s.heap, f))
    && input in At(s.heap, f) && A(At(s.heap, f)[input])
  }

  /** The argument p always has a value of the class when the input is of the class. */
  ghost predicate Carries(cx: Ctx, A: Arguments, input: string, p: Expr) {
    forall fuel: nat, f: nat, s: State | InputFrame(A, f, input, s) ::
      var y := EvalExpr(cx, fuel, p, f, s);
      y.out.Done? && A(y.out.value)
  }

  /** Evaluating e must call one of the functions G, by name and with an argument of the class. */
  ghost predicate MustCall(cx: Ctx, A: Arguments, G: set<string>, input: string, e: Expr)
    decreases e
  {
    match e
    case Not(a) => MustCall(cx, A, G, input, a)
    case And(l, _) => MustCall(cx, A, G, input, l)
    case Bin(_, l, r) => MustCall(cx, A, G, input, l) || MustCall(cx, A, G, input, r)
    case ApplyResources(d, v) => MustCall(cx, A, G, input, d) || MustCall(cx, A, G, input, v)
    case Filter(c, _) => MustCall(cx, A, G, input, c)
    case SendEvent(d, _, _) => MustCall(cx, A, G, input, d)
    case Call(f, p) =>
      || MustCall(cx, A, G, input, f)
      || MustCall(cx, A, G, input, p)
      || (f.Lit? && f.c.CString? && f.c.s in G && Carries(cx, A, input, p))
    case _ => false
  }

  /** The calls of the functions G with an argument of the class. */
  ghost function CallsOf(A: Arguments, G: set<string>): Calls {
    (g: string, arg: Val, s: State) => g in G && A(arg) && WellFormed(s.heap) && ValIn(arg, All(), |s.heap|)
  }

  lemma {:induction false} WiderRegion(v: Val, f: nat, n: nat)
    requires ValIn(v, AllBut(f), n)
    ensures ValIn(v, All(), n)
    decreases v
  {
    if v.ListV? {
      forall i | 0 <= i < |v.elems| ensures ValIn(v.elems[i], All(), n) { WiderRegion(v.elems[i], f, n); }
    }
  }

  lemma SealedWellFormed(h: Heap, f: nat)
    requires Sealed(h, AllBut(f), f)
    ensures WellFormed(h)
  {
    forall r | 0 <= r < |h| ensures MapIn(h[r], All(), |h|) {
      assert MapIn(h[r], AllBut(f), |h|);
      forall k | k in h[r] ensures ValIn(h[r][k], All(), |h|) { WiderRegion(h[r][k], f, |h|); }
    }
  }

  lemma ArgumentValue(cx: Ctx, A: Arguments, fuel: nat, input: string, p: Expr, vars: nat, s: State)
    requires Carries(cx, A, input, p) && InputFrame(A, vars, input, s)
    ensures var y := EvalExpr(cx, fuel, p, vars, s);
            y.out.Done? && A(y.out.value) && WellFormed(y.s.heap) && ValIn(y.out.value, All(), |y.s.heap|)
  {
    ExprKept(cx, fuel, p, vars, s, AllBut(vars));
    var y := EvalExpr(cx, fuel, p, vars, s);
    SealedWellFormed(y.s.heap, vars);
    WiderRegion(y.out.value, vars, |y.s.heap|);
  }

  /** Every value that can be declared. */
  function AnyValue(): Arguments {
    (v: Val) => KindOf(v).Some?
  }

  /** The input itself, a literal and the configuration can always be declared. */
  lemma PlainCarries(cx: Ctx, input: string, p: Expr)
    requires p == Path(input, []) || (p.Lit? && !p.c.CNull?) || p.KabaneroConfig?
    ensures Declarable(cx, AnyValue()) && Carries(cx, AnyValue(), input, p)
  {
    forall fuel: nat, f: nat, s: State | InputFrame(AnyValue(), f, input, s)
      ensures var y := EvalExpr(cx, fuel, p, f, s); y.out.Done? && AnyValue()(y.out.value)
    {
      if p.Path? { assert Select(s.heap, At(s.heap, f)[input], []) == Done(At(s.heap, f)[input]); }
    }
  }

  function Integers(): Arguments {
    (v: Val) => v.IntV?
  }

  /** What is counted down from an integer is an integer. */
  lemma CountdownCarries(cx: Ctx, input: string, n: int64)
    ensures Carries(cx, Integers(), input, Bin(Sub, Path(input, []), Lit(CInt(n))))
    ensures !cx.redeclare ==> Declarable(cx, Integers())
  {
    var p := Bin(Sub, Path(input, []), Lit(CInt(n)));
    forall fuel: nat, f: nat, s: State | InputFrame(Integers(), f, input, s)
      ensures var y := EvalExpr(cx, fuel, p, f, s); y.out.Done? && Integers()(y.out.value)
    {
      var v := At(s.heap, f)[input];
      assert EvalExpr(cx, fuel, Path(input, []), f, s) == Res(s, Done(v));
      assert EvalExpr(cx, fuel, Lit(CInt(n)), f, s) == Res(s, Done(IntV(n)));
    }
  }

  lemma {:induction false} MustCallReaches(cx: Ctx, A: Arguments, G: set<string>, fuel: nat, input: string, e: Expr,
                                           vars: nat, s: State)
    requires MustCall(cx, A, G, input, e) && InputFrame(A, vars, input, s)
    ensures ExprReaches(cx, CallsOf(A, G), fuel, e, vars, s)
    decreases e
  {
    match e
    case Not(a) => MustCallReaches(cx, A, G, fuel, input, a, vars, s);
    case And(l, _) => MustCallReaches(cx, A, G, fuel, input, l, vars, s);
    case Bin(_, l, r) => SecondReaches(cx, A, G, fuel, input, e, l, r, vars, s);
    case ApplyResources(d, v) => SecondReaches(cx, A, G, fuel, input, e, d, v, vars, s);
    case Filter(c, _) => MustCallReaches(cx, A, G, fuel, input, c, vars, s);
    case SendEvent(d, _, _) => MustCallReaches(cx, A, G, fuel, input, d, vars, s);
    case Call(f, p) =>
      if MustCall(cx, A, G, input, f) || MustCall(cx, A, G, input, p) {
        SecondReaches(cx, A, G, fuel, input, e, f, p, vars, s);
      } else {
        ArgumentValue(cx, A, fuel, input, p, vars, s);
      }
  }

  lemma {:induction false} SecondReaches(cx: Ctx, A: Arguments, G: set<string>, fuel: nat, input: string, e: Expr,
                                         l: Expr, r: Expr, vars: nat, s: State)
    requires l < e && r < e && InputFrame(A, vars, input, s)
    requires MustCall(cx, A, G, input, l) || MustCall(cx, A, G, input, r)
    ensures ExprReaches(cx, CallsOf(A, G), fuel, l, vars, s)
            || ExprReaches(cx, CallsOf(A, G), fuel, r, vars, EvalExpr(cx, fuel, l, vars, s).s)
    decreases e, 0
  {
    if MustCall(cx, A, G, input, l) {
      MustCallReaches(cx, A, G, fuel, input, l, vars, s);
    } else {
      ExprKept(cx, fuel, l, vars, s, AllBut(vars));
      MustCallReaches(cx, A, G, fuel, input, r, vars, EvalExpr(cx, fuel, l, vars, s).s);
    }
  }

  /** Statement k of the body assigns an expression that must call one of G. */
  ghost predicate CallsAt(cx: Ctx, A: Arguments, G: set<string>, fd: FuncDef, k: nat) {
    && Callable(fd) && k < |fd.body.elems| && '.' !in fd.input.value
    && exists name, e :: name != "" && !IsKeyword(name) && fd.body.elems[k] == Assign(name, Text(e))
                         && MustCall(cx, A, G, fd.input.value, e)
  }

  /** The state and the declarations after the first k statements of a call. */
  ghost function Prefix(cx: Ctx, fuel: nat, fd: FuncDef, k: nat, arg: Val, s: State): Res<Env>
    requires Callable(fd) && k <= |fd.body.elems|
  {
    var c := CreateVariable(cx, map[], |s.heap|, fd.input.value, arg, Alloc(s, map[]));
    if c.out.Done? then EvalArray(cx, fuel, c.out.value, |s.heap|, fd.body.elems[..k], c.s) else c
  }

  /** The first k statements never fail, and the expression of statement k checks after them. */
  ghost predicate PrefixSucceeds(cx: Ctx, A: Arguments, G: set<string>, fd: FuncDef, k: nat)
    requires CallsAt(cx, A, G, fd, k)
  {
    forall fuel: nat, arg: Val, s: State | A(arg) && WellFormed(s.heap) && ValIn(arg, All(), |s.heap|) ::
      var r := Prefix(cx, fuel, fd, k, arg, s);
      && !r.out.Fail?
      && (r.out.Done? ==> TypeOf(r.out.value, fd.body.elems[k].fields[0].value.text.e).Some?)
  }

  lemma {:induction false} ArrayPrefix(cx: Ctx, fuel: nat, env: Env, vars: nat, body: seq<Yaml>, k: nat, s: State)
    requires k <= |body|
    ensures var r := EvalArray(cx, fuel, env, vars, body[..k], s);
            EvalArray(cx, fuel, env, vars, body, s)
            == if r.out.Done? then EvalArray(cx, fuel, r.out.value, vars, body[k..], r.s) else r
    decreases k
  {
    if k == 0 {
      assert body[..0] == [] && body[0..] == body;
    } else {
      assert body[..k][0] == body[0] && body[..k][1..] == body[1..][..k - 1] && body[1..][k - 1..] == body[k..];
      var r := EvalObject(cx, fuel, env, vars, body[0], s);
      if r.out.Done? { ArrayPrefix(cx, fuel, r.out.value, vars, body[1..], k - 1, r.s); }
    }
  }

  lemma {:induction false} PrefixReaches(cx: Ctx, calls: Calls, fuel: nat, env: Env, vars: nat, body: seq<Yaml>, k: nat,
                                         s: State)
    requires k <= |body| && EvalArray(cx, fuel, env, vars, body[..k], s).out.Done?
    requires var r := EvalArray(cx, fuel, env, vars, body[..k], s);
             ArrayReaches(cx, calls, fuel, r.out.value, vars, body[k..], r.s)
    ensures ArrayReaches(cx, calls, fuel, env, vars, body, s)
    decreases k
  {
    if k == 0 {
      assert body[..0] == [] && body[0..] == body;
    } else {
      assert body[..k][0] == body[0] && body[..k][1..] == body[1..][..k - 1] && body[1..][k - 1..] == body[k..];
      var r := EvalObject(cx, fuel, env, vars, body[0], s);
      PrefixReaches(cx, calls, fuel, r.out.value, vars, body[1..], k - 1, r.s);
    }
  }

  lemma SingleReaches(cx: Ctx, calls: Calls, fuel: nat, env: Env, vars: nat, name: string, e: Expr, s: State)
    requires name != "" && !IsKeyword(name)
    requires TypeOf(env, e).Some? && ExprReaches(cx, calls, fuel, e, vars, s.(tick := s.tick + 1))
    ensures ObjectReaches(cx, calls, fuel, env, vars, Assign(name, Text(e)), s)
  {
    var f := Field(Name(name), YString(Text(e)));
    assert [f][..0] == [] && CountKeywords([f]) == CountKeywords([]);
    var order := VisitOrder(1, cx.visit(s.tick));
    assert order[0] in order && order == [0] && [f][0] == f;
  }

  lemma CallStart(cx: Ctx, fd: FuncDef, arg: Val, s: State)
    requires Callable(fd) && '.' !in fd.input.value
    requires KindOf(arg).Some? && WellFormed(s.heap) && ValIn(arg, All(), |s.heap|)
    ensures var c := CreateVariable(cx, map[], |s.heap|, fd.input.value, arg, Alloc(s, map[]));
            && c.out.Done? && Ready(cx, c.out.value, |s.heap|, c.s) && fd.input.value in c.out.value
            && fd.input.value in At(c.s.heap, |s.heap|) && At(c.s.heap, |s.heap|)[fd.input.value] == arg
  {
    var f := |s.heap|;
    NewFrameSealed(s.heap, map[]);
    OldValueAvoidsNew(arg, f);
    ValInMono(arg, AllBut(f), f, f + 1);
    SplitPlain(fd.input.value);
    CreateVariableScoped(cx, map[], f, fd.input.value, arg, Alloc(s, map[]));
  }

  /** Statements leave the input in the class. */
  lemma InputKept(cx: Ctx, A: Arguments, fuel: nat, env: Env, f: nat, input: string, body: seq<Yaml>, s: State)
    requires Declarable(cx, A) && Ready(cx, env, f, s) && input in env && InputFrame(A, f, input, s)
    ensures InputFrame(A, f, input, EvalArray(cx, fuel, env, f, body, s).s)
  {
    ArrayScoped(cx, fuel, env, f, body, s);
    ArrayKept(cx, fuel, env, f, body, s, AllBut(f));
  }

  lemma CycleCallReaches(cx: Ctx, A: Arguments, G: set<string>, fuel: nat, fd: FuncDef, k: nat, arg: Val, s: State)
    requires Declarable(cx, A)
    requires CallsAt(cx, A, G, fd, k) && PrefixSucceeds(cx, A, G, fd, k)
    requires A(arg) && WellFormed(s.heap) && ValIn(arg, All(), |s.heap|)
    ensures CallFunction(cx, fuel, fd, arg, s).out == OutOfFuel || CallReaches(cx, CallsOf(A, G), fuel, fd, arg, s)
  {
    var f, body := |s.heap|, fd.body.elems;
    CallStart(cx, fd, arg, s);
    var c := CreateVariable(cx, map[], f, fd.input.value, arg, Alloc(s, map[]));
    var r := EvalArray(cx, fuel, c.out.value, f, body[..k], c.s);
    assert r == Prefix(cx, fuel, fd, k, arg, s);
    ArrayPrefix(cx, fuel, c.out.value, f, body, k, c.s);
    if r.out.Done? {
      var name, e :| name != "" && !IsKeyword(name) && body[k] == Assign(name, Text(e))
                     && MustCall(cx, A, G, fd.input.value, e);
      InputKept(cx, A, fuel, c.out.value, f, fd.input.value, body[..k], c.s);
      MustCallReaches(cx, A, G, fuel, fd.input.value, e, f, r.s.(tick := r.s.tick + 1));
      SingleReaches(cx, CallsOf(A, G), fuel, r.out.value, f, name, e, r.s);
      assert body[k..][0] == body[k];
      PrefixReaches(cx, CallsOf(A, G), fuel, c.out.value, f, body, k, c.s);
    }
  }

  /**
   Functions that call each other, or themselves, without a condition: if each of G has, after
   statements that do not fail, an assignment whose expression must call one of G with an argument of
   the class A when the input is of the class, no call of them with such an argument ends.
   */
  lemma CycleNeverEnds(cx: Ctx, A: Arguments, G: set<string>, at: map<string, nat>, fuel: nat, g: string, arg: Val,
                       s: State)
    requires Declarable(cx, A)
    requires forall x | x in G :: x in cx.functions && x in at && CallsAt(cx, A, G, cx.functions[x], at[x])
    requires forall x | x in G :: PrefixSucceeds(cx, A, G, cx.functions[x], at[x])
    requires g in G && A(arg) && WellFormed(s.heap) && ValIn(arg, All(), |s.heap|)
    ensures CallFunction(cx, fuel, cx.functions[g], arg, s).out == OutOfFuel
  {
    forall x, v, u | CallsOf(A, G)(x, v, u)
      ensures x in cx.functions && ForAnyBound(cx, CallsOf(A, G), cx.functions[x], v, u)
    {
      forall n: nat
        ensures CallFunction(cx, n, cx.functions[x], v, u).out == OutOfFuel
                || CallReaches(cx, CallsOf(A, G), n, cx.functions[x], v, u)
      {
        CycleCallReaches(cx, A, G, n, cx.functions[x], at[x], v, u);
      }
    }
    NeverEnds(cx, CallsOf(A, G), fuel, g, arg, s);
  }

  // ---------------------------------------------------------------- a cycle of two functions

  const CALL_PONG: Expr := Call(Lit(CString("pong")), Path("n", []))
  const CALL_PING: Expr := Call(Lit(CString("ping")), Path("n", []))
  const SEEN: Yaml := Assign("seen", Text(Lit(CBool(true))))
  const PING: FuncDef := FuncDef(Some("n"), Some("r"), YList([Assign("r", Text(CALL_PONG))]))
  const PONG: FuncDef := FuncDef(Some("n"), Some("r"), YList([SEEN, Assign("r", Text(Not(CALL_PING)))]))
  const PLAYERS: set<string> := {"ping", "pong"}

  lemma InputDeclared(cx: Ctx, arg: Val, s: State)
    requires KindOf(arg).Some?
    ensures CreateVariable(cx, map[], |s.heap|, "n", arg, Alloc(s, map[])).out == Done(map["n" := KindOf(arg).value])
  {
    SplitPlain("n");
  }

  lemma SeenStored(cx: Ctx, fuel: nat, ty: Ty, f: nat, s: State)
    ensures SetOneVariable(cx, fuel, map["n" := ty], f, "seen", Text(Lit(CBool(true))), s).out
         == Done(map["n" := ty, "seen" := TBool])
  {
    SplitPlain("seen");
    assert EvalExpr(cx, fuel, Lit(CBool(true)), f, s) == Res(s, Done(BoolV(true)));
    assert TypeOf(map["n" := ty], Lit(CBool(true))) == Some(TBool);
    assert map["n" := ty]["seen" := TBool] == map["n" := ty, "seen" := TBool];
  }

  lemma SeenDeclares(cx: Ctx, fuel: nat, ty: Ty, f: nat, s: State)
    ensures EvalArray(cx, fuel, map["n" := ty], f, [SEEN], s).out == Done(map["n" := ty, "seen" := TBool])
  {
    assert !IsKeyword("seen");
    SingleAssign(cx, fuel, map["n" := ty], f, "seen", Text(Lit(CBool(true))), s);
    SeenStored(cx, fuel, ty, f, s.(tick := s.tick + 1));
    SingletonArray(cx, fuel, map["n" := ty], f, SEEN, s);
  }

  lemma CallsAfter(cx: Ctx, fd: FuncDef, k: nat, e: Expr)
    requires Callable(fd) && fd.input.value == "n" && k < |fd.body.elems| && fd.body.elems[k] == Assign("r", Text(e))
    requires e == CALL_PONG || e == Not(CALL_PING)
    ensures CallsAt(cx, AnyValue(), PLAYERS, fd, k)
  {
    PlainCarries(cx, "n", Path("n", []));
    var name := "r";
    assert name != "" && !IsKeyword(name) && MustCall(cx, AnyValue(), PLAYERS, fd.input.value, e);
    assert fd.body.elems[k] == Assign(name, Text(e));
  }

  lemma PingPrefix(cx: Ctx)
    requires CallsAt(cx, AnyValue(), PLAYERS, PING, 0)
    ensures PrefixSucceeds(cx, AnyValue(), PLAYERS, PING, 0)
  {
    forall fuel: nat, arg: Val, s: State | KindOf(arg).Some?
      ensures var r := Prefix(cx, fuel, PING, 0, arg, s);
              r.out.Done? && TypeOf(r.out.value, CALL_PONG).Some?
    {
      InputDeclared(cx, arg, s);
      assert PING.body.elems[..0] == [];
    }
  }

  lemma PongPrefix(cx: Ctx)
    requires CallsAt(cx, AnyValue(), PLAYERS, PONG, 1)
    ensures PrefixSucceeds(cx, AnyValue(), PLAYERS, PONG, 1)
  {
    forall fuel: nat, arg: Val, s: State | KindOf(arg).Some?
      ensures var r := Prefix(cx, fuel, PONG, 1, arg, s);
              r.out.Done? && TypeOf(r.out.value, Not(CALL_PING)).Some?
    {
      InputDeclared(cx, arg, s);
      var c := CreateVariable(cx, map[], |s.heap|, "n", arg, Alloc(s, map[]));
      SeenDeclares(cx, fuel, KindOf(arg).value, |s.heap|, c.s);
      assert PONG.body.elems[..1] == [SEEN];
      assert TypeOf(map["n" := KindOf(arg).value, "seen" := TBool], CALL_PING) == Some(TAny);
    }
  }

  /** Two functions that call each other, one of them below a `!` and after another statement. */
  lemma PingPongNeverEnds(cx: Ctx, fuel: nat, arg: Val, s: State)
    requires "ping" in cx.functions && cx.functions["ping"] == PING
    requires "pong" in cx.functions && cx.functions["pong"] == PONG
    requires KindOf(arg).Some? && WellFormed(s.heap) && ValIn(arg, All(), |s.heap|)
    ensures CallFunction(cx, fuel, PING, arg, s).out == OutOfFuel
    ensures CallFunction(cx, fuel, PONG, arg, s).out == OutOfFuel
  {
    var A, at := AnyValue(), map["ping" := 0, "pong" := 1];
    PlainCarries(cx, "n", Path("n", []));
    CallsAfter(cx, PING, 0, CALL_PONG);
    CallsAfter(cx, PONG, 1, Not(CALL_PING));
    PingPrefix(cx);
    PongPrefix(cx);
    CycleNeverEnds(cx, A, PLAYERS, at, fuel, "ping", arg, s);
    CycleNeverEnds(cx, A, PLAYERS, at, fuel, "pong", arg, s);
  }
}
