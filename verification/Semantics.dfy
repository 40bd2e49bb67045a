/**
 What each step of the interpreter computes, as functions from a state to a state and an outcome.
 The class `Processor` is proved against these functions, and every property is proved about them.

 `fuel` bounds the nesting of `call` and nothing else: all other recursion follows the syntax.
 A failing step keeps the writes and effects made before it failed.
 */
module Semantics {
  import opened Text
  import opened Values
  import opened Syntax

  // ---------------------------------------------------------------- the CEL library

  function ConstVal(c: Const): Val {
    match c
    case CInt(i) => IntV(i)
    case CBool(b) => BoolV(b)
    case CDouble(r) => DoubleV(r)
    case CString(s) => StrV(s)
    case CNull => NullV
  }

  /** Declares one name. An environment that refuses redeclaration fails on a declared name. */
  function Extend(cx: Ctx, env: Env, name: string, ty: Ty): Option<Env> {
    if name in env && !cx.redeclare then None else Some(env[name := ty])
  }

  function Join(a: Ty, b: Ty): Option<Ty> {
    if a == TAny then Some(b) else if b == TAny || a == b then Some(a) else None
  }

  function BinTy(op: BinOp, a: Ty, b: Ty): Option<Ty> {
    match Join(a, b)
    case None => None
    case Some(t) =>
      match op
      case Add => if t == TBool || t == TMap then None else Some(t)
      case Sub => if t == TInt || t == TDouble || t == TAny then Some(t) else None
      case Leq => if t == TList || t == TMap then None else Some(TBool)
      case Eq => Some(TBool)
  }

  predicate Accepts(t: Option<Ty>, want: Ty) {
    t == Some(want) || t == Some(TAny)
  }

  /** The type check: an undeclared root identifier, or operands that cannot fit, are rejected. */
  function TypeOf(env: Env, e: Expr): Option<Ty>
    decreases e
  {
    match e
    case Lit(c) => if c.CNull? then Some(TAny) else KindOf(ConstVal(c))
    case Path(root, fields) =>
      if root !in env then None
      else if fields == [] then Some(env[root])
      else if env[root] == TMap || env[root] == TAny then Some(TAny)
      else None
    case Not(a) => if Accepts(TypeOf(env, a), TBool) then Some(TBool) else None
    case And(l, r) =>
      if Accepts(TypeOf(env, l), TBool) && Accepts(TypeOf(env, r), TBool) then Some(TBool) else None
    case Bin(op, l, r) =>
      (match (TypeOf(env, l), TypeOf(env, r))
       case (Some(a), Some(b)) => BinTy(op, a, b)
       case _ => None)
    case KabaneroConfig => Some(TMap)
    case Call(f, p) => if Accepts(TypeOf(env, f), TString) && TypeOf(env, p).Some? then Some(TAny) else None
    case Filter(c, _) => if TypeOf(env, c).Some? then Some(TAny) else None
    case SendEvent(d, m, c) =>
      if Accepts(TypeOf(env, d), TString) && TypeOf(env, m).Some? && TypeOf(env, c).Some?
      then Some(TString) else None
    case ApplyResources(d, v) =>
      if Accepts(TypeOf(env, d), TString) && TypeOf(env, v).Some? then Some(TString) else None
  }

  /** Selects `fields` one after the other, starting in value v. */
  function Select(h: Heap, v: Val, fields: seq<string>): Outcome<Val>
    decreases |fields|
  {
    if fields == [] then Done(v)
    else if v.MapV? && fields[0] in At(h, v.ref) then Select(h, At(h, v.ref)[fields[0]], fields[1..])
    else Fail
  }

  function ReadPath(h: Heap, bindings: GoMap, root: string, fields: seq<string>): Outcome<Val> {
    if root in bindings then Select(h, bindings[root], fields) else Fail
  }

  function ApplyBin(op: BinOp, a: Val, b: Val): Outcome<Val> {
    match op
    case Add =>
      (match (a, b)
       case (IntV(x), IntV(y)) => Done(IntV(Wrap64(x + y)))
       case (DoubleV(x), DoubleV(y)) => Done(DoubleV(x + y))
       case (StrV(x), StrV(y)) => Done(StrV(x + y))
       case (ListV(x), ListV(y)) => Done(ListV(x + y))
       case _ => Fail)
    case Sub =>
      (match (a, b)
       case (IntV(x), IntV(y)) => Done(IntV(Wrap64(x - y)))
       case (DoubleV(x), DoubleV(y)) => Done(DoubleV(x - y))
       case _ => Fail)
    case Leq =>
      (match (a, b)
       case (IntV(x), IntV(y)) => Done(BoolV(x <= y))
       case (DoubleV(x), DoubleV(y)) => Done(BoolV(x <= y))
       case (StrV(x), StrV(y)) => Done(BoolV(LexLeq(x, y)))
       case (BoolV(x), BoolV(y)) => Done(BoolV(x ==> y))
       case _ => Fail)
    case Eq =>
      if KindOf(a).Some? && KindOf(a) == KindOf(b) && !a.ListV? && !a.MapV? then Done(BoolV(a == b)) else Fail
  }

  /** The outcome of two operands, both of which are always evaluated. */
  function Both(a: Outcome<Val>, b: Outcome<Val>): Outcome<(Val, Val)> {
    match (a, b)
    case (OutOfFuel, _) => OutOfFuel
    case (_, OutOfFuel) => OutOfFuel
    case (Done(x), Done(y)) => Done((x, y))
    case _ => Fail
  }

  function Negate(a: Outcome<Val>): Outcome<Val> {
    match a
    case Done(BoolV(b)) => Done(BoolV(!b))
    case OutOfFuel => OutOfFuel
    case _ => Fail
  }

  /** The conjunction once the left operand is known not to be false. */
  function Conjoin(a: Outcome<Val>, b: Outcome<Val>): Outcome<Val> {
    if a.OutOfFuel? || b.OutOfFuel? then OutOfFuel
    else if b == Done(BoolV(false)) then Done(BoolV(false))
    else if a == Done(BoolV(true)) && b == Done(BoolV(true)) then Done(BoolV(true))
    else Fail
  }

  /** The outcome of an operator on evaluated operands. */
  function AfterBin(op: BinOp, args: Outcome<(Val, Val)>, s: State): Res<Val> {
    match args
    case Done((a, b)) => Res(s, ApplyBin(op, a, b))
    case Fail => Res(s, Fail)
    case OutOfFuel => Res(s, OutOfFuel)
  }

  /** A condition must be a bool. */
  function BoolOf(x: Res<Val>): Res<bool> {
    match x.out
    case Done(BoolV(b)) => Res(x.s, Done(b))
    case OutOfFuel => Res(x.s, OutOfFuel)
    case _ => Res(x.s, Fail)
  }

  // ---------------------------------------------------------------- effects

  /** A message context is a map from strings to lists of strings. */
  predicate IsHeader(h: Heap, v: Val) {
    v.MapV? && forall k | k in At(h, v.ref) ::
      At(h, v.ref)[k].ListV? && forall i | 0 <= i < |At(h, v.ref)[k].elems| :: At(h, v.ref)[k].elems[i].StrV?
  }

  function Send(cx: Ctx, destination: Val, context: Val, s: State): Res<Val> {
    if !destination.StrV? || !IsHeader(s.heap, context) then Res(s, Fail)
    else if IsDryRun(cx.settings) then Res(s, Done(StrV("")))
    else
      var accepted := cx.choice(s.tick) != 0;
      var s' := s.(trace := s.trace + [Sent(destination.s, accepted)], tick := s.tick + 1);
      Res(s', if accepted then Done(StrV("")) else Fail)
  }

  function Creations(files: seq<string>): (es: seq<Effect>)
    ensures |es| == |files| && forall i | 0 <= i < |files| :: es[i] == Created(files[i])
  {
    seq(|files|, i requires 0 <= i < |files| => Created(files[i]))
  }

  const APPLY_ERROR := "applyResources error"

  /**
   All templates are substituted first; the first choice names the template that fails, if it is
   one of them. Then the resources are created in order; the second choice names the one that
   fails. A failure is reported as a string, never as an evaluation error.
   */
  function Apply(cx: Ctx, dir: Val, s: State): Res<Val> {
    if !dir.StrV? then Res(s, Fail)
    else if dir.s !in cx.dirs then Res(s, Done(StrV(APPLY_ERROR)))
    else
      var files := cx.dirs[dir.s];
      if cx.choice(s.tick) < |files| then Res(s.(tick := s.tick + 1), Done(StrV(APPLY_ERROR)))
      else if IsDryRun(cx.settings) then Res(s.(tick := s.tick + 1), Done(StrV("")))
      else
        var stop := cx.choice(s.tick + 1);
        var made := if stop < |files| then files[..stop] else files;
        Res(s.(trace := s.trace + Creations(made), tick := s.tick + 2),
            Done(StrV(if stop < |files| then APPLY_ERROR else "")))
  }

  /** The outcome of applyResources on evaluated operands. */
  function AfterDir(cx: Ctx, args: Outcome<(Val, Val)>, s: State): Res<Val> {
    match args
    case Done((dir, _)) => Apply(cx, dir, s)
    case Fail => Res(s, Fail)
    case OutOfFuel => Res(s, OutOfFuel)
  }

  // ---------------------------------------------------------------- dotted assignment

  /**
   Walks from map r along all components but the last, creating the maps that are missing, and
   stores v under the last component. None: a component on the way holds something else than a map.
   */
  function AssignAt(h: Heap, r: nat, names: seq<string>, v: Val): (h': Option<Heap>)
    requires |names| >= 1
    decreases |names|
  {
    if |names| == 1 then Some(Put(h, r, names[0], v))
    else if names[0] !in At(h, r) then AssignAt(Put(h, r, names[0], MapV(|h|)) + [map[]], |h|, names[1..], v)
    else if At(h, r)[names[0]].MapV? then AssignAt(h, At(h, r)[names[0]].ref, names[1..], v)
    else None
  }

  /** Declares the root when it is new, and stores the value in frame `vars` or below it. */
  function CreateVariable(cx: Ctx, env: Env, vars: nat, name: string, v: Val, s: State): Res<Env> {
    var names := SplitDots(name);
    if |names| == 1 then
      match KindOf(v)
      case None => Res(s, Fail)
      case Some(ty) =>
        (match Extend(cx, env, names[0], ty)
         case None => Res(s, Fail)
         case Some(env') => Res(s.(heap := Put(s.heap, vars, names[0], v)), Done(env')))
    else
      var extended := if names[0] in At(s.heap, vars) then Some(env) else Extend(cx, env, names[0], TMap);
      match (extended, AssignAt(s.heap, vars, names, v))
      case (Some(env'), Some(h')) => Res(s.(heap := h'), Done(env'))
      case _ => Res(s, Fail)
  }

  /** Stores the value of an evaluated expression. */
  function StoreResult(cx: Ctx, env: Env, vars: nat, name: string, x: Res<Val>): Res<Env> {
    match x.out
    case Done(v) => CreateVariable(cx, env, vars, name, v, x.s)
    case Fail => Res(x.s, Fail)
    case OutOfFuel => Res(x.s, OutOfFuel)
  }

  /** Back to a CEL value: a kind that the declared types do not cover has no conversion. */
  function ConvertToRefVal(v: Val): Option<Val> {
    match v
    case NullV => None
    case OtherV(_) => None
    case _ => Some(v)
  }

  // ---------------------------------------------------------------- expressions

  function EvalExpr(cx: Ctx, fuel: nat, e: Expr, vars: nat, s: State): Res<Val>
    decreases fuel, e, 1
  {
    match e
    case Lit(c) => Res(s, Done(ConstVal(c)))
    case Path(root, fields) => Res(s, ReadPath(s.heap, At(s.heap, vars), root, fields))
    case Not(a) => var x := EvalExpr(cx, fuel, a, vars, s); Res(x.s, Negate(x.out))
    case And(_, _) => EvalAnd(cx, fuel, e, vars, s)
    case Bin(_, _, _) => EvalBin(cx, fuel, e, vars, s)
    case KabaneroConfig => Res(Alloc(s, map["namespace" := StrV(cx.namespace_)]), Done(MapV(|s.heap|)))
    case Call(_, _) => EvalCall(cx, fuel, e, vars, s)
    case Filter(_, _) => EvalFilter(cx, fuel, e, vars, s)
    case SendEvent(_, _, _) => EvalSend(cx, fuel, e, vars, s)
    case ApplyResources(_, _) => EvalApply(cx, fuel, e, vars, s)
  }

  /** A false left operand decides; otherwise a false right operand hides a failure on the left. */
  function EvalAnd(cx: Ctx, fuel: nat, e: Expr, vars: nat, s: State): Res<Val>
    requires e.And?
    decreases fuel, e, 0
  {
    var x := EvalExpr(cx, fuel, e.left, vars, s);
    if x.out == Done(BoolV(false)) then x
    else
      var y := EvalExpr(cx, fuel, e.right, vars, x.s);
      Res(y.s, Conjoin(x.out, y.out))
  }

  function EvalBin(cx: Ctx, fuel: nat, e: Expr, vars: nat, s: State): Res<Val>
    requires e.Bin?
    decreases fuel, e, 0
  {
    var x := EvalExpr(cx, fuel, e.left, vars, s);
    var y := EvalExpr(cx, fuel, e.right, vars, x.s);
    AfterBin(e.op, Both(x.out, y.out), y.s)
  }

  function EvalCall(cx: Ctx, fuel: nat, e: Expr, vars: nat, s: State): Res<Val>
    requires e.Call?
    decreases fuel, e, 0
  {
    var x := EvalExpr(cx, fuel, e.callee, vars, s);
    var y := EvalExpr(cx, fuel, e.param, vars, x.s);
    match Both(x.out, y.out)
    case Done((name, arg)) =>
      if !name.StrV? || name.s !in cx.functions then Res(y.s, Fail)
      else if fuel == 0 then Res(y.s, OutOfFuel)
      else CallFunction(cx, fuel - 1, cx.functions[name.s], arg, y.s)
    case Fail => Res(y.s, Fail)
    case OutOfFuel => Res(y.s, OutOfFuel)
  }

  function EvalFilter(cx: Ctx, fuel: nat, e: Expr, vars: nat, s: State): Res<Val>
    requires e.Filter?
    decreases fuel, e, 0
  {
    var x := EvalExpr(cx, fuel, e.coll, vars, s);
    match x.out
    case Done(ListV(elems)) => FilterList(cx, fuel, e.pred, elems, [], x.s)
    case Done(MapV(ref)) =>
      var keys := Permute(SortedKeys(At(x.s.heap, ref).Keys), cx.visit(x.s.tick));
      FilterMap(cx, fuel, e.pred, ref, keys, map[], x.s.(tick := x.s.tick + 1))
    case OutOfFuel => x
    case _ => Res(x.s, Fail)
  }

  function EvalSend(cx: Ctx, fuel: nat, e: Expr, vars: nat, s: State): Res<Val>
    requires e.SendEvent?
    decreases fuel, e, 0
  {
    var x := EvalExpr(cx, fuel, e.destination, vars, s);
    if !x.out.Done? then x
    else
      var y := EvalExpr(cx, fuel, e.message, vars, x.s);
      if !y.out.Done? then y
      else
        var z := EvalExpr(cx, fuel, e.context, vars, y.s);
        if !z.out.Done? then z else Send(cx, x.out.value, z.out.value, z.s)
  }

  function EvalApply(cx: Ctx, fuel: nat, e: Expr, vars: nat, s: State): Res<Val>
    requires e.ApplyResources?
    decreases fuel, e, 0
  {
    var x := EvalExpr(cx, fuel, e.dir, vars, s);
    var y := EvalExpr(cx, fuel, e.variables, vars, x.s);
    AfterDir(cx, Both(x.out, y.out), y.s)
  }

  const VALUE_ENV: Env := map["value" := TAny]
  const ENTRY_ENV: Env := map["key" := TString, "value" := TAny]

  /** Appends to `kept` the elements on which the predicate holds, each bound in a frame of its own. */
  function FilterList(cx: Ctx, fuel: nat, pred: Source, elems: seq<Val>, kept: seq<Val>, s: State): Res<Val>
    decreases fuel, pred, |elems|
  {
    if elems == [] then Res(s, Done(ListV(kept)))
    else
      var c := EvalCondition(cx, fuel, VALUE_ENV, pred, |s.heap|, Alloc(s, map["value" := elems[0]]));
      match c.out
      case Done(b) => FilterList(cx, fuel, pred, elems[1..], if b then kept + [elems[0]] else kept, c.s)
      case Fail => Res(c.s, Fail)
      case OutOfFuel => Res(c.s, OutOfFuel)
  }

  /** The same for a map: `keys` are still to be visited, and the result becomes a new map. */
  function FilterMap(cx: Ctx, fuel: nat, pred: Source, ref: nat, keys: seq<string>, kept: GoMap, s: State): Res<Val>
    decreases fuel, pred, |keys|
  {
    if keys == [] then Res(Alloc(s, kept), Done(MapV(|s.heap|)))
    else if keys[0] !in At(s.heap, ref) then FilterMap(cx, fuel, pred, ref, keys[1..], kept, s)
    else
      var v := At(s.heap, ref)[keys[0]];
      var c := EvalCondition(cx, fuel, ENTRY_ENV, pred, |s.heap|,
                             Alloc(s, map["key" := StrV(keys[0]), "value" := v]));
      match c.out
      case Done(b) => FilterMap(cx, fuel, pred, ref, keys[1..], if b then kept[keys[0] := v] else kept, c.s)
      case Fail => Res(c.s, Fail)
      case OutOfFuel => Res(c.s, OutOfFuel)
  }

  /** An empty condition holds; any other must parse, check and evaluate to a bool. */
  function EvalCondition(cx: Ctx, fuel: nat, env: Env, when: Source, vars: nat, s: State): Res<bool>
    decreases fuel, when, 0
  {
    match when
    case EmptyText => Res(s, Done(true))
    case Malformed => Res(s, Fail)
    case Text(e) =>
      if TypeOf(env, e).None? then Res(s, Fail) else BoolOf(EvalExpr(cx, fuel, e, vars, s))
  }

  /** Runs a function body in a new frame that holds nothing but the parameter. */
  function CallFunction(cx: Ctx, fuel: nat, fd: FuncDef, arg: Val, s: State): Res<Val>
    decreases fuel
  {
    if !Callable(fd) then Res(s, Fail)
    else
      var frame := |s.heap|;
      var c := CreateVariable(cx, map[], frame, fd.input.value, arg, Alloc(s, map[]));
      if !c.out.Done? then Res(c.s, Fail)
      else
        var r := EvalArray(cx, fuel, c.out.value, frame, fd.body.elems, c.s);
        match r.out
        case Fail => Res(r.s, Fail)
        case OutOfFuel => Res(r.s, OutOfFuel)
        case Done(_) =>
          if fd.output.value !in At(r.s.heap, frame) then Res(r.s, Fail)
          else
            match ConvertToRefVal(At(r.s.heap, frame)[fd.output.value])
            case None => Res(r.s, Fail)
            case Some(v) => Res(r.s, Done(v))
  }

  // ---------------------------------------------------------------- statements

  function SetOneVariable(cx: Ctx, fuel: nat, env: Env, vars: nat, name: string, val: Source, s: State): Res<Env>
    decreases fuel, val, 0
  {
    if name == "" then Res(s, Done(env))
    else if !val.Text? || TypeOf(env, val.e).None? then Res(s, Fail)
    else StoreResult(cx, env, vars, name, EvalExpr(cx, fuel, val.e, vars, s))
  }

  predicate IsText(y: Yaml) {
    y.YString? || y.YPrimitive?
  }

  /** One entry of an object; keywords are skipped. */
  function AssignField(cx: Ctx, fuel: nat, env: Env, vars: nat, f: Field, s: State): Res<Env>
    decreases fuel, f, 1
  {
    if f.key.NonString? then Res(s, Fail)
    else if IsKeyword(f.key.name) then Res(s, Done(env))
    else if !IsText(f.value) then Res(s, Fail)
    else SetOneVariable(cx, fuel, env, vars, f.key.name, f.value.text, s)
  }

  /** The entries still to be visited are `order`. */
  function AssignFields(cx: Ctx, fuel: nat, env: Env, vars: nat, fields: seq<Field>, order: seq<nat>, s: State)
    : Res<Env>
    requires forall i | i in order :: i < |fields|
    decreases fuel, fields, 1, |order|
  {
    if order == [] then Res(s, Done(env))
    else
      assert order[0] in order && forall i | i in order[1..] :: i in order;
      var r := AssignField(cx, fuel, env, vars, fields[order[0]], s);
      if r.out.Done? then AssignFields(cx, fuel, r.out.value, vars, fields, order[1..], r.s) else r
  }

  /** All assignments of an object, in the order in which Go visits its entries. */
  function EvalAssignment(cx: Ctx, fuel: nat, env: Env, vars: nat, fields: seq<Field>, s: State): Res<Env>
    decreases fuel, fields, 2
  {
    AssignFields(cx, fuel, env, vars, fields, VisitOrder(|fields|, cx.visit(s.tick)), s.(tick := s.tick + 1))
  }

  function EvalBody(cx: Ctx, fuel: nat, env: Env, vars: nat, body: Yaml, s: State): Res<Env>
    decreases fuel, body, 1
  {
    if body.YList? then EvalArray(cx, fuel, env, vars, body.elems, s) else Res(s, Fail)
  }

  /** What the syntax check of an if object accepts. */
  predicate IfSyntax(fields: seq<Field>) {
    var k := CountKeywords(fields);
    && k.count <= 2
    && (k.count == 2 ==> (k.hasBody || k.hasSwitch) && |fields| <= 2)
    && Get(fields, IF).Some? && Get(fields, IF).value.YString?
  }

  /** What an if object does once its condition holds. */
  function ThenPart(cx: Ctx, fuel: nat, env: Env, vars: nat, fields: seq<Field>, s: State): Res<Env>
    decreases fuel, fields, 3
  {
    if Get(fields, BODY).Some? then EvalBody(cx, fuel, env, vars, Get(fields, BODY).value, s)
    else if Get(fields, SWITCH).Some? then EvalSwitch(cx, fuel, env, vars, Get(fields, SWITCH).value, s)
    else EvalAssignment(cx, fuel, env, vars, fields, s)
  }

  /** The second component says whether the condition held. */
  function EvalIf(cx: Ctx, fuel: nat, env: Env, vars: nat, fields: seq<Field>, s: State): Res<(Env, bool)>
    decreases fuel, fields, 4
  {
    if !IfSyntax(fields) then Res(s, Fail)
    else
      var c := EvalCondition(cx, fuel, env, Get(fields, IF).value.text, vars, s);
      match c.out
      case Fail => Res(c.s, Fail)
      case OutOfFuel => Res(c.s, OutOfFuel)
      case Done(b) =>
        if !b then Res(c.s, Done((env, false)))
        else
          var r := ThenPart(cx, fuel, env, vars, fields, c.s);
          match r.out
          case Done(env') => Res(r.s, Done((env', true)))
          case Fail => Res(r.s, Fail)
          case OutOfFuel => Res(r.s, OutOfFuel)
  }

  function EvalSwitch(cx: Ctx, fuel: nat, env: Env, vars: nat, cases: Yaml, s: State): Res<Env>
    decreases fuel, cases, 1
  {
    if cases.YList? then SwitchCases(cx, fuel, env, vars, cases.elems, 0, None, s) else Res(s, Fail)
  }

  /** A default element: it stands alone and holds a list. */
  predicate IsDefault(c: Yaml) {
    && c.YObject? && Get(c.fields, IF).None?
    && Get(c.fields, DEFAULT).Some? && |c.fields| <= 1 && Get(c.fields, DEFAULT).value.YList?
  }

  /** The cases from position i on; `dflt` is the position of the default element already passed. */
  function SwitchCases(cx: Ctx, fuel: nat, env: Env, vars: nat, cases: seq<Yaml>, i: nat, dflt: Option<nat>, s: State)
    : Res<Env>
    requires i <= |cases|
    requires dflt.Some? ==> dflt.value < |cases| && IsDefault(cases[dflt.value])
    decreases fuel, cases, |cases| - i
  {
    if i == |cases| then
      if dflt.None? then Res(s, Done(env))
      else EvalArray(cx, fuel, env, vars, Get(cases[dflt.value].fields, DEFAULT).value.elems, s)
    else if !cases[i].YObject? then Res(s, Fail)
    else if Get(cases[i].fields, IF).Some? then
      var r := EvalIf(cx, fuel, env, vars, cases[i].fields, s);
      match r.out
      case Fail => Res(r.s, Fail)
      case OutOfFuel => Res(r.s, OutOfFuel)
      case Done((env', taken)) =>
        if taken then Res(r.s, Done(env')) else SwitchCases(cx, fuel, env, vars, cases, i + 1, dflt, r.s)
    else if IsDefault(cases[i]) && dflt.None? then
      SwitchCases(cx, fuel, env, vars, cases, i + 1, Some(i), s)
    else Res(s, Fail)
  }

  /** One object of a body. What an if, switch or body block declares is forgotten after it. */
  function EvalObject(cx: Ctx, fuel: nat, env: Env, vars: nat, item: Yaml, s: State): Res<Env>
    decreases fuel, item, 0
  {
    if !item.YObject? then Res(s, Fail)
    else
      var fields := item.fields;
      var k := CountKeywords(fields);
      if k.hasIf then
        var r := EvalIf(cx, fuel, env, vars, fields, s);
        match r.out
        case Done(_) => Res(r.s, Done(env))
        case Fail => Res(r.s, Fail)
        case OutOfFuel => Res(r.s, OutOfFuel)
      else if k.hasSwitch || k.hasBody then
        if k.count > 1 || |fields| > 1 then Res(s, Fail)
        else
          var r := if k.hasSwitch then
                     (if Get(fields, SWITCH).None? then Res(s, Fail)
                      else EvalSwitch(cx, fuel, env, vars, Get(fields, SWITCH).value, s))
                   else
                     (if Get(fields, BODY).None? then Res(s, Fail)
                      else EvalBody(cx, fuel, env, vars, Get(fields, BODY).value, s));
          if r.out.Done? then Res(r.s, Done(env)) else r
      else if k.hasDefault || |fields| > 1 then Res(s, Fail)
      else EvalAssignment(cx, fuel, env, vars, fields, s)
  }

  function EvalArray(cx: Ctx, fuel: nat, env: Env, vars: nat, body: seq<Yaml>, s: State): Res<Env>
    decreases fuel, body, 0
  {
    if body == [] then Res(s, Done(env))
    else
      var r := EvalObject(cx, fuel, env, vars, body[0], s);
      if r.out.Done? then EvalArray(cx, fuel, r.out.value, vars, body[1..], r.s) else r
  }

  // ---------------------------------------------------------------- messages

  /** One trigger on the message; the result is the frame of its variables. */
  function RunTrigger(cx: Ctx, fuel: nat, t: Trigger, message: nat, s: State): Res<nat> {
    if t.input.None? || t.body.None? then Res(s, Fail)
    else
      var frame := |s.heap|;
      var r := EvalArray(cx, fuel, map[t.input.value := TMap], frame, t.body.value,
                         Alloc(s, map[t.input.value := MapV(message)]));
      match r.out
      case Done(_) => Res(r.s, Done(frame))
      case Fail => Res(r.s, Fail)
      case OutOfFuel => Res(r.s, OutOfFuel)
  }

  function RunTriggers(cx: Ctx, fuel: nat, ts: seq<Trigger>, message: nat, saved: seq<nat>, s: State): Res<seq<nat>>
    decreases |ts|
  {
    if ts == [] then Res(s, Done(saved))
    else
      var r := RunTrigger(cx, fuel, ts[0], message, s);
      match r.out
      case Done(frame) => RunTriggers(cx, fuel, ts[1..], message, saved + [frame], r.s)
      case Fail => Res(r.s, Fail)
      case OutOfFuel => Res(r.s, OutOfFuel)
  }

  function ProcessMessage(cx: Ctx, fuel: nat, eventSource: string, message: nat, s: State): Res<seq<nat>> {
    if eventSource !in cx.triggers then Res(s, Fail)
    else RunTriggers(cx, fuel, cx.triggers[eventSource], message, [], s)
  }
}
