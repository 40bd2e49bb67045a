/**
 The interpreter as it runs: an object whose heap of maps, effect trace and choice counter change in
 place. Each method is proved to do what the function of the same step says.
 */
module Interpreter {
  import opened Text
  import opened Values
  import opened Syntax
  import S = Semantics

  /** The declarations after a dotted assignment to a root. */
  ghost function Declared(cx: Ctx, env: Env, frame: GoMap, root: string): Option<Env> {
    if root in frame then Some(env) else S.Extend(cx, env, root, TMap)
  }

  lemma Goal(cx: Ctx, env: Env, name: string, v: Val, f: nat, s: State)
    ensures var names := SplitDots(name);
            var goal, declared := S.AssignAt(s.heap, f, names, v), Declared(cx, env, At(s.heap, f), names[0]);
            |names| > 1 ==>
              S.CreateVariable(cx, env, f, name, v, s)
              == if declared.Some? && goal.Some? then Res(s.(heap := goal.value), Done(declared.value))
                 else Res(s, Fail)
  {
  }

  /** One component of the walk of a dotted assignment. */
  lemma Component(h: Heap, r: nat, names: seq<string>, i: nat, v: Val)
    requires i + 1 < |names|
    ensures names[i] !in At(h, r) ==>
              S.AssignAt(h, r, names[i..], v)
              == S.AssignAt(Put(h, r, names[i], MapV(|h|)) + [map[]], |h|, names[i + 1..], v)
    ensures names[i] in At(h, r) && At(h, r)[names[i]].MapV? ==>
              S.AssignAt(h, r, names[i..], v) == S.AssignAt(h, At(h, r)[names[i]].ref, names[i + 1..], v)
    ensures names[i] in At(h, r) && !At(h, r)[names[i]].MapV? ==> S.AssignAt(h, r, names[i..], v).None?
  {
    assert names[i..][0] == names[i] && names[i..][1..] == names[i + 1..];
  }

  lemma LastComponent(h: Heap, r: nat, names: seq<string>, v: Val)
    requires names != []
    ensures S.AssignAt(h, r, names[|names| - 1..], v) == Some(Put(h, r, names[|names| - 1], v))
  {
    assert names[|names| - 1..] == [names[|names| - 1]];
  }

  /** One entry of the loop over a map. */
  lemma EntryVisited(cx: Ctx, fuel: nat, pred: Source, ref: nat, keys: seq<string>, kept: GoMap, s: State)
    requires keys != []
    ensures keys[0] !in At(s.heap, ref) ==>
              S.FilterMap(cx, fuel, pred, ref, keys, kept, s) == S.FilterMap(cx, fuel, pred, ref, keys[1..], kept, s)
    ensures keys[0] in At(s.heap, ref) ==>
              var v := At(s.heap, ref)[keys[0]];
              var c := S.EvalCondition(cx, fuel, S.ENTRY_ENV, pred, |s.heap|,
                                       Alloc(s, map["key" := StrV(keys[0]), "value" := v]));
              S.FilterMap(cx, fuel, pred, ref, keys, kept, s)
              == match c.out
                 case Done(b) =>
                   S.FilterMap(cx, fuel, pred, ref, keys[1..], if b then kept[keys[0] := v] else kept, c.s)
                 case Fail => Res(c.s, Fail)
                 case OutOfFuel => Res(c.s, OutOfFuel)
  {
  }

  class Processor {
    const cx: Ctx
    var heap: Heap
    var trace: seq<Effect>
    var tick: nat

    /** The state as a value. */
    ghost function St(): State
      reads this
    {
      State(heap, trace, tick)
    }

    constructor (cx: Ctx, heap: Heap)
      ensures this.cx == cx && St() == State(heap, [], 0)
    {
      this.cx := cx;
      this.heap, this.trace, this.tick := heap, [], 0;
    }

    // -------------------------------------------------------------- helpers

    static method CountKeywords(item: seq<Field>) returns (k: Keywords)
      ensures k == Syntax.CountKeywords(item)
    {
      k := Keywords(0, false, false, false, false);
      for i := 0 to |item|
        invariant k == Syntax.CountKeywords(item[..i])
      {
        assert item[..i + 1][..i] == item[..i];
        k := AddKey(k, item[i].key);
      }
      assert item[..|item|] == item;
    }

    static method DryRun(settings: seq<DryRunSetting>) returns (b: bool)
      ensures b == IsDryRun(settings) == DryRunSet(settings)
    {
      DryRunExactly(settings);
      for i := 0 to |settings|
        invariant IsDryRun(settings) == IsDryRun(settings[i..])
      {
        if settings[i].Flag? {
          return settings[i].b;
        }
      }
      return false;
    }

    /** A new map, and its reference. */
    method NewMap(m: GoMap) returns (ref: nat)
      modifies this
      ensures ref == |old(heap)| && St() == Alloc(old(St()), m)
    {
      ref := |heap|;
      heap := heap + [m];
    }

    // -------------------------------------------------------------- variables

    method CreateOneVariable(env: Env, entireName: string, out: Val, variables: nat) returns (r: Outcome<Env>)
      modifies this
      ensures Res(St(), r) == S.CreateVariable(cx, env, variables, entireName, out, old(St()))
    {
      var nameArray := SplitDots(entireName);
      Goal(cx, env, entireName, out, variables, St());
      var walked := WalkComponents(env, nameArray, out, variables);
      if !walked.Done? {
        return Fail;
      }
      var (env', tempMap) := walked.value;
      r := CreateOneVariableHelper(env', nameArray[|nameArray| - 1], out, tempMap, |nameArray| == 1);
    }

    /**
     The loop over the components before the last: missing maps are created, and the root is declared
     when it is missing. On failure nothing has been created.
     */
    method WalkComponents(env: Env, nameArray: seq<string>, out: Val, variables: nat) returns (r: Outcome<(Env, nat)>)
      requires nameArray != []
      modifies this
      ensures trace == old(trace) && tick == old(tick)
      ensures |nameArray| == 1 ==> r == Done((env, variables)) && heap == old(heap)
      ensures r.Done? ==>
                && S.AssignAt(old(heap), variables, nameArray, out)
                   == Some(Put(heap, r.value.1, nameArray[|nameArray| - 1], out))
                && (|nameArray| > 1 ==> Some(r.value.0) == Declared(cx, env, At(old(heap), variables), nameArray[0]))
      ensures !r.Done? ==>
                && r == Fail && heap == old(heap)
                && (|| Declared(cx, env, At(heap, variables), nameArray[0]).None?
                    || S.AssignAt(heap, variables, nameArray, out).None?)
    {
      var arrayLen := |nameArray|;
      var tempMap: nat := variables;
      var env' := env;
      var index := 0;
      while index < arrayLen - 1
        invariant 0 <= index < arrayLen
        invariant trace == old(trace) && tick == old(tick)
        invariant S.AssignAt(old(heap), variables, nameArray, out) == S.AssignAt(heap, tempMap, nameArray[index..], out)
        invariant heap == old(heap) || At(heap, tempMap) == map[]
        invariant index == 0 ==> tempMap == variables && heap == old(heap) && env' == env
        invariant index > 0 ==> Some(env') == Declared(cx, env, At(old(heap), variables), nameArray[0])
      {
        var componentName := nameArray[index];
        Component(heap, tempMap, nameArray, index, out);
        if componentName !in At(heap, tempMap) {
          if index == 0 && arrayLen > 1 {
            var extended := S.Extend(cx, env', componentName, TMap);
            if extended.None? {
              return Fail;
            }
            env' := extended.value;
          }
          var newMap := |heap|;
          heap := Put(heap, tempMap, componentName, MapV(newMap)) + [map[]];
          tempMap := newMap;
        } else {
          var entry := At(heap, tempMap)[componentName];
          if !entry.MapV? {
            return Fail;
          }
          tempMap := entry.ref;
        }
        index := index + 1;
      }
      LastComponent(heap, tempMap, nameArray, out);
      r := Done((env', tempMap));
    }

    method CreateOneVariableHelper(env: Env, name: string, out: Val, target: nat, createNewIdent: bool)
      returns (r: Outcome<Env>)
      modifies this
      ensures trace == old(trace) && tick == old(tick)
      ensures r.Done? ==> heap == Put(old(heap), target, name, out)
      ensures !r.Done? ==> r == Fail && heap == old(heap)
      ensures !createNewIdent ==> r == Done(env)
      ensures createNewIdent ==>
                r == if KindOf(out).Some? && S.Extend(cx, env, name, KindOf(out).value).Some?
                     then Done(S.Extend(cx, env, name, KindOf(out).value).value) else Fail
    {
      var env' := env;
      if createNewIdent {
        var ty := KindOf(out);
        if ty.None? {
          return Fail;
        }
        var extended := S.Extend(cx, env, name, ty.value);
        if extended.None? {
          return Fail;
        }
        env' := extended.value;
      }
      heap := Put(heap, target, name, out);
      r := Done(env');
    }

    method SetOneVariable(fuel: nat, env: Env, variables: nat, name: string, val: Source) returns (r: Outcome<Env>)
      modifies this
      ensures Res(St(), r) == S.SetOneVariable(cx, fuel, env, variables, name, val, old(St()))
      decreases fuel, val, 0
    {
      if name == "" {
        return Done(env);
      }
      if !val.Text? {
        return Fail;
      }
      if S.TypeOf(env, val.e).None? {
        return Fail;
      }
      var out := EvalExpr(fuel, val.e, variables);
      match out
      case Done(v) => r := CreateOneVariable(env, name, v, variables);
      case Fail => r := Fail;
      case OutOfFuel => r := OutOfFuel;
    }

    // -------------------------------------------------------------- expressions

    method EvalExpr(fuel: nat, e: Expr, variables: nat) returns (out: Outcome<Val>)
      modifies this
      ensures Res(St(), out) == S.EvalExpr(cx, fuel, e, variables, old(St()))
      decreases fuel, e, 1
    {
      match e
      case Lit(c) => out := Done(S.ConstVal(c));
      case Path(root, fields) => out := S.ReadPath(heap, At(heap, variables), root, fields);
      case Not(a) =>
        var x := EvalExpr(fuel, a, variables);
        out := S.Negate(x);
      case And(_, _) => out := EvalAnd(fuel, e, variables);
      case Bin(_, _, _) => out := EvalBin(fuel, e, variables);
      case KabaneroConfig =>
        var ref := NewMap(map["namespace" := StrV(cx.namespace_)]);
        out := Done(MapV(ref));
      case Call(_, _) => out := EvalCall(fuel, e, variables);
      case Filter(_, _) => out := EvalFilter(fuel, e, variables);
      case SendEvent(_, _, _) => out := EvalSend(fuel, e, variables);
      case ApplyResources(_, _) => out := EvalApply(fuel, e, variables);
    }

    method EvalAnd(fuel: nat, e: Expr, variables: nat) returns (out: Outcome<Val>)
      requires e.And?
      modifies this
      ensures Res(St(), out) == S.EvalAnd(cx, fuel, e, variables, old(St()))
      decreases fuel, e, 0
    {
      var x := EvalExpr(fuel, e.left, variables);
      if x == Done(BoolV(false)) {
        return x;
      }
      var y := EvalExpr(fuel, e.right, variables);
      out := S.Conjoin(x, y);
    }

    method EvalBin(fuel: nat, e: Expr, variables: nat) returns (out: Outcome<Val>)
      requires e.Bin?
      modifies this
      ensures Res(St(), out) == S.EvalBin(cx, fuel, e, variables, old(St()))
      decreases fuel, e, 0
    {
      var x := EvalExpr(fuel, e.left, variables);
      var y := EvalExpr(fuel, e.right, variables);
      match S.Both(x, y)
      case Done((a, b)) => out := S.ApplyBin(e.op, a, b);
      case Fail => out := Fail;
      case OutOfFuel => out := OutOfFuel;
    }

    method EvalCall(fuel: nat, e: Expr, variables: nat) returns (out: Outcome<Val>)
      requires e.Call?
      modifies this
      ensures Res(St(), out) == S.EvalCall(cx, fuel, e, variables, old(St()))
      decreases fuel, e, 0
    {
      var x := EvalExpr(fuel, e.callee, variables);
      var y := EvalExpr(fuel, e.param, variables);
      match S.Both(x, y)
      case Done((name, arg)) =>
        if !name.StrV? || name.s !in cx.functions {
          out := Fail;
        } else if fuel == 0 {
          out := OutOfFuel;
        } else {
          out := CallCEL(fuel - 1, cx.functions[name.s], arg);
        }
      case Fail => out := Fail;
      case OutOfFuel => out := OutOfFuel;
    }

    method CallCEL(fuel: nat, functionDecl: FuncDef, param: Val) returns (out: Outcome<Val>)
      modifies this
      ensures Res(St(), out) == S.CallFunction(cx, fuel, functionDecl, param, old(St()))
      decreases fuel
    {
      if functionDecl.input.None? {
        return Fail;
      }
      if functionDecl.output.None? {
        return Fail;
      }
      if !functionDecl.body.YList? {
        return Fail;
      }
      var variables := NewMap(map[]);
      var env := CreateOneVariable(map[], functionDecl.input.value, param, variables);
      if !env.Done? {
        return Fail;
      }
      var done := EvalArrayObject(fuel, env.value, variables, functionDecl.body.elems);
      match done
      case Fail => out := Fail;
      case OutOfFuel => out := OutOfFuel;
      case Done(_) =>
        if functionDecl.output.value !in At(heap, variables) {
          return Fail;
        }
        var ret := S.ConvertToRefVal(At(heap, variables)[functionDecl.output.value]);
        out := if ret.Some? then Done(ret.value) else Fail;
    }

    method EvalFilter(fuel: nat, e: Expr, variables: nat) returns (out: Outcome<Val>)
      requires e.Filter?
      modifies this
      ensures Res(St(), out) == S.EvalFilter(cx, fuel, e, variables, old(St()))
      decreases fuel, e, 0
    {
      var x := EvalExpr(fuel, e.coll, variables);
      match x
      case Done(ListV(elems)) => out := FilterArray(fuel, e.pred, elems);
      case Done(MapV(ref)) => out := FilterMapEntries(fuel, e.pred, ref);
      case OutOfFuel => out := OutOfFuel;
      case _ => out := Fail;
    }

    method FilterArray(fuel: nat, pred: Source, elems: seq<Val>) returns (out: Outcome<Val>)
      modifies this
      ensures Res(St(), out) == S.FilterList(cx, fuel, pred, elems, [], old(St()))
      decreases fuel, pred, 2
    {
      var retArray: seq<Val> := [];
      var i := 0;
      while i < |elems|
        invariant 0 <= i <= |elems|
        invariant S.FilterList(cx, fuel, pred, elems, [], old(St()))
               == S.FilterList(cx, fuel, pred, elems[i..], retArray, St())
      {
        var frame := NewMap(map["value" := elems[i]]);
        var condition := EvalCondition(fuel, S.VALUE_ENV, pred, frame);
        assert elems[i..][1..] == elems[i + 1..];
        match condition {
          case Done(b) => if b { retArray := retArray + [elems[i]]; }
          case Fail => return Fail;
          case OutOfFuel => return OutOfFuel;
        }
        i := i + 1;
      }
      out := Done(ListV(retArray));
    }

    method FilterMapEntries(fuel: nat, pred: Source, ref: nat) returns (out: Outcome<Val>)
      modifies this
      ensures var keys := Permute(SortedKeys(At(old(heap), ref).Keys), cx.visit(old(tick)));
              Res(St(), out)
              == S.FilterMap(cx, fuel, pred, ref, keys, map[], old(St()).(tick := old(tick) + 1))
      decreases fuel, pred, 2
    {
      var keys := Permute(SortedKeys(At(heap, ref).Keys), cx.visit(tick));
      tick := tick + 1;
      ghost var start := St();
      var retMap: GoMap := map[];
      var i := 0;
      while i < |keys|
        invariant 0 <= i <= |keys|
        invariant S.FilterMap(cx, fuel, pred, ref, keys, map[], start)
               == S.FilterMap(cx, fuel, pred, ref, keys[i..], retMap, St())
      {
        assert keys[i..][1..] == keys[i + 1..];
        EntryVisited(cx, fuel, pred, ref, keys[i..], retMap, St());
        if keys[i] in At(heap, ref) {
          var value := At(heap, ref)[keys[i]];
          var frame := NewMap(map["key" := StrV(keys[i]), "value" := value]);
          var condition := EvalCondition(fuel, S.ENTRY_ENV, pred, frame);
          match condition {
            case Done(b) => if b { retMap := retMap[keys[i] := value]; }
            case Fail => return Fail;
            case OutOfFuel => return OutOfFuel;
          }
        }
        i := i + 1;
      }
      var ret := NewMap(retMap);
      out := Done(MapV(ret));
    }

    method EvalSend(fuel: nat, e: Expr, variables: nat) returns (out: Outcome<Val>)
      requires e.SendEvent?
      modifies this
      ensures Res(St(), out) == S.EvalSend(cx, fuel, e, variables, old(St()))
      decreases fuel, e, 0
    {
      var x := EvalExpr(fuel, e.destination, variables);
      if !x.Done? {
        return x;
      }
      var y := EvalExpr(fuel, e.message, variables);
      if !y.Done? {
        return y;
      }
      var z := EvalExpr(fuel, e.context, variables);
      if !z.Done? {
        return z;
      }
      out := SendEventCEL(x.value, z.value);
    }

    method SendEventCEL(destination: Val, context: Val) returns (out: Outcome<Val>)
      modifies this
      ensures Res(St(), out) == S.Send(cx, destination, context, old(St()))
    {
      if !destination.StrV? || !S.IsHeader(heap, context) {
        return Fail;
      }
      var dry := DryRun(cx.settings);
      if dry {
        return Done(StrV(""));
      }
      var accepted := cx.choice(tick) != 0;
      trace, tick := trace + [Sent(destination.s, accepted)], tick + 1;
      out := if accepted then Done(StrV("")) else Fail;
    }

    method EvalApply(fuel: nat, e: Expr, variables: nat) returns (out: Outcome<Val>)
      requires e.ApplyResources?
      modifies this
      ensures Res(St(), out) == S.EvalApply(cx, fuel, e, variables, old(St()))
      decreases fuel, e, 0
    {
      var x := EvalExpr(fuel, e.dir, variables);
      var y := EvalExpr(fuel, e.variables, variables);
      match S.Both(x, y)
      case Done((dir, _)) => out := ApplyResourcesCEL(dir);
      case Fail => out := Fail;
      case OutOfFuel => out := OutOfFuel;
    }

    /** Substitutes every template first, then creates the resources one by one. */
    method ApplyResourcesCEL(dir: Val) returns (out: Outcome<Val>)
      modifies this
      ensures Res(St(), out) == S.Apply(cx, dir, old(St()))
    {
      if !dir.StrV? {
        return Fail;
      }
      if dir.s !in cx.dirs {
        return Done(StrV(S.APPLY_ERROR));
      }
      var files := cx.dirs[dir.s];
      var substituted: seq<string> := [];
      for i := 0 to |files|
        invariant St() == old(St()) && substituted == files[..i] && i <= cx.choice(tick)
      {
        if cx.choice(tick) == i {
          tick := tick + 1;
          return Done(StrV(S.APPLY_ERROR));
        }
        substituted := substituted + [files[i]];
      }
      assert substituted == files;
      var dry := DryRun(cx.settings);
      tick := tick + 1;
      if dry {
        return Done(StrV(""));
      }
      for i := 0 to |substituted|
        invariant heap == old(heap) && tick == old(tick) + 1 && i <= cx.choice(tick)
        invariant trace == old(trace) + S.Creations(files[..i])
      {
        if cx.choice(tick) == i {
          tick := tick + 1;
          return Done(StrV(S.APPLY_ERROR));
        }
        trace := trace + [Created(substituted[i])];
        assert S.Creations(files[..i + 1]) == S.Creations(files[..i]) + [Created(files[i])];
      }
      assert files[..|files|] == files;
      tick := tick + 1;
      out := Done(StrV(""));
    }

    method EvalCondition(fuel: nat, env: Env, when: Source, variables: nat) returns (out: Outcome<bool>)
      modifies this
      ensures Res(St(), out) == S.EvalCondition(cx, fuel, env, when, variables, old(St()))
      decreases fuel, when, 0
    {
      match when
      case EmptyText => out := Done(true);
      case Malformed => out := Fail;
      case Text(e) =>
        if S.TypeOf(env, e).None? {
          return Fail;
        }
        var x := EvalExpr(fuel, e, variables);
        match x
        case Done(BoolV(b)) => out := Done(b);
        case OutOfFuel => out := OutOfFuel;
        case _ => out := Fail;
    }

    // -------------------------------------------------------------- statements

    method AssignEntry(fuel: nat, env: Env, variables: nat, f: Field) returns (r: Outcome<Env>)
      modifies this
      ensures Res(St(), r) == S.AssignField(cx, fuel, env, variables, f, old(St()))
      decreases fuel, f, 1
    {
      if f.key.NonString? {
        return Fail;
      }
      if IsKeyword(f.key.name) {
        return Done(env);
      }
      if !S.IsText(f.value) {
        return Fail;
      }
      r := SetOneVariable(fuel, env, variables, f.key.name, f.value.text);
    }

    method EvalAssignment(fuel: nat, env: Env, variables: nat, item: seq<Field>) returns (r: Outcome<Env>)
      modifies this
      ensures Res(St(), r) == S.EvalAssignment(cx, fuel, env, variables, item, old(St()))
      decreases fuel, item, 2
    {
      var order := VisitOrder(|item|, cx.visit(tick));
      tick := tick + 1;
      ghost var start := St();
      var env' := env;
      var i := 0;
      while i < |order|
        invariant 0 <= i <= |order|
        invariant forall k | k in order[i..] :: k in order
        invariant S.AssignFields(cx, fuel, env, variables, item, order, start)
               == S.AssignFields(cx, fuel, env', variables, item, order[i..], St())
      {
        assert order[i] in order && order[i..][1..] == order[i + 1..];
        assert item decreases to item[order[i]];
        var s := AssignEntry(fuel, env', variables, item[order[i]]);
        if !s.Done? {
          return s;
        }
        env' := s.value;
        i := i + 1;
      }
      r := Done(env');
    }

    method EvalBody(fuel: nat, env: Env, variables: nat, nestedBody: Yaml) returns (r: Outcome<Env>)
      modifies this
      ensures Res(St(), r) == S.EvalBody(cx, fuel, env, variables, nestedBody, old(St()))
      decreases fuel, nestedBody, 1
    {
      if !nestedBody.YList? {
        return Fail;
      }
      r := EvalArrayObject(fuel, env, variables, nestedBody.elems);
    }

    method EvalIfWithSyntaxCheck(fuel: nat, env: Env, variables: nat, item: seq<Field>)
      returns (r: Outcome<(Env, bool)>)
      modifies this
      ensures Res(St(), r) == S.EvalIf(cx, fuel, env, variables, item, old(St()))
      decreases fuel, item, 4
    {
      var k := CountKeywords(item);
      if k.count > 2 {
        return Fail;
      }
      if k.count == 2 && !k.hasBody && !k.hasSwitch {
        return Fail;
      }
      if k.count == 2 && |item| > 2 {
        return Fail;
      }
      var conditionObj := Get(item, IF);
      if conditionObj.None? || !conditionObj.value.YString? {
        return Fail;
      }
      var condition := EvalCondition(fuel, env, conditionObj.value.text, variables);
      match condition
      case Fail => r := Fail;
      case OutOfFuel => r := OutOfFuel;
      case Done(b) =>
        if !b {
          return Done((env, false));
        }
        var s: Outcome<Env>;
        var bodyObj, switchObj := Get(item, BODY), Get(item, SWITCH);
        if bodyObj.Some? {
          s := EvalBody(fuel, env, variables, bodyObj.value);
        } else if switchObj.Some? {
          s := EvalSwitch(fuel, env, variables, switchObj.value);
        } else {
          s := EvalAssignment(fuel, env, variables, item);
        }
        match s
        case Done(env') => r := Done((env', true));
        case Fail => r := Fail;
        case OutOfFuel => r := OutOfFuel;
    }

    method EvalSwitch(fuel: nat, env: Env, variables: nat, switchObj: Yaml) returns (r: Outcome<Env>)
      modifies this
      ensures Res(St(), r) == S.EvalSwitch(cx, fuel, env, variables, switchObj, old(St()))
      decreases fuel, switchObj, 1
    {
      if !switchObj.YList? {
        return Fail;
      }
      var switchArray := switchObj.elems;
      var defaultArray: Option<nat> := None;
      var i := 0;
      while i < |switchArray|
        invariant 0 <= i <= |switchArray|
        invariant defaultArray.Some? ==>
                    defaultArray.value < |switchArray| && S.IsDefault(switchArray[defaultArray.value])
        invariant S.SwitchCases(cx, fuel, env, variables, switchArray, 0, None, old(St()))
               == S.SwitchCases(cx, fuel, env, variables, switchArray, i, defaultArray, St())
      {
        var arrayElement := switchArray[i];
        if !arrayElement.YObject? {
          return Fail;
        }
        var ifObj := Get(arrayElement.fields, IF);
        if ifObj.Some? {
          var s := EvalIfWithSyntaxCheck(fuel, env, variables, arrayElement.fields);
          match s {
            case Fail => return Fail;
            case OutOfFuel => return OutOfFuel;
            case Done((env', conditionTrue)) =>
              if conditionTrue {
                return Done(env');
              }
          }
        } else {
          var defaultObj := Get(arrayElement.fields, DEFAULT);
          if defaultObj.None? || |arrayElement.fields| > 1 || defaultArray.Some? || !defaultObj.value.YList? {
            return Fail;
          }
          defaultArray := Some(i);
        }
        i := i + 1;
      }
      if defaultArray.None? {
        return Done(env);
      }
      r := EvalArrayObject(fuel, env, variables, Get(switchArray[defaultArray.value].fields, DEFAULT).value.elems);
    }

    /** One object of a body; what a block declares is dropped by returning `env` itself. */
    method EvalOneObject(fuel: nat, env: Env, variables: nat, objectObj: Yaml) returns (r: Outcome<Env>)
      modifies this
      ensures Res(St(), r) == S.EvalObject(cx, fuel, env, variables, objectObj, old(St()))
      decreases fuel, objectObj, 0
    {
      if !objectObj.YObject? {
        return Fail;
      }
      var item := objectObj.fields;
      var k := CountKeywords(item);
      if k.hasIf {
        var s := EvalIfWithSyntaxCheck(fuel, env, variables, item);
        match s
        case Done(_) => r := Done(env);
        case Fail => r := Fail;
        case OutOfFuel => r := OutOfFuel;
      } else if k.hasSwitch || k.hasBody {
        if k.count > 1 || |item| > 1 {
          return Fail;
        }
        var nested := Get(item, if k.hasSwitch then SWITCH else BODY);
        if nested.None? {
          return Fail;
        }
        var s: Outcome<Env>;
        if k.hasSwitch {
          s := EvalSwitch(fuel, env, variables, nested.value);
        } else {
          s := EvalBody(fuel, env, variables, nested.value);
        }
        r := if s.Done? then Done(env) else s;
      } else if k.hasDefault || |item| > 1 {
        r := Fail;
      } else {
        r := EvalAssignment(fuel, env, variables, item);
      }
    }

    method EvalArrayObject(fuel: nat, env: Env, variables: nat, bodyArray: seq<Yaml>) returns (r: Outcome<Env>)
      modifies this
      ensures Res(St(), r) == S.EvalArray(cx, fuel, env, variables, bodyArray, old(St()))
      decreases fuel, bodyArray, 0
    {
      var env' := env;
      var i := 0;
      while i < |bodyArray|
        invariant 0 <= i <= |bodyArray|
        invariant S.EvalArray(cx, fuel, env, variables, bodyArray, old(St()))
               == S.EvalArray(cx, fuel, env', variables, bodyArray[i..], St())
      {
        assert bodyArray[i..][1..] == bodyArray[i + 1..];
        var s := EvalOneObject(fuel, env', variables, bodyArray[i]);
        if !s.Done? {
          return s;
        }
        env' := s.value;
        i := i + 1;
      }
      r := Done(env');
    }

    // -------------------------------------------------------------- messages

    method ProcessMessage(fuel: nat, eventSource: string, message: nat) returns (r: Outcome<seq<nat>>)
      modifies this
      ensures Res(St(), r) == S.ProcessMessage(cx, fuel, eventSource, message, old(St()))
    {
      if eventSource !in cx.triggers {
        return Fail;
      }
      var triggerArray := cx.triggers[eventSource];
      var savedVariables: seq<nat> := [];
      var i := 0;
      while i < |triggerArray|
        invariant 0 <= i <= |triggerArray|
        invariant S.RunTriggers(cx, fuel, triggerArray, message, [], old(St()))
               == S.RunTriggers(cx, fuel, triggerArray[i..], message, savedVariables, St())
      {
        var trigger := triggerArray[i];
        assert triggerArray[i..][1..] == triggerArray[i + 1..];
        if trigger.input.None? || trigger.body.None? {
          return Fail;
        }
        var variables := NewMap(map[trigger.input.value := MapV(message)]);
        var s := EvalArrayObject(fuel, map[trigger.input.value := TMap], variables, trigger.body.value);
        match s {
          case Done(_) =>
          case Fail => return Fail;
          case OutOfFuel => return OutOfFuel;
        }
        savedVariables := savedVariables + [variables];
        i := i + 1;
      }
      r := Done(savedVariables);
    }
  }
}
