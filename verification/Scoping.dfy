/** Declarations against values. */
module Scoping {
  import opened Text
  import opened Values
  import opened Syntax
  import opened Semantics
  import opened Ownership
  import opened Termination

  // Values live as long as the frame; declarations end with the block they are made in. In every state
  // of a run, also after a failure or when it is cut off, each name that is declared in a block still
  // open is bound in the frame to a value of the declared type. The condition is that the environment
  // refuses to declare a name twice; `RedeclarationBreaksTypes` shows a run without it.

  predicate Other(r: nat, f: nat) {
    r != f
  }

  /** The region of all references but one. */
  ghost function AllBut(f: nat): iset<nat> {
    iset r: nat | Other(r, f)
  }

  predicate IsRef(r: nat) {
    r >= 0
  }

  /** The region of all references. */
  ghost function All(): iset<nat> {
    iset r: nat | IsRef(r)
  }

  ghost predicate HasType(v: Val, t: Ty) {
    t == TAny || KindOf(v) == Some(t)
  }

  /** Every declared name is bound to a value of its type. */
  ghost predicate Agrees(env: Env, m: GoMap) {
    forall x | x in env :: x in m && HasType(m[x], env[x])
  }

  /** Every top-level value has a kind that can be converted back to a CEL value. */
  ghost predicate Convertible(m: GoMap) {
    forall x | x in m :: KindOf(m[x]).Some?
  }

  ghost predicate FrameOK(cx: Ctx, env: Env, h: Heap, f: nat) {
    Convertible(At(h, f)) && (!cx.redeclare ==> Agrees(env, At(h, f)))
  }

  /** Ready to run statements: no stored value refers to the frame, and the frame fits env. */
  ghost predicate Ready(cx: Ctx, env: Env, f: nat, s: State) {
    Sealed(s.heap, AllBut(f), f) && FrameOK(cx, env, s.heap, f)
  }

  /** env' declares what env declares, with the same types, and possibly more. */
  ghost predicate EnvGrows(cx: Ctx, env: Env, env': Env) {
    env.Keys <= env'.Keys && (!cx.redeclare ==> forall x | x in env :: env'[x] == env[x])
  }

  /** The declared names keep the values they are bound to. */
  ghost predicate RootsKept(cx: Ctx, env: Env, m: GoMap, m': GoMap) {
    !cx.redeclare ==> forall x | x in env && x in m :: x in m' && m'[x] == m[x]
  }

  /** The outcome of statements that start with the maps h. */
  ghost predicate Scoped(cx: Ctx, env: Env, f: nat, h: Heap, r: Res<Env>) {
    && Ready(cx, env, f, r.s)
    && RootsKept(cx, env, At(h, f), At(r.s.heap, f))
    && (r.out.Done? ==> EnvGrows(cx, env, r.out.value) && Ready(cx, r.out.value, f, r.s))
  }

  // ---------------------------------------------------------------- one assignment

  /** A walk that starts below the frame does not touch the frame. */
  lemma AssignBelow(h: Heap, r: nat, names: seq<string>, v: Val, f: nat)
    requires |names| >= 1 && Sealed(h, AllBut(f), f) && ValIn(v, AllBut(f), |h|)
    requires r != f && r < |h|
    ensures AssignAt(h, r, names, v).Some? ==> At(AssignAt(h, r, names, v).value, f) == At(h, f)
  {
    assert Sealed(h, AllBut(f), r);
    AssignAtKept(h, r, names, v, AllBut(f), r);
  }

  /** On the frame itself a dotted assignment adds the root when it is missing, and nothing else. */
  lemma AssignRoot(h: Heap, f: nat, names: seq<string>, v: Val)
    requires |names| >= 2 && Sealed(h, AllBut(f), f) && ValIn(v, AllBut(f), |h|)
    ensures AssignAt(h, f, names, v).Some? ==>
              At(AssignAt(h, f, names, v).value, f)
              == if names[0] in h[f] then h[f] else h[f][names[0] := MapV(|h|)]
  {
    if names[0] !in h[f] {
      SealedAlloc(h, map[], AllBut(f), f);
      var h1 := h + [map[]];
      SealedPut(h1, f, names[0], MapV(|h|), |h1|, AllBut(f), f);
      var h2 := Put(h, f, names[0], MapV(|h|)) + [map[]];
      assert h2 == Put(h1, f, names[0], MapV(|h|));
      ValInMono(v, AllBut(f), |h|, |h2|);
      AssignBelow(h2, |h|, names[1..], v, f);
    } else if h[f][names[0]].MapV? {
      assert MapIn(h[f], AllBut(f), |h|);
      AssignBelow(h, h[f][names[0]].ref, names[1..], v, f);
    }
  }

  /** Once the root is missing, every later component is missing too, so the walk succeeds. */
  lemma {:induction false} AssignMissing(h: Heap, r: nat, names: seq<string>, v: Val)
    requires |names| >= 1 && r < |h| && (|names| >= 2 ==> names[0] !in h[r])
    ensures AssignAt(h, r, names, v).Some?
    decreases |names|
  {
    if |names| >= 2 {
      var h1 := Put(h, r, names[0], MapV(|h|)) + [map[]];
      AssignMissing(h1, |h|, names[1..], v);
    }
  }

  /** A whole variable: a declared name is refused, so what is written was not declared. */
  lemma PlainScoped(cx: Ctx, env: Env, f: nat, name: string, v: Val, s: State)
    requires Ready(cx, env, f, s) && ValIn(v, AllBut(f), |s.heap|) && |SplitDots(name)| == 1
    ensures Scoped(cx, env, f, s.heap, CreateVariable(cx, env, f, name, v, s))
  {
    SealedPut(s.heap, f, SplitDots(name)[0], v, |s.heap|, AllBut(f), f);
  }

  lemma CreateVariableScoped(cx: Ctx, env: Env, f: nat, name: string, v: Val, s: State)
    requires Ready(cx, env, f, s) && ValIn(v, AllBut(f), |s.heap|)
    ensures Scoped(cx, env, f, s.heap, CreateVariable(cx, env, f, name, v, s))
  {
    var names := SplitDots(name);
    if |names| == 1 {
      PlainScoped(cx, env, f, name, v, s);
    } else {
      AssignAtKept(s.heap, f, names, v, AllBut(f), f);
      AssignRoot(s.heap, f, names, v);
    }
  }

  // ---------------------------------------------------------------- statements

  lemma {:induction false} FieldScoped(cx: Ctx, fuel: nat, env: Env, vars: nat, f: Field, s: State)
    requires Ready(cx, env, vars, s)
    ensures Scoped(cx, env, vars, s.heap, AssignField(cx, fuel, env, vars, f, s))
  {
    if f.key.Name? && IsText(f.value) && f.value.text.Text? && TypeOf(env, f.value.text.e).Some? {
      ExprKept(cx, fuel, f.value.text.e, vars, s, AllBut(vars));
      var x := EvalExpr(cx, fuel, f.value.text.e, vars, s);
      if x.out.Done? {
        CreateVariableScoped(cx, env, vars, f.key.name, x.out.value, x.s);
      }
    }
  }

  lemma {:induction false} FieldsScoped(cx: Ctx, fuel: nat, env: Env, vars: nat, fields: seq<Field>, order: seq<nat>,
                                        s: State)
    requires Ready(cx, env, vars, s)
    requires forall i | i in order :: i < |fields|
    ensures Scoped(cx, env, vars, s.heap, AssignFields(cx, fuel, env, vars, fields, order, s))
    decreases |order|
  {
    if order != [] {
      assert order[0] in order && forall i | i in order[1..] :: i in order;
      FieldScoped(cx, fuel, env, vars, fields[order[0]], s);
      var r := AssignField(cx, fuel, env, vars, fields[order[0]], s);
      if r.out.Done? {
        FieldsScoped(cx, fuel, r.out.value, vars, fields, order[1..], r.s);
        ScopedTrans(cx, env, vars, s.heap, r, AssignFields(cx, fuel, r.out.value, vars, fields, order[1..], r.s));
      }
    }
  }

  /** What holds for the environment of an inner block holds for the one around it. */
  lemma ScopedTrans(cx: Ctx, env: Env, f: nat, h: Heap, r: Res<Env>, r': Res<Env>)
    requires Scoped(cx, env, f, h, r) && r.out.Done? && Scoped(cx, r.out.value, f, r.s.heap, r')
    requires !cx.redeclare ==> Agrees(env, At(h, f))
    ensures Scoped(cx, env, f, h, r')
  {
  }

  lemma AssignmentScoped(cx: Ctx, fuel: nat, env: Env, vars: nat, fields: seq<Field>, s: State)
    requires Ready(cx, env, vars, s)
    ensures Scoped(cx, env, vars, s.heap, EvalAssignment(cx, fuel, env, vars, fields, s))
  {
    FieldsScoped(cx, fuel, env, vars, fields, VisitOrder(|fields|, cx.visit(s.tick)), s.(tick := s.tick + 1));
  }

  lemma {:induction false} BodyScoped(cx: Ctx, fuel: nat, env: Env, vars: nat, body: Yaml, s: State)
    requires Ready(cx, env, vars, s)
    ensures Scoped(cx, env, vars, s.heap, EvalBody(cx, fuel, env, vars, body, s))
    decreases body, 1
  {
    if body.YList? { ArrayScoped(cx, fuel, env, vars, body.elems, s); }
  }

  lemma {:induction false} ThenScoped(cx: Ctx, fuel: nat, env: Env, vars: nat, fields: seq<Field>, s: State)
    requires Ready(cx, env, vars, s)
    ensures Scoped(cx, env, vars, s.heap, ThenPart(cx, fuel, env, vars, fields, s))
    decreases fields, 3
  {
    if Get(fields, BODY).Some? {
      BodyScoped(cx, fuel, env, vars, Get(fields, BODY).value, s);
    } else if Get(fields, SWITCH).Some? {
      SwitchScoped(cx, fuel, env, vars, Get(fields, SWITCH).value, s);
    } else {
      AssignmentScoped(cx, fuel, env, vars, fields, s);
    }
  }

  ghost function DropFlag(r: Res<(Env, bool)>): Res<Env> {
    match r.out
    case Done((env, _)) => Res(r.s, Done(env))
    case Fail => Res(r.s, Fail)
    case OutOfFuel => Res(r.s, OutOfFuel)
  }

  lemma {:induction false} IfScoped(cx: Ctx, fuel: nat, env: Env, vars: nat, fields: seq<Field>, s: State)
    requires Ready(cx, env, vars, s)
    ensures Scoped(cx, env, vars, s.heap, DropFlag(EvalIf(cx, fuel, env, vars, fields, s)))
    decreases fields, 4
  {
    if IfSyntax(fields) {
      var when := Get(fields, IF).value.text;
      ConditionKept(cx, fuel, env, when, vars, s, AllBut(vars));
      var c := EvalCondition(cx, fuel, env, when, vars, s);
      if c.out == Done(true) { ThenScoped(cx, fuel, env, vars, fields, c.s); }
    }
  }

  lemma {:induction false} SwitchScoped(cx: Ctx, fuel: nat, env: Env, vars: nat, cases: Yaml, s: State)
    requires Ready(cx, env, vars, s)
    ensures Scoped(cx, env, vars, s.heap, EvalSwitch(cx, fuel, env, vars, cases, s))
    decreases cases, 1
  {
    if cases.YList? { CasesScoped(cx, fuel, env, vars, cases.elems, 0, None, s); }
  }

  lemma {:induction false} CasesScoped(cx: Ctx, fuel: nat, env: Env, vars: nat, cases: seq<Yaml>, i: nat,
                                       dflt: Option<nat>, s: State)
    requires Ready(cx, env, vars, s)
    requires i <= |cases|
    requires dflt.Some? ==> dflt.value < |cases| && IsDefault(cases[dflt.value])
    ensures Scoped(cx, env, vars, s.heap, SwitchCases(cx, fuel, env, vars, cases, i, dflt, s))
    decreases cases, |cases| - i
  {
    if i == |cases| {
      if dflt.Some? {
        ArrayScoped(cx, fuel, env, vars, Get(cases[dflt.value].fields, DEFAULT).value.elems, s);
      }
    } else if cases[i].YObject? && Get(cases[i].fields, IF).Some? {
      IfScoped(cx, fuel, env, vars, cases[i].fields, s);
      var r := EvalIf(cx, fuel, env, vars, cases[i].fields, s);
      if r.out.Done? && !r.out.value.1 { CasesScoped(cx, fuel, env, vars, cases, i + 1, dflt, r.s); }
    } else if IsDefault(cases[i]) && dflt.None? {
      CasesScoped(cx, fuel, env, vars, cases, i + 1, Some(i), s);
    }
  }

  lemma {:induction false} ObjectScoped(cx: Ctx, fuel: nat, env: Env, vars: nat, item: Yaml, s: State)
    requires Ready(cx, env, vars, s)
    ensures Scoped(cx, env, vars, s.heap, EvalObject(cx, fuel, env, vars, item, s))
    decreases item, 0
  {
    if item.YObject? {
      var fields := item.fields;
      var k := CountKeywords(fields);
      if k.hasIf {
        IfScoped(cx, fuel, env, vars, fields, s);
      } else if k.hasSwitch {
        if Get(fields, SWITCH).Some? { SwitchScoped(cx, fuel, env, vars, Get(fields, SWITCH).value, s); }
      } else if k.hasBody {
        if Get(fields, BODY).Some? { BodyScoped(cx, fuel, env, vars, Get(fields, BODY).value, s); }
      } else {
        AssignmentScoped(cx, fuel, env, vars, fields, s);
      }
    }
  }

  /** Declared names stay bound to values of their types through any statements. */
  lemma {:induction false} ArrayScoped(cx: Ctx, fuel: nat, env: Env, vars: nat, body: seq<Yaml>, s: State)
    requires Ready(cx, env, vars, s)
    ensures Scoped(cx, env, vars, s.heap, EvalArray(cx, fuel, env, vars, body, s))
    decreases body, 0
  {
    if body != [] {
      ObjectScoped(cx, fuel, env, vars, body[0], s);
      var r := EvalObject(cx, fuel, env, vars, body[0], s);
      if r.out.Done? {
        ArrayScoped(cx, fuel, r.out.value, vars, body[1..], r.s);
        ScopedTrans(cx, env, vars, s.heap, r, EvalArray(cx, fuel, r.out.value, vars, body[1..], r.s));
      }
    }
  }

  // ---------------------------------------------------------------- whole runs

  /** No dangling references. */
  ghost predicate WellFormed(h: Heap) {
    forall r | 0 <= r < |h| :: MapIn(h[r], All(), |h|)
  }

  lemma {:induction false} OldValueAvoidsNew(v: Val, n: nat)
    requires ValIn(v, All(), n)
    ensures ValIn(v, AllBut(n), n)
    decreases v
  {
    if v.ListV? {
      forall i | 0 <= i < |v.elems| ensures ValIn(v.elems[i], AllBut(n), n) {
        OldValueAvoidsNew(v.elems[i], n);
      }
    }
  }

  /** No value refers to a frame that has just been allocated. */
  lemma NewFrameSealed(h: Heap, m: GoMap)
    requires WellFormed(h) && MapIn(m, All(), |h|)
    ensures Sealed(h + [m], AllBut(|h|), |h|)
  {
    var h' := h + [m];
    forall r | 0 <= r < |h'|
      ensures MapIn(h'[r], AllBut(|h|), |h'|)
    {
      forall k | k in h'[r] ensures ValIn(h'[r][k], AllBut(|h|), |h'|) {
        assert r < |h| ==> h'[r] == h[r];
        OldValueAvoidsNew(h'[r][k], |h|);
        ValInMono(h'[r][k], AllBut(|h|), |h|, |h'|);
      }
    }
  }

  /** Any trigger on any message: the frame always fits what the outermost block has declared. */
  lemma TriggerScoped(cx: Ctx, fuel: nat, t: Trigger, message: nat, s: State)
    requires WellFormed(s.heap) && message < |s.heap| && t.input.Some? && t.body.Some?
    ensures var env := map[t.input.value := TMap];
            var s1 := Alloc(s, map[t.input.value := MapV(message)]);
            Scoped(cx, env, |s.heap|, s1.heap, EvalArray(cx, fuel, env, |s.heap|, t.body.value, s1))
  {
    NewFrameSealed(s.heap, map[t.input.value := MapV(message)]);
    ArrayScoped(cx, fuel, map[t.input.value := TMap], |s.heap|, t.body.value,
                Alloc(s, map[t.input.value := MapV(message)]));
  }

  /** The state and outcome of a function body, before its output is looked up. */
  ghost function BodyRun(cx: Ctx, fuel: nat, fd: FuncDef, arg: Val, s: State): Res<Env>
    requires Callable(fd)
  {
    var c := CreateVariable(cx, map[], |s.heap|, fd.input.value, arg, Alloc(s, map[]));
    if c.out.Done? then EvalArray(cx, fuel, c.out.value, |s.heap|, fd.body.elems, c.s) else c
  }

  /**
   A call fails after its body succeeded only when the output variable is not set: the value
   found there can always be converted, and the conversion gives it back.
   */
  lemma OutputAlwaysConverts(cx: Ctx, fuel: nat, fd: FuncDef, arg: Val, s: State)
    requires WellFormed(s.heap) && ValIn(arg, All(), |s.heap|)
    requires Callable(fd) && BodyRun(cx, fuel, fd, arg, s).out.Done?
    ensures var r := BodyRun(cx, fuel, fd, arg, s); var m := At(r.s.heap, |s.heap|);
            CallFunction(cx, fuel, fd, arg, s)
            == if fd.output.value in m then Res(r.s, Done(m[fd.output.value])) else Res(r.s, Fail)
  {
    var f := |s.heap|;
    var s1 := Alloc(s, map[]);
    NewFrameSealed(s.heap, map[]);
    OldValueAvoidsNew(arg, f);
    ValInMono(arg, AllBut(f), f, |s1.heap|);
    CreateVariableScoped(cx, map[], f, fd.input.value, arg, s1);
    var c := CreateVariable(cx, map[], f, fd.input.value, arg, s1);
    ArrayScoped(cx, fuel, c.out.value, f, fd.body.elems, c.s);
  }

  // ---------------------------------------------------------------- which names are declared

  /** The root that a plain assignment declares, given the frame before it. */
  function DeclaredBy(item: Yaml, frame: GoMap): set<string> {
    if !item.YObject? || |item.fields| != 1 || item.fields[0].key.NonString? || IsKeyword(item.fields[0].key.name)
       || item.fields[0].key.name == "" then {}
    else
      var names := SplitDots(item.fields[0].key.name);
      if |names| == 1 || names[0] !in frame then {names[0]} else {}
  }

  /** The roots that the plain assignments of a list declare, one after the other. */
  ghost function Introduced(cx: Ctx, fuel: nat, env: Env, vars: nat, body: seq<Yaml>, s: State): set<string>
    decreases |body|
  {
    if body == [] then {}
    else
      var r := EvalObject(cx, fuel, env, vars, body[0], s);
      DeclaredBy(body[0], At(s.heap, vars))
      + if r.out.Done? then Introduced(cx, fuel, r.out.value, vars, body[1..], r.s) else {}
  }

  lemma SingleField(cx: Ctx, fuel: nat, env: Env, vars: nat, f: Field, s: State)
    ensures EvalAssignment(cx, fuel, env, vars, [f], s)
         == AssignField(cx, fuel, env, vars, f, s.(tick := s.tick + 1))
  {
    var order := VisitOrder(1, cx.visit(s.tick));
    assert order[0] in order && order == [0];
    var s1 := s.(tick := s.tick + 1);
    var r := AssignField(cx, fuel, env, vars, f, s1);
    assert [f][0] == f && order[1..] == [];
    assert r.out.Done? ==> AssignFields(cx, fuel, r.out.value, vars, [f], [], r.s) == Res(r.s, Done(r.out.value));
  }

  lemma FieldDeclares(cx: Ctx, fuel: nat, env: Env, vars: nat, f: Field, s: State)
    requires Ready(cx, env, vars, s)
    ensures var r := AssignField(cx, fuel, env, vars, f, s);
            r.out.Done? ==> r.out.value.Keys == env.Keys + DeclaredBy(YObject([f]), At(s.heap, vars))
  {
    if f.key.Name? && IsText(f.value) && f.value.text.Text? && TypeOf(env, f.value.text.e).Some? {
      ExprKept(cx, fuel, f.value.text.e, vars, s, AllBut(vars));
    }
  }

  lemma {:induction false} NoKeywordCount(fields: seq<Field>)
    ensures var k := CountKeywords(fields);
            !k.hasIf && !k.hasSwitch && !k.hasBody && !k.hasDefault <==>
            forall i | 0 <= i < |fields| :: fields[i].key.NonString? || !IsKeyword(fields[i].key.name)
  {
    if fields != [] {
      NoKeywordCount(fields[..|fields| - 1]);
      assert forall i | 0 <= i < |fields| - 1 :: fields[..|fields| - 1][i] == fields[i];
    }
  }

  lemma ObjectDeclares(cx: Ctx, fuel: nat, env: Env, vars: nat, item: Yaml, s: State)
    requires Ready(cx, env, vars, s)
    ensures var r := EvalObject(cx, fuel, env, vars, item, s);
            r.out.Done? ==> r.out.value.Keys == env.Keys + DeclaredBy(item, At(s.heap, vars))
  {
    if item.YObject? {
      NoKeywordCount(item.fields);
      var k := CountKeywords(item.fields);
      if k.hasIf || k.hasSwitch || k.hasBody || k.hasDefault {
        if |item.fields| == 1 {
          assert IsKeyword(item.fields[0].key.name);
        }
      } else if |item.fields| == 1 {
        assert item.fields == [item.fields[0]];
        SingleField(cx, fuel, env, vars, item.fields[0], s);
        FieldDeclares(cx, fuel, env, vars, item.fields[0], s.(tick := s.tick + 1));
      } else if item.fields == [] {
        assert EvalAssignment(cx, fuel, env, vars, item.fields, s) == Res(s.(tick := s.tick + 1), Done(env));
      }
    }
  }

  /**
   Exactly which names are declared after a list of statements: those before it and the roots its
   own plain assignments introduce. What inner blocks and called functions do adds nothing.
   */
  lemma {:induction false} ArrayDeclares(cx: Ctx, fuel: nat, env: Env, vars: nat, body: seq<Yaml>, s: State)
    requires Ready(cx, env, vars, s)
    ensures var r := EvalArray(cx, fuel, env, vars, body, s);
            r.out.Done? ==> r.out.value.Keys == env.Keys + Introduced(cx, fuel, env, vars, body, s)
    decreases |body|
  {
    if body != [] {
      ObjectDeclares(cx, fuel, env, vars, body[0], s);
      ObjectScoped(cx, fuel, env, vars, body[0], s);
      var r := EvalObject(cx, fuel, env, vars, body[0], s);
      if r.out.Done? { ArrayDeclares(cx, fuel, r.out.value, vars, body[1..], r.s); }
    }
  }

  /** The list assigns x itself, at this level. */
  ghost predicate AssignsWhole(body: seq<Yaml>, x: string) {
    exists i :: 0 <= i < |body| && body[i].YObject? && |body[i].fields| == 1
                && body[i].fields[0].key == Name(x)
  }

  /**
   A root that an inner block created is never declared by later dotted assignments: a name that
   is bound but not declared stays so, unless the list assigns the whole name.
   */
  lemma {:induction false} UndeclaredStaysUndeclared(cx: Ctx, fuel: nat, env: Env, vars: nat, body: seq<Yaml>,
                                                     s: State, x: string)
    requires Ready(cx, env, vars, s)
    requires x in At(s.heap, vars) && x !in env && !AssignsWhole(body, x)
    ensures var r := EvalArray(cx, fuel, env, vars, body, s);
            x in At(r.s.heap, vars) && (r.out.Done? ==> x !in r.out.value)
    decreases |body|
  {
    if body != [] {
      ObjectDeclares(cx, fuel, env, vars, body[0], s);
      ObjectScoped(cx, fuel, env, vars, body[0], s);
      ObjectKept(cx, fuel, env, vars, body[0], s, AllBut(vars));
      if body[0].YObject? && |body[0].fields| == 1 && body[0].fields[0].key.Name? {
        JoinSplit(body[0].fields[0].key.name);
      }
      assert x !in DeclaredBy(body[0], At(s.heap, vars));
      var r := EvalObject(cx, fuel, env, vars, body[0], s);
      if r.out.Done? {
        assert forall i | 0 <= i < |body[1..]| :: body[1..][i] == body[i + 1];
        UndeclaredStaysUndeclared(cx, fuel, r.out.value, vars, body[1..], r.s, x);
      }
    }
  }

  // ---------------------------------------------------------------- when redeclaration is accepted

  function Block(items: seq<Yaml>): Yaml {
    YObject([Field(Name(BODY), YList(items))])
  }

  /**
   An environment that overwrites a declaration breaks the agreement: after `x: 1` and an inner
   block with `x: "s"`, x is declared an int and holds a string.
   */
  lemma RedeclarationBreaksTypes(cx: Ctx, fuel: nat, env0: Env, s: State, f: nat)
    requires cx.redeclare && f < |s.heap|
    ensures var body := [Assign("x", Text(Lit(CInt(1)))), Block([Assign("x", Text(Lit(CString("s"))))])];
            var r := EvalArray(cx, fuel, env0, f, body, s);
            r.out == Done(env0["x" := TInt]) && !Agrees(env0["x" := TInt], At(r.s.heap, f))
  {
    var a1, a2 := Assign("x", Text(Lit(CInt(1)))), Assign("x", Text(Lit(CString("s"))));
    var body := [a1, Block([a2])];
    var env: Env := env0["x" := TInt];
    AssignsLiteral(cx, fuel, env0, f, "x", CInt(1), s);
    var r1 := EvalObject(cx, fuel, env0, f, a1, s);
    AssignsLiteral(cx, fuel, env, f, "x", CString("s"), r1.s);
    var r2 := EvalObject(cx, fuel, env, f, a2, r1.s);
    SingletonArray(cx, fuel, env, f, a2, r1.s);
    BlockRuns(cx, fuel, env, f, [a2], r1.s);
    SingletonArray(cx, fuel, env, f, Block([a2]), r1.s);
    assert body[1..] == [Block([a2])];
  }

  /** An accepted assignment of a literal. */
  lemma AssignsLiteral(cx: Ctx, fuel: nat, env: Env, f: nat, x: string, c: Const, s: State)
    requires f < |s.heap| && '.' !in x && x != "" && !IsKeyword(x) && !c.CNull? && (cx.redeclare || x !in env)
    ensures var r := EvalObject(cx, fuel, env, f, Assign(x, Text(Lit(c))), s);
            && r.out == Done(env[x := KindOf(ConstVal(c)).value]) && f < |r.s.heap|
            && x in At(r.s.heap, f) && At(r.s.heap, f)[x] == ConstVal(c)
  {
    SplitPlain(x);
    SingleAssign(cx, fuel, env, f, x, Text(Lit(c)), s);
  }

  lemma SingletonArray(cx: Ctx, fuel: nat, env: Env, vars: nat, item: Yaml, s: State)
    ensures EvalArray(cx, fuel, env, vars, [item], s) == EvalObject(cx, fuel, env, vars, item, s)
  {
    assert [item][1..] == [];
    var r := EvalObject(cx, fuel, env, vars, item, s);
    if r.out.Done? { assert EvalArray(cx, fuel, r.out.value, vars, [], r.s) == r; }
  }

  lemma BlockRuns(cx: Ctx, fuel: nat, env: Env, vars: nat, items: seq<Yaml>, s: State)
    ensures var r := EvalArray(cx, fuel, env, vars, items, s);
            EvalObject(cx, fuel, env, vars, Block(items), s) == if r.out.Done? then Res(r.s, Done(env)) else r
  {
    var fields := [Field(Name(BODY), YList(items))];
    assert fields[..0] == [];
    assert CountKeywords(fields) == Keywords(1, false, false, false, true);
    assert Get(fields, BODY) == Some(YList(items));
  }
}
