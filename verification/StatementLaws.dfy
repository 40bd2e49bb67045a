/** Laws of statements. */
module StatementLaws {
  import opened Text
  import opened Values
  import opened Syntax
  import opened Semantics
  import opened Scoping

  // What each kind of object in a body does, spelled out in the words that a trigger is written in. A
  // block's declarations end with it, and a failure anywhere ends the list.

  // ---------------------------------------------------------------- reserved words

  predicate Reserved(key: Key) {
    key == Name("if") || key == Name("switch") || key == Name("default") || key == Name("body")
  }

  ghost predicate HasKey(fields: seq<Field>, name: string) {
    exists i :: 0 <= i < |fields| && fields[i].key == Name(name)
  }

  /** The positions of the keys that are reserved words. */
  function ReservedAt(fields: seq<Field>): set<nat> {
    set i: nat | i < |fields| && Reserved(fields[i].key)
  }

  /** The keyword count is the number of reserved keys, and the flags say which of them occur. */
  lemma {:induction false} KeywordsExactly(fields: seq<Field>)
    ensures var k := CountKeywords(fields);
            && k.count == |ReservedAt(fields)|
            && (k.hasIf <==> HasKey(fields, "if")) && (k.hasSwitch <==> HasKey(fields, "switch"))
            && (k.hasDefault <==> HasKey(fields, "default")) && (k.hasBody <==> HasKey(fields, "body"))
    decreases |fields|
  {
    if fields != [] {
      var m := |fields| - 1;
      var init := fields[..m];
      KeywordsExactly(init);
      OneMoreReserved(fields);
      KeyBefore(fields, "if");
      KeyBefore(fields, "switch");
      KeyBefore(fields, "default");
      KeyBefore(fields, "body");
    }
  }

  lemma OneMoreReserved(fields: seq<Field>)
    requires fields != []
    ensures var m := |fields| - 1;
            |ReservedAt(fields)| == |ReservedAt(fields[..m])| + if Reserved(fields[m].key) then 1 else 0
  {
    var m := |fields| - 1;
    assert forall i | 0 <= i < m :: fields[..m][i] == fields[i];
    assert ReservedAt(fields) == ReservedAt(fields[..m]) + if Reserved(fields[m].key) then {m} else {};
  }

  lemma KeyBefore(fields: seq<Field>, name: string)
    requires fields != []
    ensures var m := |fields| - 1;
            HasKey(fields, name) <==> HasKey(fields[..m], name) || fields[m].key == Name(name)
  {
    var m := |fields| - 1;
    if HasKey(fields[..m], name) {
      var i :| 0 <= i < m && fields[..m][i].key == Name(name);
      assert fields[i].key == Name(name);
    }
    if HasKey(fields, name) && fields[m].key != Name(name) {
      var i :| 0 <= i < |fields| && fields[i].key == Name(name);
      assert fields[..m][i].key == Name(name);
    }
  }

  lemma KeyFound(fields: seq<Field>, name: string)
    ensures HasKey(fields, name) <==> Get(fields, name).Some?
  {
  }

  // ---------------------------------------------------------------- assignments

  /** A YAML number or bool is assigned as the text it is written with, like a string. */
  lemma PrimitiveIsText(cx: Ctx, fuel: nat, env: Env, f: nat, key: Key, t: Source, s: State)
    ensures AssignField(cx, fuel, env, f, Field(key, YPrimitive(t)), s)
         == AssignField(cx, fuel, env, f, Field(key, YString(t)), s)
  {
  }

  /** A reserved word is no variable: its entry is skipped, whatever it holds. */
  lemma ReservedSkipped(cx: Ctx, fuel: nat, env: Env, f: nat, key: Key, v: Yaml, s: State)
    requires Reserved(key)
    ensures AssignField(cx, fuel, env, f, Field(key, v), s) == Res(s, Done(env))
  {
  }

  /**
   Any other entry: a key that is not a string, and a value that is a list, an object or null, fail
   before anything is evaluated. The empty name is skipped.
   */
  lemma EntryKinds(cx: Ctx, fuel: nat, env: Env, f: nat, key: Key, v: Yaml, s: State)
    requires !Reserved(key)
    ensures key.NonString? || v.YList? || v.YObject? || v.YOther? ==>
              AssignField(cx, fuel, env, f, Field(key, v), s) == Res(s, Fail)
    ensures key == Name("") && (v.YString? || v.YPrimitive?) ==>
              AssignField(cx, fuel, env, f, Field(key, v), s) == Res(s, Done(env))
  {
  }

  /**
   Assigning a text: it must parse and check, its expression must have a value, and then that value is
   stored in the state that the expression leaves. A failure keeps that state.
   */
  lemma TextAssigned(cx: Ctx, fuel: nat, env: Env, f: nat, name: string, t: Source, s: State)
    requires !Reserved(Name(name)) && name != ""
    ensures var r := AssignField(cx, fuel, env, f, Field(Name(name), YString(t)), s);
            if !t.Text? || TypeOf(env, t.e).None? then r == Res(s, Fail)
            else
              var x := EvalExpr(cx, fuel, t.e, f, s);
              && (x.out.Done? ==> r == CreateVariable(cx, env, f, name, x.out.value, x.s))
              && (x.out.Fail? ==> r == Res(x.s, Fail)) && (x.out.OutOfFuel? ==> r == Res(x.s, OutOfFuel))
  {
  }

  /** A name without dots is declared with the kind of its value and bound to it in the frame. */
  lemma PlainStored(cx: Ctx, env: Env, f: nat, name: string, v: Val, s: State)
    requires '.' !in name && f < |s.heap|
    ensures var r := CreateVariable(cx, env, f, name, v, s);
            if v.NullV? || v.OtherV? || (name in env && !cx.redeclare) then r == Res(s, Fail)
            else
              && r.s.heap == s.heap[f := s.heap[f][name := v]] && r.s.trace == s.trace && r.s.tick == s.tick
              && r.out.Done? && r.out.value.Keys == env.Keys + {name} && KindOf(v) == Some(r.out.value[name])
              && forall x | x in env && x != name :: r.out.value[x] == env[x]
  {
    SplitPlain(name);
  }

  /** The kinds of values, and the values that have none. */
  lemma Kinds(i: int64, b: bool, r: real, t: string, xs: seq<Val>, ref: nat, tag: int)
    ensures KindOf(IntV(i)) == Some(TInt) && KindOf(BoolV(b)) == Some(TBool) && KindOf(DoubleV(r)) == Some(TDouble)
    ensures KindOf(StrV(t)) == Some(TString) && KindOf(ListV(xs)) == Some(TList) && KindOf(MapV(ref)) == Some(TMap)
    ensures KindOf(NullV).None? && KindOf(OtherV(tag)).None?
  {
  }

  /** For example `x: 1` or `x: true`, as a statement: x is declared with the type of the literal and holds it. */
  lemma LiteralStatement(cx: Ctx, fuel: nat, env: Env, f: nat, x: string, c: Const, s: State)
    requires f < |s.heap| && '.' !in x && x != "" && !Reserved(Name(x)) && x !in env && !c.CNull?
    ensures var r := EvalArray(cx, fuel, env, f, [YObject([Field(Name(x), YPrimitive(Text(Lit(c))))])], s);
            && KindOf(ConstVal(c)).Some? && r.out == Done(env[x := KindOf(ConstVal(c)).value])
            && r.s.heap == s.heap[f := s.heap[f][x := ConstVal(c)]]
  {
    var fields := [Field(Name(x), YPrimitive(Text(Lit(c))))];
    var s1 := s.(tick := s.tick + 1);
    PrimitiveIsText(cx, fuel, env, f, Name(x), Text(Lit(c)), s1);
    TextAssigned(cx, fuel, env, f, x, Text(Lit(c)), s1);
    SplitPlain(x);
    OneEntry(cx, fuel, env, f, fields[0], s);
    SingletonArray(cx, fuel, env, f, YObject(fields), s);
  }

  /** A statement with one entry is that assignment. */
  lemma OneEntry(cx: Ctx, fuel: nat, env: Env, f: nat, fld: Field, s: State)
    requires !Reserved(fld.key)
    ensures EvalObject(cx, fuel, env, f, YObject([fld]), s)
         == AssignField(cx, fuel, env, f, fld, s.(tick := s.tick + 1))
  {
    assert [fld][..0] == [];
    assert CountKeywords([fld]) == CountKeywords([]);
    var order := VisitOrder(1, cx.visit(s.tick));
    assert order[0] in order && order == [0];
    var s1 := s.(tick := s.tick + 1);
    var r := AssignField(cx, fuel, env, f, fld, s1);
    assert [fld][0] == fld && order[1..] == [];
    assert r.out.Done? ==> AssignFields(cx, fuel, r.out.value, f, [fld], [], r.s) == Res(r.s, Done(r.out.value));
    assert AssignFields(cx, fuel, env, f, [fld], [0], s1) == r;
  }

  /** The entries of an object are assigned one after the other, in some order, up to the first failure. */
  lemma InSomeOrder(cx: Ctx, fuel: nat, env: Env, f: nat, fields: seq<Field>, s: State) returns (order: seq<nat>)
    ensures multiset(order) == multiset(Indices(|fields|)) && forall i | i in order :: i < |fields|
    ensures EvalAssignment(cx, fuel, env, f, fields, s)
         == AssignFields(cx, fuel, env, f, fields, order, s.(tick := s.tick + 1))
  {
    order := VisitOrder(|fields|, cx.visit(s.tick));
    PermuteReorders(Indices(|fields|), cx.visit(s.tick));
  }

  lemma {:induction false} EntriesInTurn(cx: Ctx, fuel: nat, env: Env, f: nat, fields: seq<Field>, a: seq<nat>,
                                         b: seq<nat>, s: State)
    requires forall i | i in a + b :: i < |fields|
    ensures (forall i | i in a :: i < |fields|) && forall i | i in b :: i < |fields|
    ensures var r := AssignFields(cx, fuel, env, f, fields, a, s);
            AssignFields(cx, fuel, env, f, fields, a + b, s)
            == if r.out.Done? then AssignFields(cx, fuel, r.out.value, f, fields, b, r.s) else r
    decreases |a|
  {
    assert forall i | i in a :: i in a + b;
    assert forall i | i in b :: i in a + b;
    if a == [] {
      assert a + b == b;
    } else {
      assert (a + b)[1..] == a[1..] + b && (a + b)[0] == a[0] && a[0] in a;
      var r := AssignField(cx, fuel, env, f, fields[a[0]], s);
      assert forall i | i in a[1..] + b :: i in a + b;
      if r.out.Done? { EntriesInTurn(cx, fuel, r.out.value, f, fields, a[1..], b, r.s); }
    }
  }

  // ---------------------------------------------------------------- lists of statements

  /** A list runs its statements in order; the first failure ends it, and later statements do not run. */
  lemma Sequence(cx: Ctx, fuel: nat, env: Env, f: nat, item: Yaml, rest: seq<Yaml>, s: State)
    ensures EvalArray(cx, fuel, env, f, [], s) == Res(s, Done(env))
    ensures var r := EvalObject(cx, fuel, env, f, item, s);
            EvalArray(cx, fuel, env, f, [item] + rest, s)
            == if r.out.Done? then EvalArray(cx, fuel, r.out.value, f, rest, r.s) else r
  {
    assert ([item] + rest)[0] == item && ([item] + rest)[1..] == rest;
  }

  /** What a block leaves: its state and success, but not its declarations. */
  function Closed(env: Env, r: Res<Env>): Res<Env> {
    Res(r.s, if r.out.Done? then Done(env) else r.out)
  }

  /** A nested list runs as a list; anything else in its place fails. */
  function List(cx: Ctx, fuel: nat, env: Env, f: nat, y: Yaml, s: State): Res<Env> {
    if y.YList? then EvalArray(cx, fuel, env, f, y.elems, s) else Res(s, Fail)
  }

  /** A `body` block stands alone, and what it declares ends with it. */
  lemma BodyBlock(cx: Ctx, fuel: nat, env: Env, f: nat, y: Yaml, s: State)
    ensures EvalObject(cx, fuel, env, f, YObject([Field(Name("body"), y)]), s)
         == Closed(env, List(cx, fuel, env, f, y, s))
  {
    OneKey(Field(Name("body"), y));
  }

  lemma SwitchBlock(cx: Ctx, fuel: nat, env: Env, f: nat, y: Yaml, s: State)
    ensures EvalObject(cx, fuel, env, f, YObject([Field(Name("switch"), y)]), s)
         == Closed(env, EvalSwitch(cx, fuel, env, f, y, s))
    ensures !y.YList? ==> EvalSwitch(cx, fuel, env, f, y, s) == Res(s, Fail)
  {
    OneKey(Field(Name("switch"), y));
  }

  lemma OneKey(fld: Field)
    requires fld.key.Name?
    ensures Get([fld], fld.key.name) == Some(fld.value)
    ensures CountKeywords([fld]) == AddKey(Keywords(0, false, false, false, false), fld.key)
  {
    assert [fld][..0] == [];
  }

  /**
   What is no statement: something else than an object; a `default` outside a switch; a `switch` or
   `body` that does not stand alone; several assignments in one object without an `if`.
   */
  lemma NoStatement(cx: Ctx, fuel: nat, env: Env, f: nat, item: Yaml, s: State)
    requires || !item.YObject?
             || (!HasKey(item.fields, "if")
                 && (|item.fields| > 1 || (|item.fields| == 1 && item.fields[0].key == Name("default"))))
    ensures EvalObject(cx, fuel, env, f, item, s) == Res(s, Fail)
  {
    if item.YObject? {
      KeywordsExactly(item.fields);
      if |item.fields| == 1 {
        OneKey(item.fields[0]);
      }
    }
  }

  // ---------------------------------------------------------------- if

  /**
   An `if` object is well formed when its condition is a string and it holds at most one other reserved
   word, which then is `body` or `switch` and stands with the condition alone.
   */
  ghost predicate WellFormedIf(fields: seq<Field>) {
    && HasKey(fields, "if") && Get(fields, "if").value.YString?
    && |ReservedAt(fields)| <= 2
    && (|ReservedAt(fields)| == 2 ==> |fields| <= 2 && (HasKey(fields, "body") || HasKey(fields, "switch")))
  }

  lemma IfChecked(fields: seq<Field>)
    ensures IfSyntax(fields) <==> WellFormedIf(fields)
  {
    KeywordsExactly(fields);
    KeyFound(fields, "if");
  }

  /** The part of an `if` object that its condition guards. */
  ghost function Guarded(cx: Ctx, fuel: nat, env: Env, f: nat, fields: seq<Field>, s: State): Res<Env> {
    if HasKey(fields, "body") then List(cx, fuel, env, f, Get(fields, "body").value, s)
    else if HasKey(fields, "switch") then EvalSwitch(cx, fuel, env, f, Get(fields, "switch").value, s)
    else EvalAssignment(cx, fuel, env, f, fields, s)
  }

  /**
   An `if` statement: malformed, it fails at once; a condition that fails makes it fail; a condition
   that does not hold leaves it at that; otherwise it does what the guarded part does, and fails with it.
   */
  lemma IfStatement(cx: Ctx, fuel: nat, env: Env, f: nat, fields: seq<Field>, s: State)
    requires HasKey(fields, "if")
    ensures var r := EvalObject(cx, fuel, env, f, YObject(fields), s);
            if !WellFormedIf(fields) then r == Res(s, Fail)
            else
              var c := EvalCondition(cx, fuel, env, Get(fields, "if").value.text, f, s);
              && (c.out.Fail? ==> r == Res(c.s, Fail)) && (c.out.OutOfFuel? ==> r == Res(c.s, OutOfFuel))
              && (c.out == Done(false) ==> r == Res(c.s, Done(env)))
              && (c.out == Done(true) ==> r == Closed(env, Guarded(cx, fuel, env, f, fields, c.s)))
  {
    KeywordsExactly(fields);
    IfChecked(fields);
    KeyFound(fields, "if");
    if WellFormedIf(fields) {
      GuardedPart(cx, fuel, env, f, fields, EvalCondition(cx, fuel, env, Get(fields, "if").value.text, f, s).s);
    }
    IfUnfolds(cx, fuel, env, f, fields, s);
  }

  lemma IfUnfolds(cx: Ctx, fuel: nat, env: Env, f: nat, fields: seq<Field>, s: State)
    requires CountKeywords(fields).hasIf
    ensures var r := EvalIf(cx, fuel, env, f, fields, s); var o := EvalObject(cx, fuel, env, f, YObject(fields), s);
            && o.s == r.s && (o.out.Done? <==> r.out.Done?) && (o.out.Done? ==> o.out.value == env)
            && (o.out.Fail? <==> r.out.Fail?)
  {
  }

  /** An element of a switch is a default exactly when it is the word alone, with a list. */
  lemma DefaultElement(c: Yaml)
    ensures IsDefault(c) <==> exists ys :: c == YObject([Field(Name("default"), YList(ys))])
  {
    if IsDefault(c) {
      var fld := c.fields[0];
      assert c.fields == [fld] && fld == Field(Name("default"), YList(fld.value.elems));
      assert c == YObject([Field(Name("default"), YList(fld.value.elems))]);
    }
    if ys :| c == YObject([Field(Name("default"), YList(ys))]) {
      OneKey(c.fields[0]);
      assert c.fields[1..] == [];
      assert Get(c.fields, "if").None?;
    }
  }

  /** The part of an `if` element of a switch is that of the `if` statement, with its declarations. */
  lemma GuardedPart(cx: Ctx, fuel: nat, env: Env, f: nat, fields: seq<Field>, s: State)
    ensures ThenPart(cx, fuel, env, f, fields, s) == Guarded(cx, fuel, env, f, fields, s)
  {
    KeyFound(fields, "body");
    KeyFound(fields, "switch");
  }
}
