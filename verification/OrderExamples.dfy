/** Assignments that are independent, and some that are not. */
module OrderExamples {
  import opened Text
  import opened Values
  import opened Syntax
  import opened Semantics
  import opened Scoping
  import opened DottedAssignment
  import opened Purity
  import opened Steadiness
  import opened Planning
  import opened OrderIndependence
  import opened RecursiveSum
  import opened Filtering
  import opened Preprocess

  // ---------------------------------------------------------------- simple expressions

  /** Neither the variables that e names nor what it reads below them are written by p. */
  ghost predicate Unread(h: Heap, f: nat, fld: Field, p: Plan)
    requires SimpleField(fld) && f < |h|
  {
    Assigns(fld) ==> forall q, c | Writes(p, q, c) ::
      !(q == f && c in Roots(fld.value.text.e)) && !Reads(h, h[f], fld.value.text.e, q, c)
  }

  function SimpleOutcome(h: Heap, f: nat, fld: Field): Option<Made>
    requires SimpleField(fld) && f < |h|
  {
    if Assigns(fld) then MadeOf(PureEval(h, h[f], fld.value.text.e)) else None
  }

  ghost function SimpleOutcomes(h: Heap, f: nat, fields: seq<Field>): (os: seq<Option<Made>>)
    requires f < |h| && forall i | 0 <= i < |fields| :: SimpleField(fields[i])
    ensures |os| == |fields| && forall i | 0 <= i < |fields| :: os[i] == SimpleOutcome(h, f, fields[i])
  {
    seq(|fields|, i requires 0 <= i < |fields| => SimpleOutcome(h, f, fields[i]))
  }

  /** For reads and operators, independence is a matter of slots: no entry reads what another writes. */
  lemma SimpleIndependent(cx: Ctx, fuel: nat, env: Env, f: nat, fields: seq<Field>, h: Heap)
    requires WellFormed(h) && f < |h| && forall i | 0 <= i < |fields| :: SimpleField(fields[i])
    requires var ps := Plans(cx, env, f, fields, h, SimpleOutcomes(h, f, fields));
             && (forall i: nat, j: nat | i < |ps| && j < |ps| && i != j :: Unread(h, f, fields[j], ps[i]))
             && (forall j: nat | j < |ps| :: Undisturbed(h, f, fields[j], ps, j))
    ensures Independent(cx, fuel, env, f, fields, h, SimpleOutcomes(h, f, fields))
  {
    var os := SimpleOutcomes(h, f, fields);
    var ps := Plans(cx, env, f, fields, h, os);
    forall j: nat | j < |fields| ensures EntrySteady(cx, fuel, env, f, fields[j], h, ps, j, os[j]) {
      if Assigns(fields[j]) {
        var e := fields[j].value.text.e;
        forall q: nat, c: string | (q, c) in OthersWrite(ps, j)
          ensures !(q == f && c in Roots(e)) && !Reads(h, h[f], e, q, c)
        {
          assert WrittenByOther(ps, j, q, c);
          var i: nat :| i < |ps| && i != j && Writes(ps[i], q, c);
          assert Unread(h, f, fields[j], ps[i]);
        }
        SimpleSteady(cx, fuel, e, f, h, OthersWrite(ps, j));
      }
    }
  }

  // ---------------------------------------------------------------- examples

  function Assigned(name: string, e: Expr): Field {
    Field(Name(name), YString(Text(e)))
  }

  /**
   Without independence the order decides: when neither a nor b is declared, the object with `a: 1`
   and `b: a` succeeds in this order and fails in the other.
   */
  lemma OrderCanMatter(cx: Ctx, fuel: nat, env: Env, f: nat, s: State)
    requires f < |s.heap| && "a" !in env && "b" !in env
    ensures var fields := [Assigned("a", Lit(CInt(1))), Assigned("b", Path("a", []))];
            && AssignFields(cx, fuel, env, f, fields, [0, 1], s).out == Done(env["a" := TInt]["b" := TInt])
            && AssignFields(cx, fuel, env, f, fields, [1, 0], s).out == Fail
  {
    var fields := [Assigned("a", Lit(CInt(1))), Assigned("b", Path("a", []))];
    var r := Res(s.(heap := Put(s.heap, f, "a", IntV(1))), Done(env["a" := TInt]));
    FirstField(cx, fuel, env, f, s);
    SecondField(cx, fuel, env["a" := TInt], f, r.s);
    FieldUnfolds(cx, fuel, env, f, fields[1], s);
    FieldsUnfold(cx, fuel, env, f, fields, [0, 1], s);
    FieldsUnfold(cx, fuel, env["a" := TInt], f, fields, [1], r.s);
    FieldsUnfold(cx, fuel, env, f, fields, [1, 0], s);
    assert [0, 1][1..] == [1] && [1][1..] == [];
  }

  lemma FirstField(cx: Ctx, fuel: nat, env: Env, f: nat, s: State)
    requires "a" !in env
    ensures AssignField(cx, fuel, env, f, Assigned("a", Lit(CInt(1))), s)
         == Res(s.(heap := Put(s.heap, f, "a", IntV(1))), Done(env["a" := TInt]))
  {
    SplitPlain("a");
    FieldUnfolds(cx, fuel, env, f, Assigned("a", Lit(CInt(1))), s);
  }

  lemma SecondField(cx: Ctx, fuel: nat, env: Env, f: nat, s: State)
    requires "a" in env && env["a"] == TInt && "b" !in env
    requires "a" in At(s.heap, f) && At(s.heap, f)["a"] == IntV(1)
    ensures AssignField(cx, fuel, env, f, Assigned("b", Path("a", [])), s)
         == Res(s.(heap := Put(s.heap, f, "b", IntV(1))), Done(env["b" := TInt]))
  {
    SplitPlain("b");
    FieldUnfolds(cx, fuel, env, f, Assigned("b", Path("a", [])), s);
  }

  /** Independence, entry by entry, for plans that are known. */
  lemma EntryByEntry(cx: Ctx, fuel: nat, env: Env, f: nat, fields: seq<Field>, h: Heap, os: seq<Option<Made>>,
                     ps: seq<Plan>)
    requires |os| == |fields| == |ps|
    requires forall j | 0 <= j < |fields| :: ps[j] == PlanOf(cx, env, f, fields[j], h, os[j])
    requires forall j: nat | j < |fields| :: EntrySteady(cx, fuel, env, f, fields[j], h, ps, j, os[j])
    requires forall j: nat | j < |fields| :: Undisturbed(h, f, fields[j], ps, j)
    ensures Independent(cx, fuel, env, f, fields, h, os)
  {
    assert Plans(cx, env, f, fields, h, os) == ps;
  }

  lemma SplitTwo(name: string, c: string)
    requires name == "a." + c && '.' !in c
    ensures SplitDots(name) == ["a", c]
  {
    assert name[1..] == "." + c && name[1..][1..] == c;
    SplitPlain(c);
    assert SplitDots(name[1..]) == ["", c];
    assert [name[0]] + "" == "a";
  }

  lemma LiteralSteady(cx: Ctx, fuel: nat, c: Const, f: nat, h: Heap, W: Slots)
    ensures Steady(cx, fuel, Lit(c), f, h, W, Some(Old(ConstVal(c))))
  {
    forall g: State | Sees(h, W, g.heap) ensures Gives(h, g, EvalExpr(cx, fuel, Lit(c), f, g), Some(Old(ConstVal(c)))) {
      GivesOld(h, g, EvalExpr(cx, fuel, Lit(c), f, g), ConstVal(c));
    }
  }

  lemma DottedPlan(cx: Ctx, env: Env, f: nat, h: Heap, name: string, c: string, i: int64)
    requires f < |h| && "a" !in h[f] && "a" !in env && SplitDots(name) == ["a", c] && !IsKeyword(name) && name != ""
    ensures PlanOf(cx, env, f, Assigned(name, Lit(CInt(i))), h, Some(Old(IntV(i))))
         == Store(f, ["a", c], map["a" := TMap])
  {
    ChainBuilt(h, f, ["a", c], NullV);
  }

  lemma DottedUndisturbed(h: Heap, f: nat, name: string, c: string, i: int64, p: Plan, other: Plan)
    requires SplitDots(name) == ["a", c] && p.Store? && p.t == f && p.rest == ["a", c] && "a" !in At(h, f)
    requires other.Store? && other.t == f && |other.rest| == 2 && other.rest[0] == "a" && other.rest[1] != c
    ensures Spared(h, f, Assigned(name, Lit(CInt(i))), p, other) && Apart(other, p)
  {
    assert ["a", c][1] == c;
  }

  lemma TwoBelow(cx: Ctx, fuel: nat, env: Env, f: nat, h: Heap, x: string, y: string, c: string, d: string)
    requires f < |h| && "a" !in h[f] && "a" !in env && !IsKeyword(x) && x != "" && !IsKeyword(y) && y != ""
    requires SplitDots(x) == ["a", c] && SplitDots(y) == ["a", d] && c != d
    ensures Independent(cx, fuel, env, f, [Assigned(x, Lit(CInt(1))), Assigned(y, Lit(CInt(2)))], h,
                        [Some(Old(IntV(1))), Some(Old(IntV(2)))])
  {
    var fields := [Assigned(x, Lit(CInt(1))), Assigned(y, Lit(CInt(2)))];
    var p0, p1 := Store(f, ["a", c], map["a" := TMap]), Store(f, ["a", d], map["a" := TMap]);
    DottedPlan(cx, env, f, h, x, c, 1);
    DottedPlan(cx, env, f, h, y, d, 2);
    LiteralSteady(cx, fuel, CInt(1), f, h, OthersWrite([p0, p1], 0));
    LiteralSteady(cx, fuel, CInt(2), f, h, OthersWrite([p0, p1], 1));
    DottedUndisturbed(h, f, x, c, 1, p0, p1);
    DottedUndisturbed(h, f, y, d, 2, p1, p0);
    EntryByEntry(cx, fuel, env, f, fields, h, [Some(Old(IntV(1))), Some(Old(IntV(2)))], [p0, p1]);
  }

  /** Two assignments may create the same map: `a.x: 1` and `a.y: 2` are independent when a is missing. */
  lemma SharedRootIndependent(cx: Ctx, fuel: nat, env: Env, f: nat, h: Heap)
    requires f < |h| && "a" !in h[f] && "a" !in env
    ensures Independent(cx, fuel, env, f, [Assigned("a.x", Lit(CInt(1))), Assigned("a.y", Lit(CInt(2)))], h,
                        [Some(Old(IntV(1))), Some(Old(IntV(2)))])
  {
    SplitTwo("a.x", "x");
    SplitTwo("a.y", "y");
    TwoBelow(cx, fuel, env, f, h, "a.x", "a.y", "x", "y");
  }

  /** The plan of a new variable. */
  lemma PlainPlan(cx: Ctx, env: Env, f: nat, h: Heap, x: string, e: Expr, made: Made)
    requires '.' !in x && x != "" && !IsKeyword(x) && x !in env && TypeOf(env, e).Some? && MadeKind(made).Some?
    ensures PlanOf(cx, env, f, Assigned(x, e), h, Some(made)) == Store(f, [x], map[x := MadeKind(made).value])
  {
    SplitPlain(x);
  }

  lemma PlainUndisturbed(h: Heap, f: nat, x: string, e: Expr, p: Plan, other: Plan)
    requires '.' !in x && x != "" && !IsKeyword(x) && p.Store? && p.t == f && p.rest == [x]
    requires other.Store? && |other.rest| == 1 && other.rest[0] != x && forall y | y in other.decl :: y !in Roots(e)
    ensures Spared(h, f, Assigned(x, e), p, other) && Apart(other, p)
  {
    SplitPlain(x);
  }

  /** A name without dots, an expression, and its outcome. */
  datatype PlainEntry = PlainEntry(x: string, e: Expr, made: Made)

  /** The slots of the frame that the entries write. */
  ghost function Targets(f: nat, pes: seq<PlainEntry>): Slots {
    iset q: nat, c: string | q == f && IsTarget(pes, c) :: (q, c)
  }

  predicate IsTarget(pes: seq<PlainEntry>, c: string) {
    exists i | 0 <= i < |pes| :: pes[i].x == c
  }

  /** The entry declares a new variable, and its expression is steady whatever is written in the slots W. */
  ghost predicate PlainSteady(cx: Ctx, fuel: nat, env: Env, f: nat, h: Heap, W: Slots, pe: PlainEntry) {
    && '.' !in pe.x && pe.x != "" && !IsKeyword(pe.x) && pe.x !in env
    && TypeOf(env, pe.e).Some? && MadeKind(pe.made).Some?
    && Steady(cx, fuel, pe.e, f, h, W, Some(pe.made))
  }

  function PlainFields(pes: seq<PlainEntry>): (fields: seq<Field>)
    ensures |fields| == |pes| && forall i | 0 <= i < |pes| :: fields[i] == Assigned(pes[i].x, pes[i].e)
  {
    seq(|pes|, i requires 0 <= i < |pes| => Assigned(pes[i].x, pes[i].e))
  }

  function PlainOutcomes(pes: seq<PlainEntry>): (os: seq<Option<Made>>)
    ensures |os| == |pes| && forall i | 0 <= i < |pes| :: os[i] == Some(pes[i].made)
  {
    seq(|pes|, i requires 0 <= i < |pes| => Some(pes[i].made))
  }

  function PlainPlans(f: nat, pes: seq<PlainEntry>): (ps: seq<Plan>)
    requires forall i | 0 <= i < |pes| :: MadeKind(pes[i].made).Some?
    ensures |ps| == |pes|
    ensures forall i | 0 <= i < |pes| ::
              ps[i] == Store(f, [pes[i].x], map[pes[i].x := MadeKind(pes[i].made).value])
  {
    seq(|pes|, i requires 0 <= i < |pes| =>
      Store(f, [pes[i].x], map[pes[i].x := MadeKind(pes[i].made).value]))
  }

  lemma SteadyFewer(cx: Ctx, fuel: nat, e: Expr, f: nat, h: Heap, W: Slots, W': Slots, o: Option<Made>)
    requires Steady(cx, fuel, e, f, h, W, o) && W' <= W
    ensures Steady(cx, fuel, e, f, h, W', o)
  {
    forall g: State | Sees(h, W', g.heap) ensures Gives(h, g, EvalExpr(cx, fuel, e, f, g), o) {
      assert Sees(h, W, g.heap);
    }
  }

  lemma OnlyTargets(f: nat, pes: seq<PlainEntry>, ps: seq<Plan>, j: nat)
    requires |ps| == |pes| && forall i | 0 <= i < |ps| :: ps[i].Store? && ps[i].t == f && ps[i].rest == [pes[i].x]
    ensures OthersWrite(ps, j) <= Targets(f, pes)
  {
    forall q: nat, c: string | (q, c) in OthersWrite(ps, j) ensures (q, c) in Targets(f, pes) {
      assert WrittenByOther(ps, j, q, c);
      var i: nat :| i < |ps| && i != j && Writes(ps[i], q, c);
      assert ps[i].Store? && ps[i].rest == [pes[i].x];
      assert [pes[i].x][0] == pes[i].x == c;
      assert IsTarget(pes, c);
    }
  }

  /**
   Assignments of different new variables are independent when their expressions are steady, whatever
   these variables are, and do not name them. The expressions may call functions and make new maps.
   */
  lemma PlainIndependent(cx: Ctx, fuel: nat, env: Env, f: nat, h: Heap, pes: seq<PlainEntry>)
    requires forall i | 0 <= i < |pes| :: PlainSteady(cx, fuel, env, f, h, Targets(f, pes), pes[i])
    requires forall i, j | 0 <= i < |pes| && 0 <= j < |pes| && i != j ::
               pes[i].x != pes[j].x && pes[i].x !in Roots(pes[j].e)
    ensures Independent(cx, fuel, env, f, PlainFields(pes), h, PlainOutcomes(pes))
  {
    assert forall i | 0 <= i < |pes| :: PlainSteady(cx, fuel, env, f, h, Targets(f, pes), pes[i])
                                        && MadeKind(pes[i].made).Some?;
    var fields, os, ps := PlainFields(pes), PlainOutcomes(pes), PlainPlans(f, pes);
    forall i | 0 <= i < |pes| ensures ps[i] == PlanOf(cx, env, f, fields[i], h, os[i]) {
      PlainPlan(cx, env, f, h, pes[i].x, pes[i].e, pes[i].made);
    }
    forall j: nat | j < |pes| ensures Undisturbed(h, f, fields[j], ps, j) {
      forall i: nat | i < |pes| && i != j ensures Spared(h, f, fields[j], ps[j], ps[i]) && Apart(ps[i], ps[j]) {
        PlainUndisturbed(h, f, pes[j].x, pes[j].e, ps[j], ps[i]);
      }
    }
    forall j: nat | j < |pes| ensures EntrySteady(cx, fuel, env, f, fields[j], h, ps, j, os[j]) {
      OnlyTargets(f, pes, ps, j);
      SteadyFewer(cx, fuel, pes[j].e, f, h, Targets(f, pes), OthersWrite(ps, j), os[j]);
    }
    EntryByEntry(cx, fuel, env, f, fields, h, os, ps);
  }

  /** For example `a: call("sum", 3)`, `b: call("sum", 5)` and `c: kabaneroConfig()` in one object. */
  lemma CallsIndependent(cx: Ctx, fuel: nat, env: Env, f: nat, h: Heap)
    requires Defined(cx) && fuel > 5 && "a" !in env && "b" !in env && "c" !in env
    ensures var config := Fresh(|h|, map["namespace" := StrV(cx.namespace_)]);
            var pes := [PlainEntry("a", SumCall(Lit(CInt(3))), Old(IntV(SumOf(3)))),
                        PlainEntry("b", SumCall(Lit(CInt(5))), Old(IntV(SumOf(5)))),
                        PlainEntry("c", KabaneroConfig, config)];
            Independent(cx, fuel, env, f, PlainFields(pes), h, PlainOutcomes(pes))
  {
    var config := Fresh(|h|, map["namespace" := StrV(cx.namespace_)]);
    var pes := [PlainEntry("a", SumCall(Lit(CInt(3))), Old(IntV(SumOf(3)))),
                PlainEntry("b", SumCall(Lit(CInt(5))), Old(IntV(SumOf(5)))), PlainEntry("c", KabaneroConfig, config)];
    SumCallTyped(env, 3);
    SumCallTyped(env, 5);
    SumSteady(cx, fuel, 3, f, h, Targets(f, pes));
    SumSteady(cx, fuel, 5, f, h, Targets(f, pes));
    ConfigSteady(cx, fuel, f, h, Targets(f, pes));
    PlainIndependent(cx, fuel, env, f, h, pes);
  }

  /** The entry `c: call(name, x)`, which prepares the message m. */
  function PrepareEntry(c: string, name: string, x: string, b: Job, n: nat, kept: GoMap, v: Val): PlainEntry {
    PlainEntry(c, Call(Lit(CString(name)), Path(x, [])), Result(b, n, kept, v))
  }

  /**
   Two calls that return nested new maps: `c: call(name, x)` and `d: call(name, y)` are independent,
   when the variables x and y hold messages that the entries do not write.
   */
  lemma NestedIndependent(cx: Ctx, fuel: nat, env: Env, f: nat, h: Heap, name: string, b: Job, c: string, d: string,
                          x: string, y: string, m: nat, hd: nat, v: Val, m': nat, hd': nat, v': Val)
    requires fuel > 0 && name in cx.functions && cx.functions[name] == Definition(b) && Usable(b)
    requires '.' !in c && c != "" && !IsKeyword(c) && c !in env && '.' !in d && d != "" && !IsKeyword(d) && d !in env
    requires c != d && x in env && y in env
    requires f < |h| && x in h[f] && h[f][x] == MapV(m) && y in h[f] && h[f][y] == MapV(m')
    requires var j, W := Setting(cx, fuel - 1, h), TwoSlots(f, c, d);
             Message(j, W, b, m, hd, v) && Message(j, W, b, m', hd', v')
    ensures var j := Setting(cx, fuel - 1, h);
            var pes := [PrepareEntry(c, name, x, b, |h|, KeptEntries(j, b.p, h[hd]), v),
                        PrepareEntry(d, name, y, b, |h|, KeptEntries(j, b.p, h[hd']), v')];
            Independent(cx, fuel, env, f, PlainFields(pes), h, PlainOutcomes(pes))
  {
    var j, W := Setting(cx, fuel - 1, h), TwoSlots(f, c, d);
    var pes := [PrepareEntry(c, name, x, b, |h|, KeptEntries(j, b.p, h[hd]), v),
                PrepareEntry(d, name, y, b, |h|, KeptEntries(j, b.p, h[hd']), v')];
    PreprocessSteady(cx, fuel, name, b, f, x, h, W, m, hd, v);
    PreprocessSteady(cx, fuel, name, b, f, y, h, W, m', hd', v');
    assert Targets(f, pes) == W by { TwoTargets(f, pes); }
    CallTyped(env, name, x);
    CallTyped(env, name, y);
    PlainIndependent(cx, fuel, env, f, h, pes);
  }

  ghost function TwoSlots(f: nat, c: string, d: string): Slots {
    iset q: nat, k: string | q == f && (k == c || k == d) :: (q, k)
  }

  lemma TwoTargets(f: nat, pes: seq<PlainEntry>)
    requires |pes| == 2
    ensures Targets(f, pes) == TwoSlots(f, pes[0].x, pes[1].x)
  {
    forall c: string ensures IsTarget(pes, c) <==> c == pes[0].x || c == pes[1].x {
    }
  }

  lemma CallTyped(env: Env, name: string, x: string)
    requires x in env
    ensures var e := Call(Lit(CString(name)), Path(x, [])); TypeOf(env, e) == Some(TAny) && Roots(e) == {x}
  {
    assert TypeOf(env, Lit(CString(name))) == Some(TString) && TypeOf(env, Path(x, [])) == Some(env[x]);
    assert Roots(Lit(CString(name))) == {} && Roots(Path(x, [])) == {x};
  }

  lemma SumCallTyped(env: Env, n: int64)
    ensures TypeOf(env, SumCall(Lit(CInt(n)))) == Some(TAny) && Roots(SumCall(Lit(CInt(n)))) == {}
  {
    assert TypeOf(env, Lit(CInt(n))) == Some(TInt) && TypeOf(env, Lit(CString("sum"))) == Some(TString);
    assert Roots(Lit(CInt(n))) == {} && Roots(Lit(CString("sum"))) == {};
  }
}
