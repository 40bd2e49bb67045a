/** What the assignments of one object write, and the maps after some of them. */
module Planning {
  import opened Text
  import opened Values
  import opened Syntax
  import opened Semantics
  import opened Ownership
  import opened Scoping
  import opened DottedAssignment
  import opened Purity
  import opened Steadiness
  import opened Addresses

  // Each assignment of an object has a plan: which map it reaches, what is missing there, and what it
  // declares. When no assignment walks through what another writes, and no target is a prefix of
  // another, the maps after some of the assignments depend only on which they are: they are described
  // by addresses, whatever the order was.

  // ---------------------------------------------------------------- plans

  /** What an entry does when it is visited first; `decl` is what it declares. */
  datatype Plan =
    | Skip
    | Bad
    | Store(t: nat, rest: seq<string>, decl: Env)

  /** The entry is an assignment with an expression that parses. */
  predicate Assigns(fld: Field) {
    && fld.key.Name? && !IsKeyword(fld.key.name) && fld.key.name != ""
    && IsText(fld.value) && fld.value.text.Text?
  }

  function MadeKind(made: Made): Option<Ty> {
    KindOf(made.v)
  }

  /** The plan of an entry whose expression has the outcome o. */
  function PlanOf(cx: Ctx, env: Env, f: nat, fld: Field, h: Heap, o: Option<Made>): Plan {
    if fld.key.NonString? then Bad
    else if IsKeyword(fld.key.name) then Skip
    else if !IsText(fld.value) then Bad
    else if fld.key.name == "" then Skip
    else if !fld.value.text.Text? || TypeOf(env, fld.value.text.e).None? || o.None? then Bad
    else StorePlan(cx, env, f, SplitDots(fld.key.name), MadeKind(o.value), h)
  }

  /** Whether the walk succeeds does not depend on the value. */
  predicate WalkSucceeds(h: Heap, r: nat, names: seq<string>)
    requires |names| >= 1
  {
    AssignAt(h, r, names, NullV).Some?
  }

  /** The plan of storing a value of the given kind. */
  function StorePlan(cx: Ctx, env: Env, f: nat, names: seq<string>, kind: Option<Ty>, h: Heap): Plan
    requires |names| >= 1
  {
    if |names| == 1 then
      if kind.None? || Extend(cx, env, names[0], kind.value).None? then Bad
      else Store(f, names, map[names[0] := kind.value])
    else if !WalkSucceeds(h, f, names) then Bad
    else if names[0] in At(h, f) then Store(Anchor(h, f, names), Missing(h, f, names), map[])
    else if Extend(cx, env, names[0], TMap).None? then Bad
    else Store(f, names, map[names[0] := TMap])
  }

  /** The walk along names looks at slot (q, c), the last slot included. */
  predicate Touches(h: Heap, r: nat, names: seq<string>, q: nat, c: string)
    requires |names| >= 1
    decreases |names|
  {
    || (r == q && names[0] == c)
    || (|names| >= 2 && names[0] in At(h, r) && At(h, r)[names[0]].MapV?
        && Touches(h, At(h, r)[names[0]].ref, names[1..], q, c))
  }

  /** The one slot of an old map that an entry writes. */
  predicate Writes(p: Plan, q: nat, c: string) {
    p.Store? && p.rest != [] && p.t == q && p.rest[0] == c
  }

  /** An entry with this plan neither names what another declares nor walks through what it writes. */
  ghost predicate Spared(h: Heap, f: nat, fld: Field, plan: Plan, other: Plan) {
    && (Assigns(fld) && other.Store? ==> forall x | x in other.decl :: x !in Roots(fld.value.text.e))
    && (fld.key.Name? && plan.Store? ==>
          forall q, c | Writes(other, q, c) :: !UsesSlot(h, f, SplitDots(fld.key.name), q, c))
    && (fld.key.Name? && plan.Bad? ==>
          forall q, c | Writes(other, q, c) :: !Touches(h, f, SplitDots(fld.key.name), q, c))
  }

  /** Neither target is a prefix of the other. */
  predicate Apart(a: Plan, b: Plan) {
    a.Store? && b.Store? && a.t == b.t ==> !(a.rest <= b.rest) && !(b.rest <= a.rest)
  }

  ghost predicate WrittenByOther(ps: seq<Plan>, j: nat, q: nat, c: string) {
    exists i: nat :: i < |ps| && i != j && Writes(ps[i], q, c)
  }

  /** The slots that the entries other than j write. */
  ghost function OthersWrite(ps: seq<Plan>, j: nat): Slots {
    iset q: nat, c: string | WrittenByOther(ps, j, q, c) :: (q, c)
  }

  ghost function Plans(cx: Ctx, env: Env, f: nat, fields: seq<Field>, h: Heap, os: seq<Option<Made>>): (ps: seq<Plan>)
    requires |os| == |fields|
    ensures |ps| == |fields| && forall i | 0 <= i < |ps| :: ps[i] == PlanOf(cx, env, f, fields[i], h, os[i])
  {
    seq(|fields|, i requires 0 <= i < |fields| => PlanOf(cx, env, f, fields[i], h, os[i]))
  }

  /** Entry j does not depend on the others. */
  ghost predicate Undisturbed(h: Heap, f: nat, fld: Field, ps: seq<Plan>, j: nat)
    requires j < |ps|
  {
    forall i: nat | i < |ps| && i != j :: Spared(h, f, fld, ps[j], ps[i]) && Apart(ps[i], ps[j])
  }

  // ---------------------------------------------------------------- after some entries

  ghost predicate Executed(ps: seq<Plan>, D: set<nat>, i: nat) {
    i in D && i < |ps| && ps[i].Store? && |ps[i].rest| >= 1
  }

  /** Entry i of D has stored value v at address a; ws are the values of the entries. */
  ghost predicate StoredBy(ps: seq<Plan>, ws: seq<Val>, D: set<nat>, a: Addr, i: nat, v: Val) {
    Executed(ps, D, i) && i < |ws| && a == Addr(ps[i].t, ps[i].rest) && v == ws[i]
  }

  /** Entry i of D has created the map at address a, on its way. */
  ghost predicate MadeBy(ps: seq<Plan>, D: set<nat>, a: Addr, i: nat) {
    Executed(ps, D, i) && a.q == ps[i].t && 0 < |a.ns| < |ps[i].rest| && a.ns <= ps[i].rest
  }

  /** L and N are what the entries D have stored and created. */
  ghost predicate Covers(ps: seq<Plan>, ws: seq<Val>, D: set<nat>, L: Leaves, N: Nodes) {
    && (forall a | a in L :: exists i: nat :: StoredBy(ps, ws, D, a, i, L[a]))
    && (forall a, i: nat, v | StoredBy(ps, ws, D, a, i, v) :: a in L && L[a] == v)
    && (forall a | a in N :: exists i: nat :: MadeBy(ps, D, a, i))
    && (forall a, i: nat | MadeBy(ps, D, a, i) :: a in N)
  }

  /** e is env with the declarations of the entries D. */
  ghost predicate Declares(env: Env, ps: seq<Plan>, D: set<nat>, e: Env) {
    && (forall x | x in e :: x in env || exists i: nat :: Executed(ps, D, i) && x in ps[i].decl)
    && (forall x | x in env :: x in e)
    && (forall i: nat, x: string | Executed(ps, D, i) && x in ps[i].decl :: x in e && e[x] == ps[i].decl[x])
    && (forall x | x in env && (forall i: nat | Executed(ps, D, i) :: x !in ps[i].decl) :: e[x] == env[x])
  }

  /** The plans are well shaped. */
  ghost predicate Shaped(h: Heap, f: nat, p: Plan) {
    p.Store? ==>
      && p.t < |h| && |p.rest| >= 1
      && (|p.rest| >= 2 ==> p.rest[0] !in h[p.t])
      && (forall x | x in p.decl :: p.t == f && p.rest[0] == x && (|p.rest| >= 2 ==> p.decl[x] == TMap))
      && (p.t == f ==> p.rest[0] in p.decl)
  }

  lemma {:induction false} MissingShape(h: Heap, r: nat, names: seq<string>, v: Val)
    requires |names| >= 1 && WellFormed(h) && r < |h| && AssignAt(h, r, names, v).Some?
    ensures Anchor(h, r, names) < |h|
    ensures |Missing(h, r, names)| >= 2 ==> Missing(h, r, names)[0] !in h[Anchor(h, r, names)]
    decreases |names|
  {
    if |names| >= 2 && names[0] in At(h, r) {
      assert MapIn(h[r], All(), |h|);
      MissingShape(h, At(h, r)[names[0]].ref, names[1..], v);
    }
  }

  /** A walk that leaves the frame does not come back to it. */
  lemma {:induction false} NeverBack(h: Heap, r: nat, names: seq<string>, f: nat)
    requires |names| >= 1 && Sealed(h, AllBut(f), f) && r < |h| && r != f
    ensures Anchor(h, r, names) != f
    decreases |names|
  {
    if |names| >= 2 && names[0] in At(h, r) && At(h, r)[names[0]].MapV? {
      assert MapIn(h[r], AllBut(f), |h|);
      NeverBack(h, At(h, r)[names[0]].ref, names[1..], f);
    }
  }

  lemma {:induction false} AnyValue(h: Heap, r: nat, names: seq<string>, v: Val)
    requires |names| >= 1
    ensures AssignAt(h, r, names, v).Some? <==> WalkSucceeds(h, r, names)
    decreases |names|
  {
    if |names| >= 2 {
      if names[0] !in At(h, r) {
        AnyValue(Put(h, r, names[0], MapV(|h|)) + [map[]], |h|, names[1..], v);
      } else if At(h, r)[names[0]].MapV? {
        AnyValue(h, At(h, r)[names[0]].ref, names[1..], v);
      }
    }
  }

  lemma StorePlanShaped(cx: Ctx, env: Env, f: nat, names: seq<string>, kind: Option<Ty>, h: Heap)
    requires |names| >= 1 && WellFormed(h) && Sealed(h, AllBut(f), f)
    ensures Shaped(h, f, StorePlan(cx, env, f, names, kind, h))
  {
    if WalkSucceeds(h, f, names) {
      MissingShape(h, f, names, NullV);
      if |names| >= 2 && names[0] in h[f] {
        assert MapIn(h[f], AllBut(f), |h|);
        NeverBack(h, h[f][names[0]].ref, names[1..], f);
      }
    }
  }

  lemma PlanTarget(cx: Ctx, env: Env, f: nat, names: seq<string>, kind: Option<Ty>, h: Heap)
    requires |names| >= 1
    ensures var p := StorePlan(cx, env, f, names, kind, h);
            p.Store? ==> p.t == Anchor(h, f, names) && p.rest == Missing(h, f, names)
  {
  }

  lemma PlanShaped(cx: Ctx, env: Env, f: nat, fld: Field, h: Heap, o: Option<Made>)
    requires WellFormed(h) && Sealed(h, AllBut(f), f)
    ensures Shaped(h, f, PlanOf(cx, env, f, fld, h, o))
  {
    if Assigns(fld) && o.Some? { StorePlanShaped(cx, env, f, SplitDots(fld.key.name), MadeKind(o.value), h); }
  }

  // ---------------------------------------------------------------- what an entry sees

  /** Slot (q, c) is written by none of the entries D. */
  ghost predicate Clean(ps: seq<Plan>, D: set<nat>, q: nat, c: string) {
    forall i: nat | Executed(ps, D, i) :: !Writes(ps[i], q, c)
  }

  lemma SlotWritten(ps: seq<Plan>, ws: seq<Val>, D: set<nat>, L: Leaves, N: Nodes, q: nat, c: string)
    requires Covers(ps, ws, D, L, N) && (Addr(q, [c]) in L || Addr(q, [c]) in N)
    ensures !Clean(ps, D, q, c)
  {
    var a := Addr(q, [c]);
    if a in L {
      var i: nat :| StoredBy(ps, ws, D, a, i, L[a]);
      assert ps[i].rest[0] == c;
    } else {
      var i: nat :| MadeBy(ps, D, a, i);
      assert ps[i].rest[0] == a.ns[0] == c;
    }
  }

  lemma CleanSame(h: Heap, ps: seq<Plan>, ws: seq<Val>, D: set<nat>, L: Leaves, N: Nodes, back: map<nat, Addr>, g: Heap,
                  q: nat, c: string)
    requires Layout(h, L, N, back, g) && Covers(ps, ws, D, L, N) && q < |h|
    requires Clean(ps, D, q, c)
    ensures c in g[q] <==> c in h[q]
    ensures c in h[q] ==> g[q][c] == h[q][c]
  {
    assert OldSlot(h, L, N, g, q, c);
    if Addr(q, [c]) in L || Addr(q, [c]) in N { SlotWritten(ps, ws, D, L, N, q, c); }
  }

  /** The situation in which an entry is visited after the entries D. */
  ghost predicate After(h: Heap, f: nat, ps: seq<Plan>, ws: seq<Val>, D: set<nat>, L: Leaves, N: Nodes,
                        back: map<nat, Addr>, g: Heap) {
    && WellFormed(h) && f < |h| && Layout(h, L, N, back, g) && Covers(ps, ws, D, L, N)
    && |ws| == |ps| && (forall i | 0 <= i < |ws| :: ValIn(ws[i], All(), |h|))
    && forall i | 0 <= i < |ps| :: Shaped(h, f, ps[i])
  }

  /** What entry j sees has been changed by other entries only. */
  lemma AfterSees(h: Heap, f: nat, ps: seq<Plan>, ws: seq<Val>, D: set<nat>, L: Leaves, N: Nodes, back: map<nat, Addr>,
                  g: Heap, j: nat)
    requires After(h, f, ps, ws, D, L, N, back, g) && j !in D
    ensures Sees(h, OthersWrite(ps, j), g)
  {
    var W := OthersWrite(ps, j);
    forall q: nat, c: string | q < |h| && (q, c) !in W
      ensures (c in g[q] <==> c in h[q]) && (c in h[q] ==> g[q][c] == h[q][c])
    {
      assert !WrittenByOther(ps, j, q, c);
      assert Clean(ps, D, q, c);
      CleanSame(h, ps, ws, D, L, N, back, g, q, c);
    }
  }

  /** The environments agree on what e names. */
  ghost predicate SameTypes(env: Env, env': Env, e: Expr) {
    forall x | x in Roots(e) :: (x in env' <==> x in env) && (x in env ==> env'[x] == env[x])
  }

  lemma {:induction false} TypeStable(env: Env, env': Env, e: Expr)
    requires SameTypes(env, env', e)
    ensures TypeOf(env', e) == TypeOf(env, e)
    decreases e
  {
    match e
    case Lit(_) =>
    case Path(root, fields) => assert root in Roots(e);
    case Not(a) => TypeStable(env, env', a);
    case And(l, r) => TypesStable(env, env', e, l, r);
    case Bin(_, l, r) => TypesStable(env, env', e, l, r);
    case KabaneroConfig =>
    case Call(c, p) => TypesStable(env, env', e, c, p);
    case Filter(c, _) => TypeStable(env, env', c);
    case SendEvent(d, m, c) => TypesStable(env, env', e, d, m); TypesStable(env, env', e, d, c);
    case ApplyResources(d, v) => TypesStable(env, env', e, d, v);
  }

  lemma {:induction false} TypesStable(env: Env, env': Env, e: Expr, l: Expr, r: Expr)
    requires l < e && r < e && SameTypes(env, env', l) && SameTypes(env, env', r)
    ensures TypeOf(env', l) == TypeOf(env, l) && TypeOf(env', r) == TypeOf(env, r)
    decreases e, 0
  {
    TypeStable(env, env', l);
    TypeStable(env, env', r);
  }

  /** The walk reaches the same map, and continues there with the same components. */
  lemma {:induction false} WalkStable(h: Heap, W: Slots, g: Heap, r: nat, names: seq<string>, v: Val)
    requires Sees(h, W, g) && WellFormed(h) && |names| >= 1 && r < |h|
    requires forall q: nat, c: string | (q, c) in W :: !UsesSlot(h, r, names, q, c)
    ensures AssignAt(g, r, names, v) == AssignAt(g, Anchor(h, r, names), Missing(h, r, names), v)
    decreases |names|
  {
    if |names| >= 2 && names[0] in At(h, r) && At(h, r)[names[0]].MapV? {
      assert (r, names[0]) !in W;
      assert MapIn(h[r], All(), |h|);
      WalkStable(h, W, g, At(h, r)[names[0]].ref, names[1..], v);
    }
  }

  /** A walk that fails still fails. */
  lemma {:induction false} FailStable(h: Heap, W: Slots, g: Heap, r: nat, names: seq<string>, v: Val)
    requires Sees(h, W, g) && WellFormed(h) && |names| >= 1 && r < |h|
    requires forall q: nat, c: string | (q, c) in W :: !Touches(h, r, names, q, c)
    requires AssignAt(h, r, names, v).None?
    ensures AssignAt(g, r, names, v).None?
    decreases |names|
  {
    assert (r, names[0]) !in W;
    if names[0] !in h[r] {
      ChainBuilt(h, r, names, v);
    } else if h[r][names[0]].MapV? {
      assert MapIn(h[r], All(), |h|);
      FailStable(h, W, g, h[r][names[0]].ref, names[1..], v);
    }
  }

  // ---------------------------------------------------------------- one more entry

  /** The target of entry j is not yet taken. */
  lemma TargetFree(ps: seq<Plan>, ws: seq<Val>, D: set<nat>, L: Leaves, N: Nodes, j: nat)
    requires Covers(ps, ws, D, L, N) && j < |ps| && ps[j].Store?
    requires forall i: nat | Executed(ps, D, i) :: Apart(ps[i], ps[j])
    ensures Addr(ps[j].t, ps[j].rest) !in N && Open(L, ps[j].t, ps[j].rest, 0)
  {
    var t, rest := ps[j].t, ps[j].rest;
    assert forall i: nat :: !MadeBy(ps, D, Addr(t, rest), i);
    forall m: nat | 0 < m < |rest|
      ensures Addr(t, rest[..m]) !in L
    {
      assert rest[..m] <= rest;
      NoLeaf(ps, ws, D, L, N, j, Addr(t, rest[..m]));
    }
  }

  lemma NoLeaf(ps: seq<Plan>, ws: seq<Val>, D: set<nat>, L: Leaves, N: Nodes, j: nat, a: Addr)
    requires Covers(ps, ws, D, L, N) && j < |ps| && ps[j].Store?
    requires forall i: nat | Executed(ps, D, i) :: Apart(ps[i], ps[j])
    requires a.q == ps[j].t && a.ns <= ps[j].rest
    ensures a !in L
  {
    if a in L { LeafTarget(ps, ws, D, L, N, a); }
  }

  lemma LeafTarget(ps: seq<Plan>, ws: seq<Val>, D: set<nat>, L: Leaves, N: Nodes, a: Addr)
    requires Covers(ps, ws, D, L, N) && a in L
    ensures exists i: nat :: Executed(ps, D, i) && a == Addr(ps[i].t, ps[i].rest)
  {
    var i: nat :| StoredBy(ps, ws, D, a, i, L[a]);
  }

  /** Entry j adds its value at its target. */
  lemma LeavesCover(ps: seq<Plan>, ws: seq<Val>, D: set<nat>, L: Leaves, N: Nodes, j: nat, a: Addr)
    requires Covers(ps, ws, D, L, N) && j < |ps| == |ws| && ps[j].Store? && |ps[j].rest| >= 1
    requires forall i: nat | Executed(ps, D, i) :: Apart(ps[i], ps[j])
    ensures var L' := L[Addr(ps[j].t, ps[j].rest) := ws[j]];
            && (a in L' ==> exists i: nat :: StoredBy(ps, ws, D + {j}, a, i, L'[a]))
            && (forall i: nat, v | StoredBy(ps, ws, D + {j}, a, i, v) :: a in L' && L'[a] == v)
  {
    var D', b := D + {j}, Addr(ps[j].t, ps[j].rest);
    var L' := L[b := ws[j]];
    forall i: nat, v | StoredBy(ps, ws, D', a, i, v)
      ensures a in L' && L'[a] == v
    {
      if i != j { assert StoredBy(ps, ws, D, a, i, v); }
    }
    if a == b {
      assert StoredBy(ps, ws, D', a, j, L'[a]);
    } else if a in L {
      var i: nat :| StoredBy(ps, ws, D, a, i, L[a]);
      assert StoredBy(ps, ws, D', a, i, L'[a]);
    }
  }

  lemma NodesCover(ps: seq<Plan>, ws: seq<Val>, D: set<nat>, L: Leaves, N: Nodes, j: nat, N': Nodes)
    requires Covers(ps, ws, D, L, N) && j < |ps| == |ws| && ps[j].Store? && |ps[j].rest| >= 1
    requires N'.Keys == N.Keys + Between(ps[j].t, ps[j].rest, 0)
    ensures forall a | a in N' :: exists i: nat :: MadeBy(ps, D + {j}, a, i)
    ensures forall a, i: nat | MadeBy(ps, D + {j}, a, i) :: a in N'
  {
    var D' := D + {j};
    forall a, i: nat | MadeBy(ps, D', a, i)
      ensures a in N'
    {
      if i == j {
        assert a == Addr(ps[j].t, ps[j].rest[..|a.ns|]);
      } else {
        assert MadeBy(ps, D, a, i);
      }
    }
    forall a | a in N'
      ensures exists i: nat :: MadeBy(ps, D', a, i)
    {
      if a in N {
        var i: nat :| MadeBy(ps, D, a, i);
        assert MadeBy(ps, D', a, i);
      } else {
        assert MadeBy(ps, D', a, j);
      }
    }
  }

  lemma StoreCovers(ps: seq<Plan>, ws: seq<Val>, D: set<nat>, L: Leaves, N: Nodes, j: nat, N': Nodes)
    requires Covers(ps, ws, D, L, N) && j < |ps| == |ws| && ps[j].Store? && |ps[j].rest| >= 1
    requires N'.Keys == N.Keys + Between(ps[j].t, ps[j].rest, 0)
    requires forall i: nat | Executed(ps, D, i) :: Apart(ps[i], ps[j])
    ensures Covers(ps, ws, D + {j}, L[Addr(ps[j].t, ps[j].rest) := ws[j]], N')
  {
    var L' := L[Addr(ps[j].t, ps[j].rest) := ws[j]];
    forall a | a in L' ensures exists i: nat :: StoredBy(ps, ws, D + {j}, a, i, L'[a]) {
      LeavesCover(ps, ws, D, L, N, j, a);
    }
    forall a, i: nat, v | StoredBy(ps, ws, D + {j}, a, i, v) ensures a in L' && L'[a] == v {
      LeavesCover(ps, ws, D, L, N, j, a);
    }
    NodesCover(ps, ws, D, L, N, j, N');
  }

  /** The environment after storing v under names, when the maps are g. */
  function StoredEnv(cx: Ctx, env: Env, f: nat, names: seq<string>, v: Val, g: Heap): Option<Env>
    requires |names| >= 1
  {
    if |names| == 1 then
      if KindOf(v).None? then None else Extend(cx, env, names[0], KindOf(v).value)
    else if names[0] in At(g, f) then Some(env)
    else Extend(cx, env, names[0], TMap)
  }

  lemma CreateUnfolds(cx: Ctx, env: Env, f: nat, name: string, v: Val, s: State)
    ensures var names := SplitDots(name);
            var e, g := StoredEnv(cx, env, f, names, v, s.heap), AssignAt(s.heap, f, names, v);
            CreateVariable(cx, env, f, name, v, s)
            == if e.Some? && g.Some? then Res(s.(heap := g.value), Done(e.value)) else Res(s, Fail)
  {
  }

  /** Declaring one name more, one that no earlier entry declares. */
  lemma DeclaresNew(env: Env, ps: seq<Plan>, D: set<nat>, e: Env, j: nat, x: string, ty: Ty)
    requires Declares(env, ps, D, e) && Executed(ps, D + {j}, j) && ps[j].decl == map[x := ty]
    requires forall i: nat | Executed(ps, D, i) :: x !in ps[i].decl
    ensures Declares(env, ps, D + {j}, e[x := ty])
  {
    var D' := D + {j};
    forall i: nat | Executed(ps, D', i) && i != j ensures Executed(ps, D, i) {}
    forall i: nat | Executed(ps, D, i) ensures Executed(ps, D', i) {}
  }

  /** Declaring nothing that is not declared. */
  lemma DeclaresSame(env: Env, ps: seq<Plan>, D: set<nat>, e: Env, j: nat)
    requires Declares(env, ps, D, e) && Executed(ps, D + {j}, j)
    requires forall x | x in ps[j].decl :: x in e && e[x] == ps[j].decl[x]
    ensures Declares(env, ps, D + {j}, e)
  {
    var D' := D + {j};
    forall i: nat | Executed(ps, D', i) && i != j ensures Executed(ps, D, i) {}
    forall i: nat | Executed(ps, D, i) ensures Executed(ps, D', i) {}
  }

  lemma RootWritten(ps: seq<Plan>, D: set<nat>, f: nat, i: nat, x: string)
    requires Executed(ps, D, i) && ps[i].t == f && ps[i].rest[0] == x && |ps[i].rest| >= 2
    ensures MadeBy(ps, D, Addr(f, [x]), i)
  {
    assert [x] <= ps[i].rest;
  }

  /** No earlier entry writes the root that entry j declares, unless both walk through it. */
  lemma RootDeclared(h: Heap, f: nat, ps: seq<Plan>, ws: seq<Val>, D: set<nat>, L: Leaves, N: Nodes,
                     back: map<nat, Addr>, g: Heap, i: nat, j: nat, x: string)
    requires After(h, f, ps, ws, D, L, N, back, g) && Executed(ps, D, i) && j < |ps| && ps[j].Store?
    requires Apart(ps[i], ps[j]) && ps[j].t == f && |ps[j].rest| >= 1 && ps[j].rest[0] == x
    requires x in ps[i].decl
    ensures |ps[j].rest| >= 2 && |ps[i].rest| >= 2 && ps[i].t == f && ps[i].rest[0] == x
    ensures ps[i].decl[x] == TMap && x in g[f]
  {
    assert Shaped(h, f, ps[i]);
    RootWritten(ps, D, f, i, x);
    assert OldSlot(h, L, N, g, f, x);
  }

  lemma StoreSingle(cx: Ctx, env: Env, env': Env, h: Heap, f: nat, ps: seq<Plan>, ws: seq<Val>, D: set<nat>, L: Leaves,
                    N: Nodes, back: map<nat, Addr>, g: Heap, j: nat, x: string, kind: Option<Ty>, v: Val)
    requires After(h, f, ps, ws, D, L, N, back, g) && Declares(env, ps, D, env') && j < |ps|
    requires ps[j] == StorePlan(cx, env, f, [x], kind, h) && ps[j].Store? && KindOf(v) == kind
    requires forall i: nat | Executed(ps, D, i) :: Apart(ps[i], ps[j])
    ensures var e := StoredEnv(cx, env', f, [x], v, g); e.Some? && Declares(env, ps, D + {j}, e.value)
  {
    forall i: nat | Executed(ps, D, i) ensures x !in ps[i].decl {
      if x in ps[i].decl { RootDeclared(h, f, ps, ws, D, L, N, back, g, i, j, x); }
    }
    DeclaresNew(env, ps, D, env', j, x, KindOf(v).value);
  }

  lemma NodeCreator(ps: seq<Plan>, ws: seq<Val>, D: set<nat>, L: Leaves, N: Nodes, f: nat, x: string) returns (i: nat)
    requires Covers(ps, ws, D, L, N) && Addr(f, [x]) in N
    ensures Executed(ps, D, i) && ps[i].t == f && [x] <= ps[i].rest
  {
    i :| MadeBy(ps, D, Addr(f, [x]), i);
  }

  /** A root that only earlier entries have created is declared as a map. */
  lemma RootCreated(env: Env, env': Env, h: Heap, f: nat, ps: seq<Plan>, ws: seq<Val>, D: set<nat>, L: Leaves, N: Nodes,
                    back: map<nat, Addr>, g: Heap, j: nat, x: string)
    requires After(h, f, ps, ws, D, L, N, back, g) && Declares(env, ps, D, env') && j < |ps| && ps[j].Store?
    requires forall i: nat | Executed(ps, D, i) :: Apart(ps[i], ps[j])
    requires ps[j].t == f && [x] <= ps[j].rest && x !in h[f] && x in g[f]
    ensures x in env' && env'[x] == TMap
  {
    NoLeaf(ps, ws, D, L, N, j, Addr(f, [x]));
    assert OldSlot(h, L, N, g, f, x);
    var i := NodeCreator(ps, ws, D, L, N, f, x);
    assert Shaped(h, f, ps[i]) && x == ps[i].rest[0];
  }

  lemma StoreFresh(cx: Ctx, env: Env, env': Env, h: Heap, f: nat, ps: seq<Plan>, ws: seq<Val>, D: set<nat>, L: Leaves,
                   N: Nodes, back: map<nat, Addr>, g: Heap, j: nat, names: seq<string>, kind: Option<Ty>, v: Val)
    requires After(h, f, ps, ws, D, L, N, back, g) && Declares(env, ps, D, env') && j < |ps|
    requires |names| >= 2 && names[0] !in h[f]
    requires ps[j] == StorePlan(cx, env, f, names, kind, h) && ps[j].Store? && KindOf(v) == kind
    requires forall i: nat | Executed(ps, D, i) :: Apart(ps[i], ps[j])
    ensures var e := StoredEnv(cx, env', f, names, v, g); e.Some? && Declares(env, ps, D + {j}, e.value)
  {
    var x := names[0];
    if x in g[f] {
      assert [x] <= names;
      RootCreated(env, env', h, f, ps, ws, D, L, N, back, g, j, x);
      DeclaresSame(env, ps, D, env', j);
    } else {
      forall i: nat | Executed(ps, D, i) ensures x !in ps[i].decl {
        if x in ps[i].decl { RootDeclared(h, f, ps, ws, D, L, N, back, g, i, j, x); }
      }
      DeclaresNew(env, ps, D, env', j, x, TMap);
    }
  }

  lemma StoreKnown(cx: Ctx, env: Env, env': Env, h: Heap, f: nat, ps: seq<Plan>, ws: seq<Val>, D: set<nat>, L: Leaves,
                   N: Nodes, back: map<nat, Addr>, g: Heap, j: nat, names: seq<string>, kind: Option<Ty>, v: Val)
    requires After(h, f, ps, ws, D, L, N, back, g) && Declares(env, ps, D, env') && j < |ps|
    requires |names| >= 2 && names[0] in h[f]
    requires ps[j] == StorePlan(cx, env, f, names, kind, h) && ps[j].Store? && KindOf(v) == kind
    requires Clean(ps, D, f, names[0])
    ensures var e := StoredEnv(cx, env', f, names, v, g); e.Some? && Declares(env, ps, D + {j}, e.value)
  {
    CleanSame(h, ps, ws, D, L, N, back, g, f, names[0]);
    DeclaresSame(env, ps, D, env', j);
  }

  lemma StoreEnv(cx: Ctx, env: Env, env': Env, h: Heap, f: nat, ps: seq<Plan>, ws: seq<Val>, D: set<nat>, L: Leaves,
                 N: Nodes, back: map<nat, Addr>, g: Heap, j: nat, names: seq<string>, kind: Option<Ty>, v: Val)
    requires After(h, f, ps, ws, D, L, N, back, g) && Declares(env, ps, D, env') && j < |ps|
    requires |names| >= 1 && ps[j] == StorePlan(cx, env, f, names, kind, h) && ps[j].Store?
    requires KindOf(v) == kind
    requires forall i: nat | Executed(ps, D, i) :: Apart(ps[i], ps[j])
    requires |names| >= 2 && names[0] in h[f] ==> Clean(ps, D, f, names[0])
    ensures var e := StoredEnv(cx, env', f, names, v, g); e.Some? && Declares(env, ps, D + {j}, e.value)
  {
    if |names| == 1 {
      assert names == [names[0]];
      StoreSingle(cx, env, env', h, f, ps, ws, D, L, N, back, g, j, names[0], kind, v);
    } else if names[0] in h[f] {
      StoreKnown(cx, env, env', h, f, ps, ws, D, L, N, back, g, j, names, kind, v);
    } else {
      StoreFresh(cx, env, env', h, f, ps, ws, D, L, N, back, g, j, names, kind, v);
    }
  }

  /** One more entry, in the maps g after the entries D. */
  lemma StoreHeap(cx: Ctx, env: Env, h: Heap, f: nat, ps: seq<Plan>, ws: seq<Val>, D: set<nat>, L: Leaves, N: Nodes,
                  back: map<nat, Addr>, g: Heap, j: nat, names: seq<string>, kind: Option<Ty>)
      returns (L': Leaves, N': Nodes, back': map<nat, Addr>)
    requires After(h, f, ps, ws, D, L, N, back, g) && j < |ps| && j !in D
    requires |names| >= 1 && ps[j] == StorePlan(cx, env, f, names, kind, h) && ps[j].Store?
    requires forall i: nat | Executed(ps, D, i) :: Apart(ps[i], ps[j])
    requires forall q: nat, c: string | (q, c) in OthersWrite(ps, j) :: !UsesSlot(h, f, names, q, c)
    ensures AssignAt(g, f, names, ws[j]).Some?
    ensures After(h, f, ps, ws, D + {j}, L', N', back', AssignAt(g, f, names, ws[j]).value)
  {
    PlanTarget(cx, env, f, names, kind, h);
    var t, rest := ps[j].t, ps[j].rest;
    AfterSees(h, f, ps, ws, D, L, N, back, g, j);
    WalkStable(h, OthersWrite(ps, j), g, f, names, ws[j]);
    TargetFree(ps, ws, D, L, N, j);
    assert Shaped(h, f, ps[j]);
    assert rest[..0] == [] && rest[0..] == rest;
    N', back' := Insert(h, L, N, back, g, t, rest, 0, t, ws[j]);
    L' := L[Addr(t, rest) := ws[j]];
    StoreCovers(ps, ws, D, L, N, j, N');
  }
}
