/** Several assignments in one object, visited in any order. */
module OrderIndependence {
  import opened Text
  import opened Values
  import opened Syntax
  import opened Semantics
  import opened Ownership
  import opened Scoping
  import opened DottedAssignment
  import opened Renaming
  import opened Messages
  import opened Purity
  import opened Steadiness
  import opened NewMaps
  import opened Addresses
  import opened Planning

  // The entries of an object are independent when no entry writes what another evaluates or walks
  // through, and no target is a prefix of another. Then all orders agree: the same success or failure,
  // the same declarations, and the same maps up to the identity of new ones. The expressions may call
  // functions, and their values may come with new maps that refer to each other in any way; the
  // targets may share a prefix that does not exist yet.
  //
  // Every run is compared with an imagined one, in which the new maps of all expressions are there from
  // the start and the same assignments store them. What an imagined run leaves depends on the set of
  // assignments only, so the runs of two orders correspond.

  // ---------------------------------------------------------------- independence

  /** The expression of entry j, if it is evaluated at all, has its outcome whatever the others write. */
  ghost predicate EntrySteady(cx: Ctx, fuel: nat, env: Env, f: nat, fld: Field, h: Heap, ps: seq<Plan>, j: nat,
                              o: Option<Made>) {
    Assigns(fld) && TypeOf(env, fld.value.text.e).Some? ==>
      Steady(cx, fuel, fld.value.text.e, f, h, OthersWrite(ps, j), o)
  }

  /** No entry depends on what another writes; os are the outcomes of the expressions. */
  ghost predicate Independent(cx: Ctx, fuel: nat, env: Env, f: nat, fields: seq<Field>, h: Heap,
                              os: seq<Option<Made>>) {
    && |os| == |fields|
    && var ps := Plans(cx, env, f, fields, h, os);
       forall j: nat | j < |fields| ::
         EntrySteady(cx, fuel, env, f, fields[j], h, ps, j, os[j]) && Undisturbed(h, f, fields[j], ps, j)
  }

  // ---------------------------------------------------------------- the imagined heap

  /**
   What is compared: the object, the outcomes of its expressions, the plans of its entries, the heap hc
   in which the new maps of outcome j stand from starts[j] on, and the values ws there.
   */
  datatype Scene = Scene(env: Env, f: nat, fields: seq<Field>, h: Heap, os: seq<Option<Made>>, ps: seq<Plan>,
                         starts: seq<nat>, hc: Heap, ws: seq<Val>)

  ghost predicate Staged(cx: Ctx, sc: Scene) {
    && WellFormed(sc.h) && Sealed(sc.h, AllBut(sc.f), sc.f) && |sc.os| == |sc.fields|
    && sc.ps == Plans(cx, sc.env, sc.f, sc.fields, sc.h, sc.os) && Laid(sc.h, sc.os, sc.starts, sc.hc)
    && |sc.ws| == |sc.os| && forall j | 0 <= j < |sc.ws| :: sc.ws[j] == Imagined(|sc.h|, sc.os[j], sc.starts[j])
  }

  /** A walk from an old map is the same when there are more maps. */
  lemma {:induction false} WalkSame(h: Heap, hc: Heap, r: nat, names: seq<string>)
    requires |names| >= 1 && WellFormed(h) && h <= hc && r < |h|
    ensures Anchor(hc, r, names) == Anchor(h, r, names) && Missing(hc, r, names) == Missing(h, r, names)
    ensures WalkSucceeds(hc, r, names) == WalkSucceeds(h, r, names)
    decreases |names|
  {
    assert hc[r] == h[r];
    if |names| >= 2 && names[0] in h[r] {
      if h[r][names[0]].MapV? {
        assert MapIn(h[r], All(), |h|);
        WalkSame(h, hc, h[r][names[0]].ref, names[1..]);
      }
    } else {
      ChainBuilt(h, r, names, NullV);
      ChainBuilt(hc, r, names, NullV);
    }
  }

  lemma {:induction false} SlotsSame(h: Heap, hc: Heap, r: nat, names: seq<string>, q: nat, c: string)
    requires |names| >= 1 && WellFormed(h) && h <= hc && r < |h|
    ensures UsesSlot(hc, r, names, q, c) == UsesSlot(h, r, names, q, c)
    ensures Touches(hc, r, names, q, c) == Touches(h, r, names, q, c)
    decreases |names|
  {
    assert hc[r] == h[r];
    if |names| >= 2 && names[0] in h[r] && h[r][names[0]].MapV? {
      assert MapIn(h[r], All(), |h|);
      SlotsSame(h, hc, h[r][names[0]].ref, names[1..], q, c);
    }
  }

  lemma SamePlan(cx: Ctx, env: Env, f: nat, names: seq<string>, kind: Option<Ty>, h: Heap, hc: Heap)
    requires |names| >= 1 && WellFormed(h) && h <= hc && f < |h|
    ensures StorePlan(cx, env, f, names, kind, hc) == StorePlan(cx, env, f, names, kind, h)
  {
    WalkSame(h, hc, f, names);
  }

  lemma SameUndisturbed(h: Heap, hc: Heap, f: nat, fld: Field, ps: seq<Plan>, j: nat)
    requires WellFormed(h) && h <= hc && f < |h| && j < |ps| && Undisturbed(h, f, fld, ps, j)
    ensures Undisturbed(hc, f, fld, ps, j)
  {
    forall i: nat | i < |ps| && i != j ensures Spared(hc, f, fld, ps[j], ps[i]) && Apart(ps[i], ps[j]) {
      assert Spared(h, f, fld, ps[j], ps[i]);
      forall q: nat, c: string | fld.key.Name?
        ensures var names := SplitDots(fld.key.name);
                UsesSlot(hc, f, names, q, c) == UsesSlot(h, f, names, q, c)
                && Touches(hc, f, names, q, c) == Touches(h, f, names, q, c)
      {
        SlotsSame(h, hc, f, SplitDots(fld.key.name), q, c);
      }
    }
  }

  lemma ImaginedIn(h: Heap, os: seq<Option<Made>>, starts: seq<nat>, hc: Heap, j: nat)
    requires Laid(h, os, starts, hc) && j < |os| && (os[j].Some? ==> MadeIn(os[j].value, |h|))
    ensures ValIn(Imagined(|h|, os[j], starts[j]), All(), |hc|)
    ensures os[j].Some? ==> KindOf(Imagined(|h|, os[j], starts[j])) == MadeKind(os[j].value)
  {
    if os[j].Some? { ShiftedIn(os[j].value.v, |h|, starts[j] - |h|, |os[j].value.ms|, |hc|); }
  }

  /** No assignment writes the imagined maps. */
  lemma ChunkKept(sc: Scene, D: set<nat>, L: Leaves, N: Nodes, back: map<nat, Addr>, g: Heap, j: nat)
    requires After(sc.hc, sc.f, sc.ps, sc.ws, D, L, N, back, g) && Laid(sc.h, sc.os, sc.starts, sc.hc)
    requires forall i | 0 <= i < |sc.ps| && sc.ps[i].Store? :: sc.ps[i].t < |sc.h|
    requires j < |sc.os| && sc.os[j].Some?
    ensures ChunkAt(|sc.h|, sc.os[j].value, sc.starts[j], g)
  {
    assert ChunkAt(|sc.h|, sc.os[j].value, sc.starts[j], sc.hc);
    forall q: nat | |sc.h| <= q < |sc.hc| ensures g[q] == sc.hc[q] {
      forall c: string ensures (c in g[q] <==> c in sc.hc[q]) && (c in sc.hc[q] ==> g[q][c] == sc.hc[q][c]) {
        CleanSame(sc.hc, sc.ps, sc.ws, D, L, N, back, g, q, c);
      }
    }
  }

  // ---------------------------------------------------------------- one entry

  /** The imagined run after some entries, and how the run corresponds to it. */
  datatype View = View(L: Leaves, N: Nodes, back: map<nat, Addr>, g: Heap, p: Ren)

  /** The situation after the entries D, with the environment e and the maps g. */
  ghost predicate Visited(sc: Scene, D: set<nat>, w: View, e: Env, g: Heap) {
    && |sc.starts| == |sc.os|
    && After(sc.hc, sc.f, sc.ps, sc.ws, D, w.L, w.N, w.back, w.g) && Declares(sc.env, sc.ps, D, e)
    && Linked(sc.h, sc.os, sc.starts, D, w.p, w.g, g)
  }

  lemma FieldUnfolds(cx: Ctx, fuel: nat, env: Env, f: nat, fld: Field, s: State)
    requires Assigns(fld)
    ensures AssignField(cx, fuel, env, f, fld, s)
         == if TypeOf(env, fld.value.text.e).None? then Res(s, Fail)
            else StoreResult(cx, env, f, fld.key.name, EvalExpr(cx, fuel, fld.value.text.e, f, s))
  {
  }

  lemma OtherFields(cx: Ctx, fuel: nat, env: Env, env': Env, f: nat, fld: Field, s: State, h: Heap, o: Option<Made>)
    requires !Assigns(fld)
    ensures var p := PlanOf(cx, env, f, fld, h, o);
            && !p.Store?
            && AssignField(cx, fuel, env', f, fld, s) == if p.Bad? then Res(s, Fail) else Res(s, Done(env'))
  {
  }

  lemma TypeUndisturbed(h: Heap, f: nat, env: Env, env': Env, fld: Field, ps: seq<Plan>, D: set<nat>, j: nat)
    requires Declares(env, ps, D, env') && Assigns(fld) && j < |ps| && j !in D && Undisturbed(h, f, fld, ps, j)
    ensures TypeOf(env', fld.value.text.e) == TypeOf(env, fld.value.text.e)
  {
    forall i: nat, x: string | Executed(ps, D, i) && x in ps[i].decl ensures x !in Roots(fld.value.text.e) {
      assert Spared(h, f, fld, ps[j], ps[i]);
    }
    TypeStable(env, env', fld.value.text.e);
  }

  /** The walk of entry j does not go through what the others write. */
  lemma WalkSpared(h: Heap, f: nat, fld: Field, ps: seq<Plan>, D: set<nat>, j: nat)
    requires Assigns(fld) && j < |ps| && j !in D && Undisturbed(h, f, fld, ps, j) && ps[j].Store?
    ensures forall i: nat | Executed(ps, D, i) :: Apart(ps[i], ps[j])
    ensures forall q: nat, c: string | (q, c) in OthersWrite(ps, j) :: !UsesSlot(h, f, SplitDots(fld.key.name), q, c)
    ensures var names := SplitDots(fld.key.name);
            |names| >= 2 && names[0] in At(h, f) && At(h, f)[names[0]].MapV? ==> Clean(ps, D, f, names[0])
  {
    var names := SplitDots(fld.key.name);
    forall q: nat, c: string | (q, c) in OthersWrite(ps, j) ensures !UsesSlot(h, f, names, q, c) {
      assert WrittenByOther(ps, j, q, c);
      var i: nat :| i < |ps| && i != j && Writes(ps[i], q, c);
      assert Spared(h, f, fld, ps[j], ps[i]);
    }
    if |names| >= 2 && names[0] in At(h, f) && At(h, f)[names[0]].MapV? {
      forall i: nat | Executed(ps, D, i) ensures !Writes(ps[i], f, names[0]) {
        assert Spared(h, f, fld, ps[j], ps[i]);
        assert UsesSlot(h, f, names, f, names[0]);
      }
    }
  }

  /** What entry j sees in a run has been changed by other entries only. */
  lemma RunSees(cx: Ctx, sc: Scene, D: set<nat>, w: View, e: Env, g: Heap, j: nat)
    requires Staged(cx, sc) && Visited(sc, D, w, e, g) && j !in D
    ensures Sees(sc.h, OthersWrite(sc.ps, j), g)
  {
    AfterSees(sc.hc, sc.f, sc.ps, sc.ws, D, w.L, w.N, w.back, w.g, j);
    SeesLinked(sc.h, OthersWrite(sc.ps, j), sc.hc, w.p, w.g, g);
  }

  lemma TargetsOld(cx: Ctx, sc: Scene)
    requires Staged(cx, sc)
    ensures forall i | 0 <= i < |sc.ps| && sc.ps[i].Store? :: sc.ps[i].t < |sc.h|
  {
    forall i | 0 <= i < |sc.ps| && sc.ps[i].Store? ensures sc.ps[i].t < |sc.h| {
      PlanShaped(cx, sc.env, sc.f, sc.fields[i], sc.h, sc.os[i]);
    }
  }

  /** The imagined assignment of entry j. */
  lemma Imagine(cx: Ctx, sc: Scene, D: set<nat>, w: View, e: Env, j: nat, s: State)
      returns (L': Leaves, N': Nodes, back': map<nat, Addr>)
    requires Staged(cx, sc) && j < |sc.ps| && j !in D && sc.ps[j].Store?
    requires After(sc.hc, sc.f, sc.ps, sc.ws, D, w.L, w.N, w.back, w.g) && Declares(sc.env, sc.ps, D, e)
    requires sc.os[j].Some? && MadeIn(sc.os[j].value, |sc.h|) && Undisturbed(sc.h, sc.f, sc.fields[j], sc.ps, j)
    requires Assigns(sc.fields[j]) && s.heap == w.g
    ensures var r := CreateVariable(cx, e, sc.f, sc.fields[j].key.name, sc.ws[j], s);
            && r.out.Done? && Declares(sc.env, sc.ps, D + {j}, r.out.value)
            && After(sc.hc, sc.f, sc.ps, sc.ws, D + {j}, L', N', back', r.s.heap)
  {
    var fld, kind := sc.fields[j], MadeKind(sc.os[j].value);
    var names := SplitDots(fld.key.name);
    ImaginedIn(sc.h, sc.os, sc.starts, sc.hc, j);
    SamePlan(cx, sc.env, sc.f, names, kind, sc.h, sc.hc);
    SameUndisturbed(sc.h, sc.hc, sc.f, fld, sc.ps, j);
    WalkSpared(sc.hc, sc.f, fld, sc.ps, D, j);
    KnownRootIsMap(cx, sc.env, sc.f, names, kind, sc.hc);
    L', N', back' := StoreHeap(cx, sc.env, sc.hc, sc.f, sc.ps, sc.ws, D, w.L, w.N, w.back, w.g, j, names, kind);
    StoreEnv(cx, sc.env, e, sc.hc, sc.f, sc.ps, sc.ws, D, w.L, w.N, w.back, w.g, j, names, kind, sc.ws[j]);
    CreateUnfolds(cx, e, sc.f, fld.key.name, sc.ws[j], s);
  }

  lemma KnownRootIsMap(cx: Ctx, env: Env, f: nat, names: seq<string>, kind: Option<Ty>, h: Heap)
    requires |names| >= 1 && StorePlan(cx, env, f, names, kind, h).Store?
    ensures |names| >= 2 && names[0] in At(h, f) ==> At(h, f)[names[0]].MapV?
  {
  }

  /** After entry j, its outcome has been used and the others are as before. */
  lemma LinkedNext(sc: Scene, D: set<nat>, p: Ren, q: Ren, q': Ren, gv: Heap, g: Heap, gv': Heap, g': Heap, j: nat)
    requires Laid(sc.h, sc.os, sc.starts, sc.hc) && j < |sc.os| && |sc.hc| <= |gv|
    requires Linked(sc.h, sc.os, sc.starts, D, p, gv, g) && RelHeap(q', gv', g')
    requires Extends(p, q) && forall a | a in q.to :: a in p.to || sc.starts[j] <= a < sc.starts[j] + Size(sc.os[j])
    requires Extends(q, q') && AddsFrom(q, q', |gv|)
    ensures Linked(sc.h, sc.os, sc.starts, D + {j}, q', gv', g')
  {
    forall i: nat | i < |sc.os| && i !in D + {j} ensures Unlinked(q', sc.starts[i], Size(sc.os[i])) {
      assert Unlinked(p, sc.starts[i], Size(sc.os[i]));
    }
  }

  /** The value of entry j corresponds to the imagined one. */
  lemma LinkValue(sc: Scene, D: set<nat>, p: Ren, gv: Heap, j: nat, s: State, x: Res<Val>) returns (q: Ren)
    requires |sc.starts| == |sc.os| && j < |sc.os| && j !in D && Linked(sc.h, sc.os, sc.starts, D, p, gv, s.heap)
    requires sc.os[j].Some? && Gives(sc.h, s, x, sc.os[j]) && ChunkAt(|sc.h|, sc.os[j].value, sc.starts[j], gv)
    ensures RelHeap(q, gv, x.s.heap) && Extends(p, q)
    ensures RelVal(q, Imagined(|sc.h|, sc.os[j], sc.starts[j]), x.out.value)
    ensures forall a | a in q.to :: a in p.to || sc.starts[j] <= a < sc.starts[j] + Size(sc.os[j])
  {
    var made := sc.os[j].value;
    var k :| MadeAt(|sc.h|, made, |s.heap|, x.s.heap, x.out.value, k);
    assert Unlinked(p, sc.starts[j], Size(sc.os[j]));
    q := LinkChunk(p, gv, s.heap, x.s.heap, |sc.h|, made, x.out.value, sc.starts[j], k);
  }

  lemma FrameLinked(sc: Scene, D: set<nat>, w: View, e: Env, g: Heap)
    requires Visited(sc, D, w, e, g) && sc.f < |sc.h|
    ensures Framed(w.p, sc.f, sc.f)
  {
  }

  /** The run stores the value, and the imagined run stores the imagined one. */
  lemma StoreBoth(cx: Ctx, sc: Scene, p: Ren, e: Env, name: string, g: Heap, v: Val, w: Val, s: State)
      returns (q: Ren)
    requires RelHeap(p, g, s.heap) && RelVal(p, v, w) && Framed(p, sc.f, sc.f)
    ensures var r, r' := CreateVariable(cx, e, sc.f, name, v, s.(heap := g)), CreateVariable(cx, e, sc.f, name, w, s);
            && r.out == r'.out && RelHeap(q, r.s.heap, r'.s.heap) && Extends(p, q) && AddsFrom(p, q, |g|)
            && r'.s.trace == s.trace
  {
    q := RelCreate(cx, e, p, sc.f, sc.f, name, v, w, s.(heap := g), s);
    CreateTrace(cx, e, sc.f, name, w, s);
  }

  /** Storing the value of entry j, when its expression has been evaluated. */
  lemma StoreLinked(cx: Ctx, sc: Scene, D: set<nat>, w: View, e: Env, j: nat, s: State, x: Res<Val>) returns (w': View)
    requires Staged(cx, sc) && Visited(sc, D, w, e, s.heap) && j < |sc.ps| && j !in D && sc.ps[j].Store?
    requires Assigns(sc.fields[j]) && Undisturbed(sc.h, sc.f, sc.fields[j], sc.ps, j)
    requires sc.os[j].Some? && Gives(sc.h, s, x, sc.os[j])
    ensures var r := CreateVariable(cx, e, sc.f, sc.fields[j].key.name, x.out.value, x.s);
            r.out.Done? && r.s.trace == s.trace && Visited(sc, D + {j}, w', r.out.value, r.s.heap)
  {
    TargetsOld(cx, sc);
    ChunkKept(sc, D, w.L, w.N, w.back, w.g, j);
    var q := LinkValue(sc, D, w.p, w.g, j, s, x);
    FrameLinked(sc, D, w, e, s.heap);
    w' := StoreImagined(cx, sc, D, w, e, j, s.heap, q, x.out.value, x.s);
    CreateTrace(cx, e, sc.f, sc.fields[j].key.name, x.out.value, x.s);
  }

  lemma StoreImagined(cx: Ctx, sc: Scene, D: set<nat>, w: View, e: Env, j: nat, g: Heap, q: Ren, v: Val, t: State)
      returns (w': View)
    requires Staged(cx, sc) && Visited(sc, D, w, e, g) && j < |sc.ps| && j !in D && sc.ps[j].Store?
    requires Assigns(sc.fields[j]) && Undisturbed(sc.h, sc.f, sc.fields[j], sc.ps, j)
    requires sc.os[j].Some? && MadeIn(sc.os[j].value, |sc.h|)
    requires RelHeap(q, w.g, t.heap) && Extends(w.p, q) && RelVal(q, sc.ws[j], v) && Framed(q, sc.f, sc.f)
    requires forall a | a in q.to :: a in w.p.to || sc.starts[j] <= a < sc.starts[j] + Size(sc.os[j])
    ensures var r := CreateVariable(cx, e, sc.f, sc.fields[j].key.name, v, t);
            r.out.Done? && Visited(sc, D + {j}, w', r.out.value, r.s.heap)
  {
    var name, sv := sc.fields[j].key.name, t.(heap := w.g);
    var L', N', back' := Imagine(cx, sc, D, w, e, j, sv);
    var q' := StoreBoth(cx, sc, q, e, name, w.g, sc.ws[j], v, t);
    var r, r' := CreateVariable(cx, e, sc.f, name, sc.ws[j], sv), CreateVariable(cx, e, sc.f, name, v, t);
    w' := View(L', N', back', r.s.heap, q');
    LinkedNext(sc, D, w.p, q, q', w.g, g, r.s.heap, r'.s.heap, j);
  }

  lemma CreateTrace(cx: Ctx, env: Env, f: nat, name: string, v: Val, s: State)
    ensures CreateVariable(cx, env, f, name, v, s).s.trace == s.trace
  {
  }

  lemma FieldStored(cx: Ctx, fuel: nat, sc: Scene, D: set<nat>, w: View, e: Env, j: nat, s: State) returns (w': View)
    requires Staged(cx, sc) && Visited(sc, D, w, e, s.heap) && j < |sc.ps| && j !in D && sc.ps[j].Store?
    requires EntrySteady(cx, fuel, sc.env, sc.f, sc.fields[j], sc.h, sc.ps, j, sc.os[j])
    requires Undisturbed(sc.h, sc.f, sc.fields[j], sc.ps, j)
    ensures var r := AssignField(cx, fuel, e, sc.f, sc.fields[j], s);
            r.out.Done? && r.s.trace == s.trace && Visited(sc, D + {j}, w', r.out.value, r.s.heap)
  {
    var fld := sc.fields[j];
    var x := EvalExpr(cx, fuel, fld.value.text.e, sc.f, s);
    RunSees(cx, sc, D, w, e, s.heap, j);
    SteadyRun(cx, fuel, fld.value.text.e, sc.f, sc.h, OthersWrite(sc.ps, j), sc.os[j], s);
    TypeUndisturbed(sc.h, sc.f, sc.env, e, fld, sc.ps, D, j);
    w' := StoreLinked(cx, sc, D, w, e, j, s, x);
    FieldUnfolds(cx, fuel, e, sc.f, fld, s);
  }

  lemma StoreFails(cx: Ctx, env: Env, env': Env, h: Heap, f: nat, ps: seq<Plan>, D: set<nat>, W: Slots, g: Heap,
                   names: seq<string>, v: Val, kind: Option<Ty>)
    requires Declares(env, ps, D, env') && |names| >= 1 && KindOf(v) == kind
    requires WellFormed(h) && f < |h| && Sees(h, W, g)
    requires StorePlan(cx, env, f, names, kind, h).Bad?
    requires forall q: nat, c: string | (q, c) in W :: !Touches(h, f, names, q, c)
    ensures StoredEnv(cx, env', f, names, v, g).None? || AssignAt(g, f, names, v).None?
  {
    if |names| >= 2 {
      assert Touches(h, f, names, f, names[0]);
      assert (f, names[0]) !in W;
      AnyValue(h, f, names, v);
      if AssignAt(h, f, names, v).None? { FailStable(h, W, g, f, names, v); }
    }
  }

  lemma FailSpared(h: Heap, f: nat, fld: Field, ps: seq<Plan>, j: nat)
    requires Assigns(fld) && j < |ps| && Undisturbed(h, f, fld, ps, j) && ps[j].Bad?
    ensures forall q: nat, c: string | (q, c) in OthersWrite(ps, j) :: !Touches(h, f, SplitDots(fld.key.name), q, c)
  {
    forall q: nat, c: string | (q, c) in OthersWrite(ps, j) ensures !Touches(h, f, SplitDots(fld.key.name), q, c) {
      assert WrittenByOther(ps, j, q, c);
      var i: nat :| i < |ps| && i != j && Writes(ps[i], q, c);
      assert Spared(h, f, fld, ps[j], ps[i]);
    }
  }

  /** A value with new maps has the kind of the made value. */
  lemma GivenKind(h: Heap, g: State, x: Res<Val>, o: Option<Made>)
    requires Gives(h, g, x, o)
    ensures o.Some? <==> x.out.Done?
    ensures o.Some? ==> KindOf(x.out.value) == MadeKind(o.value)
    ensures o.None? ==> x.out.Fail?
  {
    if o.Some? {
      var k :| MadeAt(|h|, o.value, |g.heap|, x.s.heap, x.out.value, k);
      RelKind(Placed(|h|, k), o.value.v, x.out.value);
    }
  }

  lemma FieldFails(cx: Ctx, fuel: nat, sc: Scene, D: set<nat>, w: View, e: Env, j: nat, s: State)
    requires Staged(cx, sc) && Visited(sc, D, w, e, s.heap) && j < |sc.ps| && j !in D && sc.ps[j].Bad?
    requires EntrySteady(cx, fuel, sc.env, sc.f, sc.fields[j], sc.h, sc.ps, j, sc.os[j])
    requires Undisturbed(sc.h, sc.f, sc.fields[j], sc.ps, j)
    ensures AssignField(cx, fuel, e, sc.f, sc.fields[j], s).out == Fail
  {
    var fld, o := sc.fields[j], sc.os[j];
    if Assigns(fld) {
      TypeUndisturbed(sc.h, sc.f, sc.env, e, fld, sc.ps, D, j);
      FieldUnfolds(cx, fuel, e, sc.f, fld, s);
      if TypeOf(sc.env, fld.value.text.e).Some? {
        var x := EvalExpr(cx, fuel, fld.value.text.e, sc.f, s);
        RunSees(cx, sc, D, w, e, s.heap, j);
        SteadyRun(cx, fuel, fld.value.text.e, sc.f, sc.h, OthersWrite(sc.ps, j), o, s);
        GivenKind(sc.h, s, x, o);
        if o.Some? { StoringFails(cx, sc, D, w, e, j, s, x); }
      }
    } else {
      OtherFields(cx, fuel, sc.env, e, sc.f, fld, s, sc.h, o);
    }
  }

  lemma StoringFails(cx: Ctx, sc: Scene, D: set<nat>, w: View, e: Env, j: nat, s: State, x: Res<Val>)
    requires Staged(cx, sc) && Visited(sc, D, w, e, s.heap) && j < |sc.ps| && j !in D && sc.ps[j].Bad?
    requires Assigns(sc.fields[j]) && Undisturbed(sc.h, sc.f, sc.fields[j], sc.ps, j)
    requires TypeOf(sc.env, sc.fields[j].value.text.e).Some?
    requires sc.os[j].Some? && Gives(sc.h, s, x, sc.os[j])
    ensures CreateVariable(cx, e, sc.f, sc.fields[j].key.name, x.out.value, x.s).out.Fail?
  {
    var fld, W := sc.fields[j], OthersWrite(sc.ps, j);
    GivenKind(sc.h, s, x, sc.os[j]);
    RunSees(cx, sc, D, w, e, s.heap, j);
    SeesMore(sc.h, W, s.heap, x.s.heap);
    FailSpared(sc.h, sc.f, fld, sc.ps, j);
    StoreFails(cx, sc.env, e, sc.h, sc.f, sc.ps, D, W, x.s.heap, SplitDots(fld.key.name), x.out.value,
               MadeKind(sc.os[j].value));
    CreateUnfolds(cx, e, sc.f, fld.key.name, x.out.value, x.s);
  }

  // ---------------------------------------------------------------- all entries

  ghost function Stores(ps: seq<Plan>, order: seq<nat>): set<nat> {
    set i | i in order && i < |ps| && ps[i].Store?
  }

  ghost predicate AnyBad(ps: seq<Plan>, order: seq<nat>) {
    exists i :: i in order && i < |ps| && ps[i].Bad?
  }

  lemma FirstAndRest(ps: seq<Plan>, order: seq<nat>)
    requires order != [] && (forall i | i in order :: i < |ps|) && NoDuplicates(order)
    ensures order[0] in order && order[0] < |ps|
    ensures forall i | i in order[1..] :: i in order && i < |ps| && i != order[0]
    ensures NoDuplicates(order[1..])
    ensures Stores(ps, order) == Stores(ps, order[1..]) + if ps[order[0]].Store? then {order[0]} else {}
    ensures AnyBad(ps, order) <==> ps[order[0]].Bad? || AnyBad(ps, order[1..])
  {
    assert order == [order[0]] + order[1..];
    assert order[0] in order;
    forall i | i in order[1..] ensures i in order && i != order[0] {
      var k :| 0 <= k < |order[1..]| && order[1..][k] == i;
      assert order[k + 1] == i;
    }
  }

  lemma SkipField(cx: Ctx, fuel: nat, env: Env, env': Env, f: nat, fld: Field, s: State, h: Heap, o: Option<Made>)
    requires PlanOf(cx, env, f, fld, h, o).Skip?
    ensures AssignField(cx, fuel, env', f, fld, s) == Res(s, Done(env'))
  {
    if !Assigns(fld) { OtherFields(cx, fuel, env, env', f, fld, s, h, o); }
  }

  lemma FieldsUnfold(cx: Ctx, fuel: nat, env: Env, f: nat, fields: seq<Field>, order: seq<nat>, s: State)
    requires order != [] && forall i | i in order :: i < |fields|
    ensures order[0] in order && forall i | i in order[1..] :: i in order
    ensures var r := AssignField(cx, fuel, env, f, fields[order[0]], s);
            AssignFields(cx, fuel, env, f, fields, order, s)
            == if r.out.Done? then AssignFields(cx, fuel, r.out.value, f, fields, order[1..], r.s) else r
  {
    assert order[0] in order && forall i | i in order[1..] :: i in order;
  }

  /** One entry after the entries D. */
  lemma Visit(cx: Ctx, fuel: nat, sc: Scene, D: set<nat>, w: View, e: Env, j: nat, s: State) returns (w': View)
    requires Staged(cx, sc) && Visited(sc, D, w, e, s.heap) && j < |sc.ps| && j !in D
    requires Independent(cx, fuel, sc.env, sc.f, sc.fields, sc.h, sc.os)
    ensures var r := AssignField(cx, fuel, e, sc.f, sc.fields[j], s);
            if sc.ps[j].Bad? then r.out == Fail
            else
              && r.out.Done? && r.s.trace == s.trace
              && Visited(sc, D + if sc.ps[j].Store? then {j} else {}, w', r.out.value, r.s.heap)
  {
    w' := w;
    if sc.ps[j].Bad? {
      FieldFails(cx, fuel, sc, D, w, e, j, s);
    } else if sc.ps[j].Store? {
      w' := FieldStored(cx, fuel, sc, D, w, e, j, s);
    } else {
      SkipField(cx, fuel, sc.env, e, sc.f, sc.fields[j], s, sc.h, sc.os[j]);
      assert D + {} == D;
    }
  }

  /** The entries of `order` after the entries D. */
  lemma {:induction false} RunOrder(cx: Ctx, fuel: nat, sc: Scene, D: set<nat>, w: View, e: Env, order: seq<nat>,
                                    s: State) returns (w': View)
    requires Staged(cx, sc) && Visited(sc, D, w, e, s.heap)
    requires Independent(cx, fuel, sc.env, sc.f, sc.fields, sc.h, sc.os)
    requires NoDuplicates(order) && forall i | i in order :: i < |sc.fields| && i !in D
    ensures var r := AssignFields(cx, fuel, e, sc.f, sc.fields, order, s);
            if AnyBad(sc.ps, order) then r.out == Fail
            else
              && r.out.Done? && r.s.trace == s.trace
              && Visited(sc, D + Stores(sc.ps, order), w', r.out.value, r.s.heap)
    decreases |order|
  {
    w' := w;
    if order == [] {
      assert D + Stores(sc.ps, order) == D;
    } else {
      FirstAndRest(sc.ps, order);
      FieldsUnfold(cx, fuel, e, sc.f, sc.fields, order, s);
      var j, rest := order[0], order[1..];
      w' := Visit(cx, fuel, sc, D, w, e, j, s);
      var r := AssignField(cx, fuel, e, sc.f, sc.fields[j], s);
      if !sc.ps[j].Bad? {
        var D' := D + if sc.ps[j].Store? then {j} else {};
        w' := RunOrder(cx, fuel, sc, D', w', r.out.value, rest, r.s);
        assert D' + Stores(sc.ps, rest) == D + Stores(sc.ps, order);
      }
    }
  }

  // ---------------------------------------------------------------- the same maps

  lemma SameEnv(env: Env, ps: seq<Plan>, D: set<nat>, e1: Env, e2: Env)
    requires Declares(env, ps, D, e1) && Declares(env, ps, D, e2)
    ensures e1 == e2
  {
    forall x | x in e1 || x in e2 ensures x in e1 && x in e2 && e1[x] == e2[x] {
      if i: nat :| Executed(ps, D, i) && x in ps[i].decl {
        assert e1[x] == ps[i].decl[x];
      } else {
        assert x in env && e1[x] == env[x];
      }
    }
  }

  lemma LeavesWithin(ps: seq<Plan>, ws: seq<Val>, D: set<nat>, L1: Leaves, N1: Nodes, L2: Leaves, N2: Nodes)
    requires Covers(ps, ws, D, L1, N1) && Covers(ps, ws, D, L2, N2)
    ensures forall a | a in L1 :: a in L2 && L1[a] == L2[a]
  {
    forall a | a in L1 ensures a in L2 && L1[a] == L2[a] {
      var i: nat :| StoredBy(ps, ws, D, a, i, L1[a]);
    }
  }

  lemma NodesWithin(ps: seq<Plan>, ws: seq<Val>, D: set<nat>, L1: Leaves, N1: Nodes, L2: Leaves, N2: Nodes)
    requires Covers(ps, ws, D, L1, N1) && Covers(ps, ws, D, L2, N2)
    ensures N1.Keys <= N2.Keys
  {
    forall a | a in N1 ensures a in N2 {
      var i: nat :| MadeBy(ps, D, a, i);
    }
  }

  lemma SameContents(ps: seq<Plan>, ws: seq<Val>, D: set<nat>, L1: Leaves, N1: Nodes, L2: Leaves, N2: Nodes)
    requires Covers(ps, ws, D, L1, N1) && Covers(ps, ws, D, L2, N2)
    ensures L1 == L2 && N1.Keys == N2.Keys
  {
    LeavesWithin(ps, ws, D, L1, N1, L2, N2);
    LeavesWithin(ps, ws, D, L2, N2, L1, N1);
    NodesWithin(ps, ws, D, L1, N1, L2, N2);
    NodesWithin(ps, ws, D, L2, N2, L1, N1);
  }

  predicate IsNew(N: Nodes, back: map<nat, Addr>, r: nat) {
    r in back && back[r] in N && N[back[r]] == r
  }

  /** Old references stand for themselves; a new one stands for the one at the same address. */
  function Relocate(n: nat, N1: Nodes, back1: map<nat, Addr>, N2: Nodes, back2: map<nat, Addr>): Ren
    requires N1.Keys == N2.Keys
  {
    var same := map r: nat | 0 <= r < n && IsRef(r) :: r;
    Ren(same + (map r | r in back1 && n <= r && IsNew(N1, back1, r) :: N2[back1[r]]),
        same + (map r | r in back2 && n <= r && IsNew(N2, back2, r) :: N1[back2[r]]))
  }

  /** Two descriptions of maps that differ only in the references of new maps. */
  ghost predicate Twins(h: Heap, L: Leaves, N1: Nodes, back1: map<nat, Addr>, g1: Heap, N2: Nodes,
                        back2: map<nat, Addr>, g2: Heap) {
    && WellFormed(h) && N1.Keys == N2.Keys && (forall a | a in L :: ValIn(L[a], All(), |h|))
    && Layout(h, L, N1, back1, g1) && Layout(h, L, N2, back2, g2)
  }

  lemma RelocateFacts(h: Heap, L: Leaves, N1: Nodes, back1: map<nat, Addr>, g1: Heap, N2: Nodes,
                      back2: map<nat, Addr>, g2: Heap)
    requires Twins(h, L, N1, back1, g1, N2, back2, g2)
    ensures var p := Relocate(|h|, N1, back1, N2, back2);
            && OneToOne(p)
            && (forall r: nat | r < |h| :: r in p.to && p.to[r] == r)
            && (forall a | a in N1 :: N1[a] in p.to && p.to[N1[a]] == N2[a])
            && (forall r | r in p.to :: r < |h| || exists a :: a in N1 && r == N1[a])
  {
    var p := Relocate(|h|, N1, back1, N2, back2);
    forall r: nat | r < |h| ensures r in p.to && p.to[r] == r && r in p.from && p.from[r] == r {
      assert IsRef(r);
    }
    forall a | a in N1 ensures N1[a] in p.to && p.to[N1[a]] == N2[a] {
      assert IsNew(N1, back1, N1[a]);
    }
    forall r | r in p.to && |h| <= r
      ensures (exists a :: a in N1 && r == N1[a]) && p.to[r] in p.from && p.from[p.to[r]] == r
    {
      var a := back1[r];
      assert a in N1 && a in N2 && r == N1[a];
      assert IsNew(N2, back2, N2[a]);
    }
  }

  lemma OldValue(h: Heap, p: Ren, v: Val)
    requires ValIn(v, All(), |h|) && forall r: nat | r < |h| :: r in p.to && p.to[r] == r
    ensures RelVal(p, v, v)
  {
    forall r: nat | Mentions(v, r) ensures r in p.to && p.to[r] == r { MentionedIn(v, |h|, r); }
    SelfRelated(v, p);
  }

  lemma TwinOld(h: Heap, L: Leaves, N1: Nodes, back1: map<nat, Addr>, g1: Heap, N2: Nodes, back2: map<nat, Addr>,
                g2: Heap, p: Ren, q: nat)
    requires Twins(h, L, N1, back1, g1, N2, back2, g2) && q < |h|
    requires forall r: nat | r < |h| :: r in p.to && p.to[r] == r
    requires forall a | a in N1 :: N1[a] in p.to && p.to[N1[a]] == N2[a]
    ensures RelMap(p, g1[q], g2[q])
  {
    forall c: string
      ensures c in g1[q] <==> c in g2[q]
      ensures c in g1[q] ==> RelVal(p, g1[q][c], g2[q][c])
    {
      assert OldSlot(h, L, N1, g1, q, c) && OldSlot(h, L, N2, g2, q, c);
      var a := Addr(q, [c]);
      if a in L {
        OldValue(h, p, L[a]);
      } else if a !in N1 && c in h[q] {
        assert MapIn(h[q], All(), |h|);
        OldValue(h, p, h[q][c]);
      }
    }
  }

  lemma TwinNew(h: Heap, L: Leaves, N1: Nodes, back1: map<nat, Addr>, g1: Heap, N2: Nodes, back2: map<nat, Addr>,
                g2: Heap, p: Ren, a: Addr)
    requires Twins(h, L, N1, back1, g1, N2, back2, g2) && a in N1
    requires forall r: nat | r < |h| :: r in p.to && p.to[r] == r
    requires forall b | b in N1 :: N1[b] in p.to && p.to[N1[b]] == N2[b]
    ensures RelMap(p, g1[N1[a]], g2[N2[a]])
  {
    forall c: string
      ensures c in g1[N1[a]] <==> c in g2[N2[a]]
      ensures c in g1[N1[a]] ==> RelVal(p, g1[N1[a]][c], g2[N2[a]][c])
    {
      assert NewSlot(L, N1, g1, a, c) && NewSlot(L, N2, g2, a, c);
      var b := Addr(a.q, a.ns + [c]);
      if b in L { OldValue(h, p, L[b]); }
    }
  }

  /** Heaps with the same description correspond, and the maps that were there stay in place. */
  lemma TwinsCorrespond(h: Heap, L: Leaves, N1: Nodes, back1: map<nat, Addr>, g1: Heap, N2: Nodes,
                        back2: map<nat, Addr>, g2: Heap) returns (p: Ren)
    requires Twins(h, L, N1, back1, g1, N2, back2, g2)
    ensures RelHeap(p, g1, g2) && forall r: nat | r < |h| :: r in p.to && p.to[r] == r
  {
    p := Relocate(|h|, N1, back1, N2, back2);
    RelocateFacts(h, L, N1, back1, g1, N2, back2, g2);
    forall r | r in p.to
      ensures r < |g1| && p.to[r] < |g2| && RelMap(p, g1[r], g2[p.to[r]])
    {
      if r < |h| {
        TwinOld(h, L, N1, back1, g1, N2, back2, g2, p, r);
      } else {
        var a :| a in N1 && r == N1[a];
        TwinNew(h, L, N1, back1, g1, N2, back2, g2, p, a);
      }
    }
  }

  /** The runs of two orders, after the same entries. */
  lemma VisitedTwice(sc: Scene, D: set<nat>, w1: View, e1: Env, g1: Heap, w2: View, e2: Env, g2: Heap)
      returns (p: Ren)
    requires Visited(sc, D, w1, e1, g1) && Visited(sc, D, w2, e2, g2) && sc.h <= sc.hc
    ensures e1 == e2 && RelHeap(p, g1, g2) && KeepsOld(p, |sc.h|)
  {
    SameEnv(sc.env, sc.ps, D, e1, e2);
    SameContents(sc.ps, sc.ws, D, w1.L, w1.N, w2.L, w2.N);
    forall a | a in w1.L ensures ValIn(w1.L[a], All(), |sc.hc|) {
      var i: nat :| StoredBy(sc.ps, sc.ws, D, a, i, w1.L[a]);
    }
    var m := TwinsCorrespond(sc.hc, w1.L, w1.N, w1.back, w1.g, w2.N, w2.back, w2.g);
    p := Through(w1.p, w1.g, g1, m, w2.p, w2.g, g2, |sc.h|);
  }

  // ---------------------------------------------------------------- the main result

  /** The outcomes of expressions that are not evaluated do not matter. */
  ghost function Evaluated(env: Env, fields: seq<Field>, os: seq<Option<Made>>): (os': seq<Option<Made>>)
    requires |os| == |fields|
    ensures |os'| == |os|
    ensures forall j | 0 <= j < |os| ::
              os'[j] == if Assigns(fields[j]) && TypeOf(env, fields[j].value.text.e).Some? then os[j] else None
  {
    seq(|os|, j requires 0 <= j < |os| =>
      if Assigns(fields[j]) && TypeOf(env, fields[j].value.text.e).Some? then os[j] else None)
  }

  lemma EvaluatedIndependent(cx: Ctx, fuel: nat, env: Env, f: nat, fields: seq<Field>, h: Heap, os: seq<Option<Made>>)
    requires Independent(cx, fuel, env, f, fields, h, os)
    ensures var os' := Evaluated(env, fields, os);
            && Independent(cx, fuel, env, f, fields, h, os')
            && Plans(cx, env, f, fields, h, os') == Plans(cx, env, f, fields, h, os)
            && forall j | 0 <= j < |os'| && os'[j].Some? :: MadeIn(os'[j].value, |h|)
  {
    var ps, os' := Plans(cx, env, f, fields, h, os), Evaluated(env, fields, os);
    assert Plans(cx, env, f, fields, h, os') == ps;
    forall j | 0 <= j < |os'| && os'[j].Some? ensures MadeIn(os'[j].value, |h|) {
      var W := OthersWrite(ps, j);
      SeesSelf(h, W);
      SteadyRun(cx, fuel, fields[j].value.text.e, f, h, W, os[j], State(h, [], 0));
    }
  }

  lemma Stage(cx: Ctx, env: Env, f: nat, fields: seq<Field>, h: Heap, os: seq<Option<Made>>)
      returns (sc: Scene, w: View)
    requires WellFormed(h) && Sealed(h, AllBut(f), f) && |os| == |fields|
    requires forall j | 0 <= j < |os| && os[j].Some? :: MadeIn(os[j].value, |h|)
    ensures Staged(cx, sc) && Visited(sc, {}, w, env, h) && h <= sc.hc
    ensures sc.env == env && sc.f == f && sc.fields == fields && sc.h == h && sc.os == os
  {
    var starts, hc := Lay(h, os);
    var ws := seq(|os|, j requires 0 <= j < |os| => Imagined(|h|, os[j], starts[j]));
    sc := Scene(env, f, fields, h, os, Plans(cx, env, f, fields, h, os), starts, hc, ws);
    var p := SelfHeap(h, hc);
    w := View(map[], map[], map[], hc, p);
    forall i | 0 <= i < |ws| ensures ValIn(ws[i], All(), |hc|) { ImaginedIn(h, os, starts, hc, i); }
    forall i | 0 <= i < |sc.ps| ensures Shaped(hc, f, sc.ps[i]) { PlanShaped(cx, env, f, fields[i], h, os[i]); }
  }

  lemma SameStores(ps: seq<Plan>, o1: seq<nat>, o2: seq<nat>)
    requires multiset(o1) == multiset(o2)
    ensures Stores(ps, o1) == Stores(ps, o2) && (AnyBad(ps, o1) <==> AnyBad(ps, o2))
  {
    MultisetElements(o1, o2);
  }

  ghost predicate Order(o: seq<nat>, n: nat) {
    multiset(o) == multiset(Indices(n))
  }

  lemma OrderOnce(o: seq<nat>, n: nat)
    requires Order(o, n)
    ensures NoDuplicates(o) && forall i | i in o :: i < n
  {
    MultisetElements(o, Indices(n));
    forall i, j | 0 <= i < j < |o| ensures o[i] != o[j] {
      if o[i] == o[j] { OneOccurrence(o, n, i, j); }
    }
  }

  lemma OneOccurrence(o: seq<nat>, n: nat, i: nat, j: nat)
    requires Order(o, n) && i < j < |o|
    ensures o[i] != o[j]
  {
    assert o == o[..i] + [o[i]] + o[i + 1..j] + [o[j]] + o[j + 1..];
    if o[i] == o[j] {
      assert multiset(o)[o[i]] >= 2;
      IndicesOnce(n, o[i]);
    }
  }

  lemma {:induction false} IndicesOnce(n: nat, k: nat)
    ensures multiset(Indices(n))[k] == if k < n then 1 else 0
  {
    if n > 0 {
      IndicesOnce(n - 1, k);
      assert Indices(n) == Indices(n - 1) + [n - 1];
    }
  }

  predicate SimpleField(fld: Field) {
    Assigns(fld) ==> Simple(fld.value.text.e)
  }

  /** Simple expressions use no choice of the outside world. */
  lemma {:induction false} TickKept(cx: Ctx, fuel: nat, env: Env, f: nat, fields: seq<Field>, order: seq<nat>, s: State)
    requires (forall i | 0 <= i < |fields| :: SimpleField(fields[i])) && forall i | i in order :: i < |fields|
    ensures AssignFields(cx, fuel, env, f, fields, order, s).s.tick == s.tick
    decreases |order|
  {
    if order != [] {
      FieldsUnfold(cx, fuel, env, f, fields, order, s);
      var fld := fields[order[0]];
      if Assigns(fld) {
        FieldUnfolds(cx, fuel, env, f, fld, s);
        SimpleEval(cx, fuel, fld.value.text.e, f, s);
        var x := EvalExpr(cx, fuel, fld.value.text.e, f, s);
        if x.out.Done? { CreateUnfolds(cx, env, f, fld.key.name, x.out.value, x.s); }
      } else {
        OtherFields(cx, fuel, env, env, f, fld, s, s.heap, None);
      }
      var r := AssignField(cx, fuel, env, f, fld, s);
      if r.out.Done? { TickKept(cx, fuel, r.out.value, f, fields, order[1..], r.s); }
    }
  }

  /** Plans depend on the context only in what it says about redeclaration. */
  lemma SamePlans(cx: Ctx, cx': Ctx, env: Env, f: nat, fields: seq<Field>, h: Heap, os: seq<Option<Made>>)
    requires cx'.redeclare == cx.redeclare && |os| == |fields|
    ensures Plans(cx', env, f, fields, h, os) == Plans(cx, env, f, fields, h, os)
  {
    forall i | 0 <= i < |fields|
      ensures PlanOf(cx', env, f, fields[i], h, os[i]) == PlanOf(cx, env, f, fields[i], h, os[i])
    {
    }
  }

  /**
   Any two orders of independent assignments, with any choices of the outside world in the two runs,
   give the same outcome: both fail, or both end with the same declared names and types and with the
   same maps, up to the references of new maps; nothing is sent or created.
   */
  lemma OrdersAgree(cx: Ctx, cx': Ctx, fuel: nat, env: Env, f: nat, fields: seq<Field>, os: seq<Option<Made>>,
                    o: seq<nat>, o': seq<nat>, s: State) returns (p: Ren)
    requires WellFormed(s.heap) && Sealed(s.heap, AllBut(f), f) && cx'.redeclare == cx.redeclare
    requires Independent(cx, fuel, env, f, fields, s.heap, os) && Independent(cx', fuel, env, f, fields, s.heap, os)
    requires Order(o, |fields|) && Order(o', |fields|)
    requires (forall i | i in o :: i < |fields|) && (forall i | i in o' :: i < |fields|)
    ensures var r, r' := AssignFields(cx, fuel, env, f, fields, o, s), AssignFields(cx', fuel, env, f, fields, o', s);
            && r.out == r'.out && !r.out.OutOfFuel?
            && (r.out.Done? ==> && RelHeap(p, r.s.heap, r'.s.heap) && r.s.trace == s.trace && r'.s.trace == s.trace
                                && KeepsOld(p, |s.heap|))
            && (r.out.Done? && (forall i | 0 <= i < |fields| :: SimpleField(fields[i])) ==>
                  Rel(p, r.s, r'.s) && r.s.tick == s.tick)
  {
    var h, os' := s.heap, Evaluated(env, fields, os);
    EvaluatedIndependent(cx, fuel, env, f, fields, h, os);
    EvaluatedIndependent(cx', fuel, env, f, fields, h, os);
    var sc, w := Stage(cx, env, f, fields, h, os');
    SamePlans(cx, cx', env, f, fields, h, os');
    OrderOnce(o, |fields|);
    OrderOnce(o', |fields|);
    SameStores(sc.ps, o, o');
    var w1 := RunOrder(cx, fuel, sc, {}, w, env, o, s);
    var w2 := RunOrder(cx', fuel, sc, {}, w, env, o', s);
    p := Ren(map[], map[]);
    if !AnyBad(sc.ps, o) {
      var r, r' := AssignFields(cx, fuel, env, f, fields, o, s), AssignFields(cx', fuel, env, f, fields, o', s);
      p := VisitedTwice(sc, {} + Stores(sc.ps, o), w1, r.out.value, r.s.heap, w2, r'.out.value, r'.s.heap);
      if forall i | 0 <= i < |fields| :: SimpleField(fields[i]) {
        TickKept(cx, fuel, env, f, fields, o, s);
        TickKept(cx', fuel, env, f, fields, o', s);
      }
    }
  }

  lemma VisitIsOrder(n: nat, picks: seq<nat>)
    ensures Order(VisitOrder(n, picks), n)
  {
    PermuteReorders(Indices(n), picks);
  }

  /**
   The object of an if, with two arbitrary iteration orders of Go's map: the same success or failure,
   and on success the same declarations and the same maps up to the references of new ones.
   */
  lemma AssignmentOrderIrrelevant(cx: Ctx, cx': Ctx, fuel: nat, env: Env, f: nat, fields: seq<Field>,
                                  os: seq<Option<Made>>, s: State) returns (p: Ren)
    requires cx' == cx.(visit := cx'.visit) && WellFormed(s.heap) && Sealed(s.heap, AllBut(f), f)
    requires Independent(cx, fuel, env, f, fields, s.heap, os) && Independent(cx', fuel, env, f, fields, s.heap, os)
    ensures var r, r' := EvalAssignment(cx, fuel, env, f, fields, s), EvalAssignment(cx', fuel, env, f, fields, s);
            && r.out == r'.out && !r.out.OutOfFuel?
            && (r.out.Done? ==> && RelHeap(p, r.s.heap, r'.s.heap) && r.s.trace == s.trace && r'.s.trace == s.trace
                                && KeepsOld(p, |s.heap|))
            && (r.out.Done? && (forall i | 0 <= i < |fields| :: SimpleField(fields[i])) ==> Rel(p, r.s, r'.s))
  {
    var o, o' := VisitOrder(|fields|, cx.visit(s.tick)), VisitOrder(|fields|, cx'.visit(s.tick));
    VisitIsOrder(|fields|, cx.visit(s.tick));
    VisitIsOrder(|fields|, cx'.visit(s.tick));
    p := OrdersAgree(cx, cx', fuel, env, f, fields, os, o, o', s.(tick := s.tick + 1));
  }
}
