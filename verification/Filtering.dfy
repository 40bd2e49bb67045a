/** The filter function, for predicates without effects. */
module Filtering {
  import opened Text
  import opened Values
  import opened Syntax
  import opened Semantics
  import opened Ownership
  import opened Scoping
  import opened Purity
  import opened Steadiness

  // The predicate may be any expression without effects; it may call functions. On each element it then
  // has one verdict. A filter fails when some element has none, and otherwise returns exactly the
  // elements with a true one, whatever the order in which Go visits a map. The laws of filters are laws
  // of verdicts.

  /** The functions, the bound on nested calls, and the maps that the elements refer to. */
  datatype Setting = Setting(cx: Ctx, fuel: nat, h: Heap)

  // ---------------------------------------------------------------- what is kept

  function OnElem(j: Setting, p: Source, v: Val): Outcome<bool> {
    Verdict(j.cx, j.fuel, VALUE_ENV, p, j.h, map["value" := v])
  }

  function Entry(k: string, v: Val): GoMap {
    map["key" := StrV(k), "value" := v]
  }

  function OnEntry(j: Setting, p: Source, k: string, v: Val): Outcome<bool> {
    Verdict(j.cx, j.fuel, ENTRY_ENV, p, j.h, Entry(k, v))
  }

  /** The predicate has no effect on any element. */
  ghost predicate FreeOnElems(j: Setting, W: Slots, p: Source, xs: seq<Val>) {
    forall i | 0 <= i < |xs| :: EffectFree(j.cx, j.fuel, VALUE_ENV, p, j.h, W, map["value" := xs[i]])
  }

  ghost predicate FreeOnEntries(j: Setting, W: Slots, p: Source, m: GoMap) {
    forall k | k in m :: EffectFree(j.cx, j.fuel, ENTRY_ENV, p, j.h, W, Entry(k, m[k]))
  }

  /** The subsequence of the elements on which the predicate holds. */
  function KeptElems(j: Setting, p: Source, xs: seq<Val>): seq<Val>
    decreases |xs|
  {
    if xs == [] then []
    else (if OnElem(j, p, xs[0]) == Done(true) then [xs[0]] else []) + KeptElems(j, p, xs[1..])
  }

  /** The restriction of m to the entries on which the predicate holds. */
  function KeptEntries(j: Setting, p: Source, m: GoMap): GoMap {
    map k | k in m && OnEntry(j, p, k, m[k]) == Done(true) :: m[k]
  }

  ghost predicate AllElemsJudged(j: Setting, p: Source, xs: seq<Val>) {
    forall i | 0 <= i < |xs| :: OnElem(j, p, xs[i]).Done?
  }

  ghost predicate NoElemCut(j: Setting, p: Source, xs: seq<Val>) {
    forall i | 0 <= i < |xs| :: !OnElem(j, p, xs[i]).OutOfFuel?
  }

  ghost predicate AllEntriesJudged(j: Setting, p: Source, m: GoMap) {
    forall k | k in m :: OnEntry(j, p, k, m[k]).Done?
  }

  ghost predicate NoEntryCut(j: Setting, p: Source, m: GoMap) {
    forall k | k in m :: !OnEntry(j, p, k, m[k]).OutOfFuel?
  }

  // ---------------------------------------------------------------- lists

  /** What a filter of xs gives: exactly one of its three outcomes. */
  ghost predicate ListOutcome(j: Setting, p: Source, xs: seq<Val>, kept: seq<Val>, out: Outcome<Val>) {
    && (AllElemsJudged(j, p, xs) ==> out == Done(ListV(kept + KeptElems(j, p, xs))))
    && (!AllElemsJudged(j, p, xs) ==> !out.Done?)
    && (NoElemCut(j, p, xs) ==> !out.OutOfFuel?)
  }

  lemma ListOutcomeFirst(j: Setting, p: Source, xs: seq<Val>, kept: seq<Val>, out: Outcome<Val>)
    requires xs != [] && OnElem(j, p, xs[0]).Done?
    requires ListOutcome(j, p, xs[1..], if OnElem(j, p, xs[0]).value then kept + [xs[0]] else kept, out)
    ensures ListOutcome(j, p, xs, kept, out)
  {
    assert forall i | 0 <= i < |xs| - 1 :: xs[1..][i] == xs[i + 1];
    assert forall i | 0 < i < |xs| :: xs[i] == xs[1..][i - 1];
    var kept' := if OnElem(j, p, xs[0]).value then kept + [xs[0]] else kept;
    assert kept' + KeptElems(j, p, xs[1..]) == kept + KeptElems(j, p, xs);
  }

  lemma {:induction false} ListSteps(j: Setting, W: Slots, p: Source, xs: seq<Val>, kept: seq<Val>, s: State)
    requires FreeOnElems(j, W, p, xs) && Sees(j.h, W, s.heap)
    ensures var r := FilterList(j.cx, j.fuel, p, xs, kept, s);
            OnlyAdds(s, r.s) && ListOutcome(j, p, xs, kept, r.out)
    decreases |xs|
  {
    if xs == [] {
      assert kept + KeptElems(j, p, xs) == kept;
    } else {
      EffectFreeRun(j.cx, j.fuel, VALUE_ENV, p, j.h, W, map["value" := xs[0]], s);
      var c := EvalCondition(j.cx, j.fuel, VALUE_ENV, p, |s.heap|, Alloc(s, map["value" := xs[0]]));
      if c.out.Done? {
        var kept' := if c.out.value then kept + [xs[0]] else kept;
        assert forall i | 0 <= i < |xs[1..]| :: xs[1..][i] == xs[i + 1];
        ListSteps(j, W, p, xs[1..], kept', c.s);
        ListOutcomeFirst(j, p, xs, kept, FilterList(j.cx, j.fuel, p, xs[1..], kept', c.s).out);
      }
    }
  }

  lemma ListFilterUnfolds(cx: Ctx, fuel: nat, coll: Expr, p: Source, vars: nat, s: State)
    ensures var x := EvalExpr(cx, fuel, coll, vars, s);
            x.out.Done? && x.out.value.ListV? ==>
              EvalExpr(cx, fuel, Filter(coll, p), vars, s) == FilterList(cx, fuel, p, x.out.value.elems, [], x.s)
  {
  }

  /**
   A filter of a list, for any collection expression and any predicate without effects: it succeeds
   exactly when the predicate gives a bool on every element, and then returns the subsequence of those
   on which it holds; it writes no map that is there and has no effects.
   */
  lemma ListFilter(cx: Ctx, fuel: nat, coll: Expr, p: Source, vars: nat, s: State)
    requires var x := EvalExpr(cx, fuel, coll, vars, s);
             x.out.Done? && x.out.value.ListV?
             && FreeOnElems(Setting(cx, fuel, x.s.heap), NoSlots(), p, x.out.value.elems)
    ensures var x := EvalExpr(cx, fuel, coll, vars, s); var xs := x.out.value.elems;
            var r := EvalExpr(cx, fuel, Filter(coll, p), vars, s); var j := Setting(cx, fuel, x.s.heap);
            && OnlyAdds(x.s, r.s)
            && (AllElemsJudged(j, p, xs) <==> r.out.Done?)
            && (r.out.Done? ==> r.out == Done(ListV(KeptElems(j, p, xs))))
            && (NoElemCut(j, p, xs) ==> !r.out.OutOfFuel?)
  {
    var x := EvalExpr(cx, fuel, coll, vars, s);
    var xs, j := x.out.value.elems, Setting(cx, fuel, x.s.heap);
    SeesSelf(x.s.heap, NoSlots());
    ListSteps(j, NoSlots(), p, xs, [], x.s);
    assert [] + KeptElems(j, p, xs) == KeptElems(j, p, xs);
    ListFilterUnfolds(cx, fuel, coll, p, vars, s);
  }

  // ---------------------------------------------------------------- maps

  ghost function KeptAmong(j: Setting, p: Source, m: GoMap, keys: seq<string>): GoMap {
    map k | k in m && k in keys && OnEntry(j, p, k, m[k]) == Done(true) :: m[k]
  }

  ghost predicate JudgedAmong(j: Setting, p: Source, m: GoMap, keys: seq<string>) {
    forall k | k in m && k in keys :: OnEntry(j, p, k, m[k]).Done?
  }

  ghost predicate UncutAmong(j: Setting, p: Source, m: GoMap, keys: seq<string>) {
    forall k | k in m && k in keys :: !OnEntry(j, p, k, m[k]).OutOfFuel?
  }

  /** What a filter of the entries `keys` of m gives; the result is a map that is new from n on. */
  ghost predicate MapOutcome(j: Setting, p: Source, m: GoMap, keys: seq<string>, kept: GoMap, n: nat, r: Res<Val>) {
    && (JudgedAmong(j, p, m, keys) ==>
          && r.out.Done? && r.out.value.MapV? && n <= r.out.value.ref < |r.s.heap|
          && r.s.heap[r.out.value.ref] == kept + KeptAmong(j, p, m, keys))
    && (!JudgedAmong(j, p, m, keys) ==> !r.out.Done?)
    && (UncutAmong(j, p, m, keys) ==> !r.out.OutOfFuel?)
  }

  lemma KeySplit(keys: seq<string>)
    requires keys != []
    ensures forall k :: k in keys <==> k == keys[0] || k in keys[1..]
  {
    assert keys == [keys[0]] + keys[1..];
  }

  function KeptWith(j: Setting, p: Source, m: GoMap, key: string, kept: GoMap): GoMap {
    if key in m && OnEntry(j, p, key, m[key]) == Done(true) then kept[key := m[key]] else kept
  }

  lemma KeptStep(j: Setting, p: Source, m: GoMap, keys: seq<string>, kept: GoMap)
    requires keys != []
    ensures KeptWith(j, p, m, keys[0], kept) + KeptAmong(j, p, m, keys[1..]) == kept + KeptAmong(j, p, m, keys)
  {
    KeySplit(keys);
    SameMaps(KeptWith(j, p, m, keys[0], kept) + KeptAmong(j, p, m, keys[1..]), kept + KeptAmong(j, p, m, keys));
  }

  lemma SameMaps(a: GoMap, b: GoMap)
    requires forall k: string :: (k in a <==> k in b) && (k in a ==> a[k] == b[k])
    ensures a == b
  {
  }

  lemma JudgedStep(j: Setting, p: Source, m: GoMap, keys: seq<string>)
    requires keys != [] && (keys[0] in m ==> OnEntry(j, p, keys[0], m[keys[0]]).Done?)
    ensures JudgedAmong(j, p, m, keys[1..]) <==> JudgedAmong(j, p, m, keys)
    ensures UncutAmong(j, p, m, keys[1..]) <==> UncutAmong(j, p, m, keys)
  {
    KeySplit(keys);
  }

  lemma MapOutcomeFirst(j: Setting, p: Source, m: GoMap, keys: seq<string>, kept: GoMap, n: nat, n': nat, r: Res<Val>)
    requires keys != [] && n <= n'
    requires keys[0] in m ==> OnEntry(j, p, keys[0], m[keys[0]]).Done?
    requires MapOutcome(j, p, m, keys[1..], KeptWith(j, p, m, keys[0], kept), n', r)
    ensures MapOutcome(j, p, m, keys, kept, n, r)
  {
    KeptStep(j, p, m, keys, kept);
    JudgedStep(j, p, m, keys);
  }

  lemma MapOutcomeStops(j: Setting, p: Source, m: GoMap, keys: seq<string>, kept: GoMap, n: nat, r: Res<Val>)
    requires keys != [] && keys[0] in m && !OnEntry(j, p, keys[0], m[keys[0]]).Done? && !r.out.Done?
    requires r.out.OutOfFuel? ==> OnEntry(j, p, keys[0], m[keys[0]]).OutOfFuel?
    ensures MapOutcome(j, p, m, keys, kept, n, r)
  {
    KeySplit(keys);
  }

  lemma {:induction false} MapSteps(j: Setting, W: Slots, p: Source, ref: nat, m: GoMap, keys: seq<string>, kept: GoMap,
                                    s: State)
    requires FreeOnEntries(j, W, p, m) && Sees(j.h, W, s.heap)
    requires ref < |s.heap| && s.heap[ref] == m
    ensures var r := FilterMap(j.cx, j.fuel, p, ref, keys, kept, s);
            OnlyAdds(s, r.s) && MapOutcome(j, p, m, keys, kept, |s.heap|, r)
    decreases |keys|
  {
    var r := FilterMap(j.cx, j.fuel, p, ref, keys, kept, s);
    if keys == [] {
      assert kept + KeptAmong(j, p, m, keys) == kept;
    } else if keys[0] !in m {
      MapSteps(j, W, p, ref, m, keys[1..], kept, s);
      MapOutcomeFirst(j, p, m, keys, kept, |s.heap|, |s.heap|, r);
    } else {
      var b := Entry(keys[0], m[keys[0]]);
      EffectFreeRun(j.cx, j.fuel, ENTRY_ENV, p, j.h, W, b, s);
      var c := EvalCondition(j.cx, j.fuel, ENTRY_ENV, p, |s.heap|, Alloc(s, b));
      if c.out.Done? {
        var kept' := if c.out.value then kept[keys[0] := m[keys[0]]] else kept;
        assert c.s.heap[ref] == m;
        MapSteps(j, W, p, ref, m, keys[1..], kept', c.s);
        MapOutcomeFirst(j, p, m, keys, kept, |s.heap|, |c.s.heap|, r);
      } else {
        MapOutcomeStops(j, p, m, keys, kept, |s.heap|, r);
      }
    }
  }

  lemma VisitsEveryKey(keys: set<string>, picks: seq<nat>)
    ensures forall k :: k in Permute(SortedKeys(keys), picks) <==> k in keys
  {
    SortedKeysListsEachOnce(keys);
    PermuteReorders(SortedKeys(keys), picks);
    MultisetElements(Permute(SortedKeys(keys), picks), SortedKeys(keys));
  }

  lemma EveryKey(j: Setting, p: Source, m: GoMap, keys: seq<string>)
    requires forall k :: k in keys <==> k in m.Keys
    ensures map[] + KeptAmong(j, p, m, keys) == KeptEntries(j, p, m)
    ensures JudgedAmong(j, p, m, keys) <==> AllEntriesJudged(j, p, m)
    ensures UncutAmong(j, p, m, keys) <==> NoEntryCut(j, p, m)
  {
  }

  /** The keys of map ref in the order of the visit. */
  function KeysVisited(cx: Ctx, ref: nat, s: State): seq<string> {
    Permute(SortedKeys(At(s.heap, ref).Keys), cx.visit(s.tick))
  }

  lemma MapFilterUnfolds(cx: Ctx, fuel: nat, coll: Expr, p: Source, vars: nat, s: State)
    ensures var x := EvalExpr(cx, fuel, coll, vars, s);
            x.out.Done? && x.out.value.MapV? ==>
              EvalExpr(cx, fuel, Filter(coll, p), vars, s)
              == FilterMap(cx, fuel, p, x.out.value.ref, KeysVisited(cx, x.out.value.ref, x.s), map[],
                           x.s.(tick := x.s.tick + 1))
  {
  }

  /** The run r from state s has filtered map m. */
  ghost predicate MapFiltered(j: Setting, p: Source, m: GoMap, s: State, r: Res<Val>) {
    && OnlyAdds(s, r.s)
    && (AllEntriesJudged(j, p, m) <==> r.out.Done?)
    && (r.out.Done? ==> && r.out.value.MapV? && |s.heap| <= r.out.value.ref < |r.s.heap|
                        && r.s.heap[r.out.value.ref] == KeptEntries(j, p, m))
    && (NoEntryCut(j, p, m) ==> !r.out.OutOfFuel?)
  }

  /** A filter of a whole map, in any order of the visits. */
  lemma WholeMap(j: Setting, W: Slots, p: Source, ref: nat, m: GoMap, s: State, r: Res<Val>)
    requires FreeOnEntries(j, W, p, m) && Sees(j.h, W, s.heap)
    requires ref < |s.heap| && s.heap[ref] == m
    requires r == FilterMap(j.cx, j.fuel, p, ref, KeysVisited(j.cx, ref, s), map[], s.(tick := s.tick + 1))
    ensures MapFiltered(j, p, m, s, r)
  {
    var keys := KeysVisited(j.cx, ref, s);
    VisitsEveryKey(m.Keys, j.cx.visit(s.tick));
    MapSteps(j, W, p, ref, m, keys, map[], s.(tick := s.tick + 1));
    EveryKey(j, p, m, keys);
  }

  /** The same for the expression, when its collection has given map ref. */
  lemma FilterOfMap(j: Setting, W: Slots, coll: Expr, p: Source, vars: nat, s: State, ref: nat, m: GoMap)
    requires var x := EvalExpr(j.cx, j.fuel, coll, vars, s);
             && x.out == Done(MapV(ref)) && ref < |x.s.heap| && x.s.heap[ref] == m && Sees(j.h, W, x.s.heap)
    requires FreeOnEntries(j, W, p, m)
    ensures MapFiltered(j, p, m, EvalExpr(j.cx, j.fuel, coll, vars, s).s,
                        EvalExpr(j.cx, j.fuel, Filter(coll, p), vars, s))
  {
    MapFilterUnfolds(j.cx, j.fuel, coll, p, vars, s);
    WholeMap(j, W, p, ref, m, EvalExpr(j.cx, j.fuel, coll, vars, s).s,
             EvalExpr(j.cx, j.fuel, Filter(coll, p), vars, s));
  }

  /**
   A filter of a map, for any collection expression and any predicate without effects: it succeeds
   exactly when the predicate gives a bool on every entry, and then returns a new map with exactly the
   entries on which it holds. The order of the visits plays no part.
   */
  lemma MapFilter(cx: Ctx, fuel: nat, coll: Expr, p: Source, vars: nat, s: State)
    requires var x := EvalExpr(cx, fuel, coll, vars, s);
             x.out.Done? && x.out.value.MapV? && x.out.value.ref < |x.s.heap|
             && FreeOnEntries(Setting(cx, fuel, x.s.heap), NoSlots(), p, x.s.heap[x.out.value.ref])
    ensures var x := EvalExpr(cx, fuel, coll, vars, s); var m := x.s.heap[x.out.value.ref];
            var r := EvalExpr(cx, fuel, Filter(coll, p), vars, s); var j := Setting(cx, fuel, x.s.heap);
            && OnlyAdds(x.s, r.s)
            && (AllEntriesJudged(j, p, m) <==> r.out.Done?)
            && (r.out.Done? ==> && r.out.value.MapV? && |x.s.heap| <= r.out.value.ref < |r.s.heap|
                                && r.s.heap[r.out.value.ref] == KeptEntries(j, p, m))
            && (NoEntryCut(j, p, m) ==> !r.out.OutOfFuel?)
  {
    var x := EvalExpr(cx, fuel, coll, vars, s);
    SeesSelf(x.s.heap, NoSlots());
    FilterOfMap(Setting(cx, fuel, x.s.heap), NoSlots(), coll, p, vars, s, x.out.value.ref, x.s.heap[x.out.value.ref]);
  }

  // ---------------------------------------------------------------- more maps, same verdicts

  lemma LaterElems(j: Setting, W: Slots, p: Source, xs: seq<Val>, h: Heap)
    requires FreeOnElems(j, W, p, xs) && j.h <= h
    ensures FreeOnElems(j.(h := h), W, p, xs)
    ensures forall i | 0 <= i < |xs| :: OnElem(j.(h := h), p, xs[i]) == OnElem(j, p, xs[i])
  {
    forall i | 0 <= i < |xs|
      ensures EffectFree(j.cx, j.fuel, VALUE_ENV, p, h, W, map["value" := xs[i]])
      ensures OnElem(j.(h := h), p, xs[i]) == OnElem(j, p, xs[i])
    {
      EffectFreeLater(j.cx, j.fuel, VALUE_ENV, p, j.h, W, map["value" := xs[i]], h);
    }
  }

  lemma {:induction false} SameKept(j: Setting, j': Setting, p: Source, xs: seq<Val>)
    requires forall i | 0 <= i < |xs| :: OnElem(j', p, xs[i]) == OnElem(j, p, xs[i])
    ensures KeptElems(j', p, xs) == KeptElems(j, p, xs)
    decreases |xs|
  {
    if xs != [] {
      assert forall i | 0 <= i < |xs[1..]| :: xs[1..][i] == xs[i + 1];
      SameKept(j, j', p, xs[1..]);
    }
  }

  lemma LaterEntries(j: Setting, W: Slots, p: Source, m: GoMap, h: Heap)
    requires FreeOnEntries(j, W, p, m) && j.h <= h
    ensures FreeOnEntries(j.(h := h), W, p, m)
    ensures forall k | k in m :: OnEntry(j.(h := h), p, k, m[k]) == OnEntry(j, p, k, m[k])
    ensures KeptEntries(j.(h := h), p, m) == KeptEntries(j, p, m)
  {
    forall k | k in m
      ensures EffectFree(j.cx, j.fuel, ENTRY_ENV, p, h, W, Entry(k, m[k]))
      ensures OnEntry(j.(h := h), p, k, m[k]) == OnEntry(j, p, k, m[k])
    {
      EffectFreeLater(j.cx, j.fuel, ENTRY_ENV, p, j.h, W, Entry(k, m[k]), h);
    }
  }

  lemma {:induction false} KeptFromInput(j: Setting, W: Slots, p: Source, q: Source, xs: seq<Val>)
    requires FreeOnElems(j, W, q, xs)
    ensures FreeOnElems(j, W, q, KeptElems(j, p, xs))
    decreases |xs|
  {
    if xs != [] {
      assert forall i | 0 <= i < |xs[1..]| :: xs[1..][i] == xs[i + 1];
      KeptFromInput(j, W, p, q, xs[1..]);
      var tail := KeptElems(j, p, xs[1..]);
      assert EffectFree(j.cx, j.fuel, VALUE_ENV, q, j.h, W, map["value" := xs[0]]);
      assert FreeOnElems(j, W, q, [xs[0]] + tail) by {
        forall i | 0 <= i < |[xs[0]] + tail|
          ensures EffectFree(j.cx, j.fuel, VALUE_ENV, q, j.h, W, map["value" := ([xs[0]] + tail)[i]])
        {
          if i > 0 { assert ([xs[0]] + tail)[i] == tail[i - 1]; }
        }
      }
      assert [] + tail == tail;
    }
  }

  // ---------------------------------------------------------------- idempotence

  lemma {:induction false} KeptAreJudged(j: Setting, p: Source, xs: seq<Val>)
    ensures forall i | 0 <= i < |KeptElems(j, p, xs)| :: OnElem(j, p, KeptElems(j, p, xs)[i]) == Done(true)
    decreases |xs|
  {
    if xs != [] { KeptAreJudged(j, p, xs[1..]); }
  }

  lemma {:induction false} AllKept(j: Setting, p: Source, xs: seq<Val>)
    requires forall i | 0 <= i < |xs| :: OnElem(j, p, xs[i]) == Done(true)
    ensures KeptElems(j, p, xs) == xs
    decreases |xs|
  {
    if xs != [] {
      assert forall i | 0 <= i < |xs[1..]| :: xs[1..][i] == xs[i + 1];
      AllKept(j, p, xs[1..]);
    }
  }

  /** A second filter of a list, run after the first one. */
  lemma SecondListFilter(cx: Ctx, fuel: nat, coll: Expr, p: Source, q: Source, vars: nat, s: State)
    requires var x := EvalExpr(cx, fuel, coll, vars, s);
             && x.out.Done? && x.out.value.ListV?
             && (var j, xs := Setting(cx, fuel, x.s.heap), x.out.value.elems;
                 && FreeOnElems(j, NoSlots(), p, xs) && FreeOnElems(j, NoSlots(), q, KeptElems(j, p, xs))
                 && AllElemsJudged(j, p, xs) && AllElemsJudged(j, q, KeptElems(j, p, xs)))
    ensures var x := EvalExpr(cx, fuel, coll, vars, s); var j := Setting(cx, fuel, x.s.heap);
            EvalExpr(cx, fuel, Filter(Filter(coll, p), q), vars, s).out
            == Done(ListV(KeptElems(j, q, KeptElems(j, p, x.out.value.elems))))
  {
    var x := EvalExpr(cx, fuel, coll, vars, s);
    var j, xs := Setting(cx, fuel, x.s.heap), x.out.value.elems;
    var kept := KeptElems(j, p, xs);
    ListFilter(cx, fuel, coll, p, vars, s);
    var r := EvalExpr(cx, fuel, Filter(coll, p), vars, s);
    LaterElems(j, NoSlots(), q, kept, r.s.heap);
    SameKept(j, j.(h := r.s.heap), q, kept);
    ListFilter(cx, fuel, Filter(coll, p), q, vars, s);
  }

  /** Filtering a list again with the same predicate succeeds and changes nothing. */
  lemma ListFilterIdempotent(cx: Ctx, fuel: nat, coll: Expr, p: Source, vars: nat, s: State)
    requires var x := EvalExpr(cx, fuel, coll, vars, s);
             x.out.Done? && x.out.value.ListV?
             && FreeOnElems(Setting(cx, fuel, x.s.heap), NoSlots(), p, x.out.value.elems)
    requires EvalExpr(cx, fuel, Filter(coll, p), vars, s).out.Done?
    ensures EvalExpr(cx, fuel, Filter(Filter(coll, p), p), vars, s).out
         == EvalExpr(cx, fuel, Filter(coll, p), vars, s).out
  {
    var x := EvalExpr(cx, fuel, coll, vars, s);
    var j, xs := Setting(cx, fuel, x.s.heap), x.out.value.elems;
    ListFilter(cx, fuel, coll, p, vars, s);
    KeptAreJudged(j, p, xs);
    AllKept(j, p, KeptElems(j, p, xs));
    KeptFromInput(j, NoSlots(), p, p, xs);
    SecondListFilter(cx, fuel, coll, p, p, vars, s);
  }

  /** The entries of the map that is the outcome of r. */
  function EntriesOf(r: Res<Val>): Option<GoMap> {
    if r.out.Done? && r.out.value.MapV? && r.out.value.ref < |r.s.heap| then Some(r.s.heap[r.out.value.ref]) else None
  }

  /** A second filter of a map, run after the first one. */
  lemma SecondMapFilter(cx: Ctx, fuel: nat, coll: Expr, p: Source, q: Source, vars: nat, s: State)
    requires var x := EvalExpr(cx, fuel, coll, vars, s);
             && x.out.Done? && x.out.value.MapV? && x.out.value.ref < |x.s.heap|
             && (var j, m := Setting(cx, fuel, x.s.heap), x.s.heap[x.out.value.ref];
                 && FreeOnEntries(j, NoSlots(), p, m) && FreeOnEntries(j, NoSlots(), q, KeptEntries(j, p, m))
                 && AllEntriesJudged(j, p, m) && AllEntriesJudged(j, q, KeptEntries(j, p, m)))
    ensures var x := EvalExpr(cx, fuel, coll, vars, s); var j := Setting(cx, fuel, x.s.heap);
            EntriesOf(EvalExpr(cx, fuel, Filter(Filter(coll, p), q), vars, s))
            == Some(KeptEntries(j, q, KeptEntries(j, p, x.s.heap[x.out.value.ref])))
  {
    var x := EvalExpr(cx, fuel, coll, vars, s);
    var j, m := Setting(cx, fuel, x.s.heap), x.s.heap[x.out.value.ref];
    MapFilter(cx, fuel, coll, p, vars, s);
    var r := EvalExpr(cx, fuel, Filter(coll, p), vars, s);
    LaterEntries(j, NoSlots(), q, KeptEntries(j, p, m), r.s.heap);
    MapFilter(cx, fuel, Filter(coll, p), q, vars, s);
  }

  /** Filtering a map again with the same predicate succeeds and keeps the same entries. */
  lemma MapFilterIdempotent(cx: Ctx, fuel: nat, coll: Expr, p: Source, vars: nat, s: State)
    requires var x := EvalExpr(cx, fuel, coll, vars, s);
             x.out.Done? && x.out.value.MapV? && x.out.value.ref < |x.s.heap|
             && FreeOnEntries(Setting(cx, fuel, x.s.heap), NoSlots(), p, x.s.heap[x.out.value.ref])
    requires EvalExpr(cx, fuel, Filter(coll, p), vars, s).out.Done?
    ensures EntriesOf(EvalExpr(cx, fuel, Filter(Filter(coll, p), p), vars, s))
         == EntriesOf(EvalExpr(cx, fuel, Filter(coll, p), vars, s))
  {
    var x := EvalExpr(cx, fuel, coll, vars, s);
    var j, m := Setting(cx, fuel, x.s.heap), x.s.heap[x.out.value.ref];
    MapFilter(cx, fuel, coll, p, vars, s);
    assert KeptEntries(j, p, KeptEntries(j, p, m)) == KeptEntries(j, p, m);
    SecondMapFilter(cx, fuel, coll, p, p, vars, s);
  }

  // ---------------------------------------------------------------- two filters are one

  lemma {:induction false} KeptHead(j: Setting, p: Source, x: Val, xs: seq<Val>)
    ensures KeptElems(j, p, [x] + xs) == (if OnElem(j, p, x) == Done(true) then [x] else []) + KeptElems(j, p, xs)
  {
    assert ([x] + xs)[1..] == xs;
  }

  /** What the second filter of xs does on the first element and on the others. */
  lemma SecondFilterSplits(j: Setting, W: Slots, p: Source, q: Source, xs: seq<Val>)
    requires xs != [] && FreeOnElems(j, W, q, KeptElems(j, p, xs)) && AllElemsJudged(j, q, KeptElems(j, p, xs))
    ensures var kept := KeptElems(j, p, xs[1..]); FreeOnElems(j, W, q, kept) && AllElemsJudged(j, q, kept)
    ensures OnElem(j, p, xs[0]) == Done(true) ==>
              EffectFree(j.cx, j.fuel, VALUE_ENV, q, j.h, W, map["value" := xs[0]]) && OnElem(j, q, xs[0]).Done?
    ensures KeptElems(j, q, KeptElems(j, p, xs))
         == (if OnElem(j, p, xs[0]) == Done(true) && OnElem(j, q, xs[0]) == Done(true) then [xs[0]] else [])
            + KeptElems(j, q, KeptElems(j, p, xs[1..]))
  {
    var x, tail := xs[0], KeptElems(j, p, xs[1..]);
    if OnElem(j, p, x) == Done(true) {
      assert KeptElems(j, p, xs) == [x] + tail;
      assert ([x] + tail)[0] == x && forall i | 0 <= i < |tail| :: ([x] + tail)[i + 1] == tail[i];
      KeptHead(j, q, x, tail);
    } else {
      assert KeptElems(j, p, xs) == [] + tail == tail;
    }
  }

  /** Two filters that succeed keep what one filter by the conjunction keeps. */
  lemma {:induction false} TwoFiltersAreOne(j: Setting, W: Slots, p: Source, q: Source, xs: seq<Val>)
    requires p.Text? && q.Text? && Accepts(TypeOf(VALUE_ENV, q.e), TBool)
    requires FreeOnElems(j, W, p, xs) && FreeOnElems(j, W, q, KeptElems(j, p, xs))
    requires AllElemsJudged(j, p, xs) && AllElemsJudged(j, q, KeptElems(j, p, xs))
    ensures FreeOnElems(j, W, Conjunction(p, q), xs) && AllElemsJudged(j, Conjunction(p, q), xs)
    ensures KeptElems(j, Conjunction(p, q), xs) == KeptElems(j, q, KeptElems(j, p, xs))
    decreases |xs|
  {
    if xs != [] {
      SecondFilterSplits(j, W, p, q, xs);
      TailOf(j, W, p, xs);
      ConjunctionVerdict(j.cx, j.fuel, VALUE_ENV, j.h, W, map["value" := xs[0]], p, q);
      TwoFiltersAreOne(j, W, p, q, xs[1..]);
      FromTail(j, W, Conjunction(p, q), xs);
    }
  }

  lemma TailOf(j: Setting, W: Slots, p: Source, xs: seq<Val>)
    requires xs != [] && FreeOnElems(j, W, p, xs) && AllElemsJudged(j, p, xs)
    ensures FreeOnElems(j, W, p, xs[1..]) && AllElemsJudged(j, p, xs[1..])
    ensures EffectFree(j.cx, j.fuel, VALUE_ENV, p, j.h, W, map["value" := xs[0]]) && OnElem(j, p, xs[0]).Done?
  {
    assert forall i | 0 <= i < |xs[1..]| :: xs[1..][i] == xs[i + 1];
  }

  lemma FromTail(j: Setting, W: Slots, p: Source, xs: seq<Val>)
    requires xs != [] && FreeOnElems(j, W, p, xs[1..]) && AllElemsJudged(j, p, xs[1..])
    requires EffectFree(j.cx, j.fuel, VALUE_ENV, p, j.h, W, map["value" := xs[0]]) && OnElem(j, p, xs[0]).Done?
    ensures FreeOnElems(j, W, p, xs) && AllElemsJudged(j, p, xs)
  {
    assert forall i | 0 < i < |xs| :: xs[i] == xs[1..][i - 1];
  }

  /** Run through the interpreter: a filter of a filter gives what one filter by the conjunction gives. */
  lemma NestedListFilters(cx: Ctx, fuel: nat, coll: Expr, p: Source, q: Source, vars: nat, s: State)
    requires p.Text? && q.Text? && Accepts(TypeOf(VALUE_ENV, q.e), TBool)
    requires var x := EvalExpr(cx, fuel, coll, vars, s);
             && x.out.Done? && x.out.value.ListV?
             && (var j, xs := Setting(cx, fuel, x.s.heap), x.out.value.elems;
                 && FreeOnElems(j, NoSlots(), p, xs) && FreeOnElems(j, NoSlots(), q, KeptElems(j, p, xs))
                 && AllElemsJudged(j, p, xs) && AllElemsJudged(j, q, KeptElems(j, p, xs)))
    ensures EvalExpr(cx, fuel, Filter(Filter(coll, p), q), vars, s).out.Done?
    ensures EvalExpr(cx, fuel, Filter(Filter(coll, p), q), vars, s).out
         == EvalExpr(cx, fuel, Filter(coll, Conjunction(p, q)), vars, s).out
  {
    var x := EvalExpr(cx, fuel, coll, vars, s);
    SecondListFilter(cx, fuel, coll, p, q, vars, s);
    TwoFiltersAreOne(Setting(cx, fuel, x.s.heap), NoSlots(), p, q, x.out.value.elems);
    ListFilter(cx, fuel, coll, Conjunction(p, q), vars, s);
  }

  lemma EntryAgrees(k: string, v: Val)
    ensures Agrees(ENTRY_ENV, Entry(k, v))
  {
  }

  lemma KeptJudged(j: Setting, W: Slots, p: Source, q: Source, m: GoMap, k: string)
    requires k in m && OnEntry(j, p, k, m[k]) == Done(true)
    requires FreeOnEntries(j, W, q, KeptEntries(j, p, m)) && AllEntriesJudged(j, q, KeptEntries(j, p, m))
    ensures OnEntry(j, q, k, m[k]).Done?
    ensures EffectFree(j.cx, j.fuel, ENTRY_ENV, q, j.h, W, Entry(k, m[k]))
  {
    assert k in KeptEntries(j, p, m) && KeptEntries(j, p, m)[k] == m[k];
  }

  lemma EntryConjunction(j: Setting, W: Slots, p: Source, q: Source, m: GoMap, k: string)
    requires p.Text? && q.Text? && Accepts(TypeOf(ENTRY_ENV, q.e), TBool) && k in m
    requires FreeOnEntries(j, W, p, m) && FreeOnEntries(j, W, q, KeptEntries(j, p, m))
    requires AllEntriesJudged(j, p, m) && AllEntriesJudged(j, q, KeptEntries(j, p, m))
    ensures EffectFree(j.cx, j.fuel, ENTRY_ENV, Conjunction(p, q), j.h, W, Entry(k, m[k]))
    ensures OnEntry(j, p, k, m[k]).value ==> OnEntry(j, q, k, m[k]).Done?
    ensures OnEntry(j, Conjunction(p, q), k, m[k])
         == if OnEntry(j, p, k, m[k]).value then OnEntry(j, q, k, m[k]) else Done(false)
  {
    if OnEntry(j, p, k, m[k]).value { KeptJudged(j, W, p, q, m, k); }
    EntryAgrees(k, m[k]);
    ConjunctionVerdict(j.cx, j.fuel, ENTRY_ENV, j.h, W, Entry(k, m[k]), p, q);
  }

  lemma KeptByBoth(j: Setting, p: Source, q: Source, pq: Source, m: GoMap)
    requires AllEntriesJudged(j, p, m)
    requires forall k | k in m ::
               OnEntry(j, pq, k, m[k]) == if OnEntry(j, p, k, m[k]).value then OnEntry(j, q, k, m[k]) else Done(false)
    ensures KeptEntries(j, pq, m) == KeptEntries(j, q, KeptEntries(j, p, m))
  {
  }

  lemma TwoMapFiltersAreOne(j: Setting, W: Slots, p: Source, q: Source, m: GoMap)
    requires p.Text? && q.Text? && Accepts(TypeOf(ENTRY_ENV, q.e), TBool)
    requires FreeOnEntries(j, W, p, m) && FreeOnEntries(j, W, q, KeptEntries(j, p, m))
    requires AllEntriesJudged(j, p, m) && AllEntriesJudged(j, q, KeptEntries(j, p, m))
    ensures FreeOnEntries(j, W, Conjunction(p, q), m) && AllEntriesJudged(j, Conjunction(p, q), m)
    ensures KeptEntries(j, Conjunction(p, q), m) == KeptEntries(j, q, KeptEntries(j, p, m))
  {
    var pq := Conjunction(p, q);
    forall k | k in m
      ensures EffectFree(j.cx, j.fuel, ENTRY_ENV, pq, j.h, W, Entry(k, m[k])) && OnEntry(j, pq, k, m[k]).Done?
      ensures OnEntry(j, pq, k, m[k]) == if OnEntry(j, p, k, m[k]).value then OnEntry(j, q, k, m[k]) else Done(false)
    {
      EntryConjunction(j, W, p, q, m, k);
    }
    KeptByBoth(j, p, q, pq, m);
  }

  /** The same for a map: a filter of a filter keeps the entries that one filter by the conjunction keeps. */
  lemma NestedMapFilters(cx: Ctx, fuel: nat, coll: Expr, p: Source, q: Source, vars: nat, s: State)
    requires p.Text? && q.Text? && Accepts(TypeOf(ENTRY_ENV, q.e), TBool)
    requires var x := EvalExpr(cx, fuel, coll, vars, s);
             && x.out.Done? && x.out.value.MapV? && x.out.value.ref < |x.s.heap|
             && (var j, m := Setting(cx, fuel, x.s.heap), x.s.heap[x.out.value.ref];
                 && FreeOnEntries(j, NoSlots(), p, m) && FreeOnEntries(j, NoSlots(), q, KeptEntries(j, p, m))
                 && AllEntriesJudged(j, p, m) && AllEntriesJudged(j, q, KeptEntries(j, p, m)))
    ensures EntriesOf(EvalExpr(cx, fuel, Filter(Filter(coll, p), q), vars, s)).Some?
    ensures EntriesOf(EvalExpr(cx, fuel, Filter(Filter(coll, p), q), vars, s))
         == EntriesOf(EvalExpr(cx, fuel, Filter(coll, Conjunction(p, q)), vars, s))
  {
    var x := EvalExpr(cx, fuel, coll, vars, s);
    SecondMapFilter(cx, fuel, coll, p, q, vars, s);
    TwoMapFiltersAreOne(Setting(cx, fuel, x.s.heap), NoSlots(), p, q, x.s.heap[x.out.value.ref]);
    MapFilter(cx, fuel, coll, Conjunction(p, q), vars, s);
  }

  /**
   The type check of the second predicate is the only thing the conjunction adds: when both filters
   succeed on a list that is not empty, the filter by the conjunction succeeds exactly when the second
   predicate checks as a bool. (When the first filter keeps nothing, the second predicate is never
   checked.)
   */
  lemma ConjunctionSucceedsExactly(cx: Ctx, fuel: nat, coll: Expr, p: Source, q: Source, vars: nat, s: State)
    requires p.Text? && q.Text?
    requires var x := EvalExpr(cx, fuel, coll, vars, s);
             && x.out.Done? && x.out.value.ListV? && x.out.value.elems != []
             && (var j, xs := Setting(cx, fuel, x.s.heap), x.out.value.elems;
                 && FreeOnElems(j, NoSlots(), p, xs) && FreeOnElems(j, NoSlots(), q, KeptElems(j, p, xs))
                 && AllElemsJudged(j, p, xs) && AllElemsJudged(j, q, KeptElems(j, p, xs)))
    ensures EvalExpr(cx, fuel, Filter(coll, Conjunction(p, q)), vars, s).out.Done?
        <==> Accepts(TypeOf(VALUE_ENV, q.e), TBool)
  {
    var x := EvalExpr(cx, fuel, coll, vars, s);
    if Accepts(TypeOf(VALUE_ENV, q.e), TBool) {
      NestedListFilters(cx, fuel, coll, p, q, vars, s);
    } else {
      ListFilterUnfolds(cx, fuel, coll, Conjunction(p, q), vars, s);
      ConjunctionUnchecked(cx, fuel, VALUE_ENV, p, q, |x.s.heap|, Alloc(x.s, map["value" := x.out.value.elems[0]]));
    }
  }

  /** Such a run: filter by `false`, then by the undeclared name `v`; by `false && v`, the filter fails. */
  lemma ConjunctionCanFail(cx: Ctx, fuel: nat, coll: Expr, vars: nat, s: State, v: Val)
    requires EvalExpr(cx, fuel, coll, vars, s).out == Done(ListV([v]))
    ensures var p, q := Text(Lit(CBool(false))), Text(Path("v", []));
            && EvalExpr(cx, fuel, Filter(Filter(coll, p), q), vars, s).out == Done(ListV([]))
            && EvalExpr(cx, fuel, Filter(coll, Conjunction(p, q)), vars, s).out == Fail
  {
    var p, q := Text(Lit(CBool(false))), Text(Path("v", []));
    var x := EvalExpr(cx, fuel, coll, vars, s);
    var s1 := Alloc(x.s, map["value" := v]);
    ListFilterUnfolds(cx, fuel, coll, p, vars, s);
    assert EvalCondition(cx, fuel, VALUE_ENV, p, |x.s.heap|, s1) == Res(s1, Done(false));
    assert [v][1..] == [];
    var r := EvalExpr(cx, fuel, Filter(coll, p), vars, s);
    assert r == Res(s1, Done(ListV([])));
    ListFilterUnfolds(cx, fuel, Filter(coll, p), q, vars, s);
    ListFilterUnfolds(cx, fuel, coll, Conjunction(p, q), vars, s);
    ConjunctionUnchecked(cx, fuel, VALUE_ENV, p, q, |x.s.heap|, s1);
  }

  /** A filter of a nonempty map by a conjunction whose second side does not check fails at its first entry. */
  lemma MapConjunctionUnchecked(cx: Ctx, fuel: nat, coll: Expr, p: Source, q: Source, vars: nat, s: State)
    requires p.Text? && q.Text? && !Accepts(TypeOf(ENTRY_ENV, q.e), TBool)
    requires var x := EvalExpr(cx, fuel, coll, vars, s);
             x.out.Done? && x.out.value.MapV? && At(x.s.heap, x.out.value.ref) != map[]
    ensures EvalExpr(cx, fuel, Filter(coll, Conjunction(p, q)), vars, s).out == Fail
  {
    MapFilterUnfolds(cx, fuel, coll, Conjunction(p, q), vars, s);
    var x := EvalExpr(cx, fuel, coll, vars, s);
    var r := EvalExpr(cx, fuel, Filter(coll, Conjunction(p, q)), vars, s);
    EntriesUnchecked(cx, fuel, p, q, x.out.value.ref, x.s, r);
  }

  lemma EntriesUnchecked(cx: Ctx, fuel: nat, p: Source, q: Source, ref: nat, s: State, r: Res<Val>)
    requires p.Text? && q.Text? && !Accepts(TypeOf(ENTRY_ENV, q.e), TBool) && At(s.heap, ref) != map[]
    requires r == FilterMap(cx, fuel, Conjunction(p, q), ref, KeysVisited(cx, ref, s), map[], s.(tick := s.tick + 1))
    ensures r.out == Fail
  {
    FirstVisited(At(s.heap, ref), cx.visit(s.tick));
    FirstEntryUnchecked(cx, fuel, p, q, ref, KeysVisited(cx, ref, s), s.(tick := s.tick + 1));
  }

  lemma FirstVisited(m: GoMap, picks: seq<nat>)
    requires m != map[]
    ensures var keys := Permute(SortedKeys(m.Keys), picks); keys != [] && keys[0] in m
  {
    VisitsEveryKey(m.Keys, picks);
    var k :| k in m;
    var keys := Permute(SortedKeys(m.Keys), picks);
    assert k in keys && keys[0] in keys;
  }

  lemma FirstEntryUnchecked(cx: Ctx, fuel: nat, p: Source, q: Source, ref: nat, keys: seq<string>, s: State)
    requires p.Text? && q.Text? && !Accepts(TypeOf(ENTRY_ENV, q.e), TBool)
    requires keys != [] && keys[0] in At(s.heap, ref)
    ensures FilterMap(cx, fuel, Conjunction(p, q), ref, keys, map[], s).out == Fail
  {
    var s1 := Alloc(s, Entry(keys[0], At(s.heap, ref)[keys[0]]));
    ConjunctionUnchecked(cx, fuel, ENTRY_ENV, p, q, |s.heap|, s1);
  }

  /** The same law for maps: for a map that is not empty, the type check is the exact condition. */
  lemma MapConjunctionSucceedsExactly(cx: Ctx, fuel: nat, coll: Expr, p: Source, q: Source, vars: nat, s: State)
    requires p.Text? && q.Text?
    requires var x := EvalExpr(cx, fuel, coll, vars, s);
             && x.out.Done? && x.out.value.MapV? && x.out.value.ref < |x.s.heap| && x.s.heap[x.out.value.ref] != map[]
             && (var j, m := Setting(cx, fuel, x.s.heap), x.s.heap[x.out.value.ref];
                 && FreeOnEntries(j, NoSlots(), p, m) && FreeOnEntries(j, NoSlots(), q, KeptEntries(j, p, m))
                 && AllEntriesJudged(j, p, m) && AllEntriesJudged(j, q, KeptEntries(j, p, m)))
    ensures EvalExpr(cx, fuel, Filter(coll, Conjunction(p, q)), vars, s).out.Done?
        <==> Accepts(TypeOf(ENTRY_ENV, q.e), TBool)
  {
    if Accepts(TypeOf(ENTRY_ENV, q.e), TBool) {
      NestedMapFilters(cx, fuel, coll, p, q, vars, s);
    } else {
      MapConjunctionUnchecked(cx, fuel, coll, p, q, vars, s);
    }
  }

  /** The literal `false` has no effect and holds of nothing. */
  lemma NothingKept(j: Setting, m: GoMap)
    ensures var p := Text(Lit(CBool(false)));
            FreeOnEntries(j, NoSlots(), p, m) && AllEntriesJudged(j, p, m) && KeptEntries(j, p, m) == map[]
  {
    var p := Text(Lit(CBool(false)));
    forall k | k in m
      ensures EffectFree(j.cx, j.fuel, ENTRY_ENV, p, j.h, NoSlots(), Entry(k, m[k]))
      ensures OnEntry(j, p, k, m[k]) == Done(false)
    {
      forall s: State, f: nat ensures EvalCondition(j.cx, j.fuel, ENTRY_ENV, p, f, s) == Res(s, Done(false)) {
        FalseCondition(j.cx, j.fuel, ENTRY_ENV, f, s);
      }
    }
  }

  lemma FalseCondition(cx: Ctx, fuel: nat, env: Env, f: nat, s: State)
    ensures EvalCondition(cx, fuel, env, Text(Lit(CBool(false))), f, s) == Res(s, Done(false))
  {
    assert EvalExpr(cx, fuel, Lit(CBool(false)), f, s) == Res(s, Done(BoolV(false)));
  }

  /** Such a run on any nonempty map: filter by `false`, then by the undeclared name `v`. */
  lemma MapConjunctionCanFail(cx: Ctx, fuel: nat, coll: Expr, vars: nat, s: State)
    requires var x := EvalExpr(cx, fuel, coll, vars, s);
             x.out.Done? && x.out.value.MapV? && x.out.value.ref < |x.s.heap| && x.s.heap[x.out.value.ref] != map[]
    ensures var p, q := Text(Lit(CBool(false))), Text(Path("v", []));
            && EntriesOf(EvalExpr(cx, fuel, Filter(Filter(coll, p), q), vars, s)) == Some(map[])
            && EvalExpr(cx, fuel, Filter(coll, Conjunction(p, q)), vars, s).out == Fail
  {
    var p, q := Text(Lit(CBool(false))), Text(Path("v", []));
    var x := EvalExpr(cx, fuel, coll, vars, s);
    var j, m := Setting(cx, fuel, x.s.heap), x.s.heap[x.out.value.ref];
    NothingKept(j, m);
    SecondMapFilter(cx, fuel, coll, p, q, vars, s);
    assert KeptEntries(j, q, map[]) == map[];
    MapConjunctionUnchecked(cx, fuel, coll, p, q, vars, s);
  }

  // ---------------------------------------------------------------- filters as steady expressions

  /** A filter of an old list is steady when its collection is and its predicate has no effect. */
  lemma ListFilterSteady(cx: Ctx, fuel: nat, coll: Expr, p: Source, f: nat, h: Heap, W: Slots, xs: seq<Val>)
    requires Steady(cx, fuel, coll, f, h, W, Some(Old(ListV(xs))))
    requires var j := Setting(cx, fuel, h); FreeOnElems(j, W, p, xs) && NoElemCut(j, p, xs)
    ensures var j := Setting(cx, fuel, h);
            Steady(cx, fuel, Filter(coll, p), f, h, W,
                   if AllElemsJudged(j, p, xs) then Some(Old(ListV(KeptElems(j, p, xs)))) else None)
  {
    var j := Setting(cx, fuel, h);
    var o := if AllElemsJudged(j, p, xs) then Some(Old(ListV(KeptElems(j, p, xs)))) else None;
    forall g: State | Sees(h, W, g.heap) ensures Gives(h, g, EvalExpr(cx, fuel, Filter(coll, p), f, g), o) {
      var x := EvalExpr(cx, fuel, coll, f, g);
      OperandRuns(cx, fuel, coll, f, h, W, Done(ListV(xs)), g);
      SeesMore(h, W, g.heap, x.s.heap);
      ListSteps(j, W, p, xs, [], x.s);
      assert [] + KeptElems(j, p, xs) == KeptElems(j, p, xs);
      KeptIn(j, p, xs);
      ListFilterUnfolds(cx, fuel, coll, p, f, g);
      GivesKept(h, g, EvalExpr(cx, fuel, Filter(coll, p), f, g), KeptElems(j, p, xs), AllElemsJudged(j, p, xs));
    }
  }

  lemma GivesKept(h: Heap, g: State, r: Res<Val>, kept: seq<Val>, judged: bool)
    requires OnlyAdds(g, r.s) && ValIn(ListV(kept), All(), |h|)
    requires if judged then r.out == Done(ListV(kept)) else r.out.Fail?
    ensures Gives(h, g, r, if judged then Some(Old(ListV(kept))) else None)
  {
    if judged { GivesOld(h, g, r, ListV(kept)); }
  }

  lemma {:induction false} KeptIn(j: Setting, p: Source, xs: seq<Val>)
    requires ValIn(ListV(xs), All(), |j.h|)
    ensures ValIn(ListV(KeptElems(j, p, xs)), All(), |j.h|)
    decreases |xs|
  {
    if xs != [] {
      assert ValIn(xs[0], All(), |j.h|) && ValIn(ListV(xs[1..]), All(), |j.h|);
      KeptIn(j, p, xs[1..]);
    }
  }

  lemma UnwrittenMap(h: Heap, W: Slots, g: Heap, ref: nat)
    requires ref < |h| && Sees(h, W, g) && forall c: string :: (ref, c) !in W
    ensures g[ref] == h[ref]
  {
    forall c: string ensures c in g[ref] <==> c in h[ref] { assert (ref, c) !in W; }
    forall c: string | c in h[ref] ensures g[ref][c] == h[ref][c] { assert (ref, c) !in W; }
  }

  function FilteredMap(j: Setting, p: Source, m: GoMap, judged: bool): Option<Made> {
    if judged then Some(Fresh(|j.h|, KeptEntries(j, p, m))) else None
  }

  lemma MapFilteredGives(j: Setting, p: Source, m: GoMap, g: State, s: State, r: Res<Val>)
    requires OnlyAdds(g, s) && MapFiltered(j, p, m, s, r) && MapIn(m, All(), |j.h|) && NoEntryCut(j, p, m)
    ensures Gives(j.h, g, r, FilteredMap(j, p, m, AllEntriesJudged(j, p, m)))
  {
    if AllEntriesJudged(j, p, m) { GivesFresh(j.h, g, r, KeptEntries(j, p, m)); }
  }

  lemma MapFilterGives(j: Setting, W: Slots, coll: Expr, p: Source, f: nat, ref: nat, g: State)
    requires ref < |j.h| && WellFormed(j.h) && Sees(j.h, W, g.heap) && forall c: string :: (ref, c) !in W
    requires FreeOnEntries(j, W, p, j.h[ref])
    requires var x := EvalExpr(j.cx, j.fuel, coll, f, g); OnlyAdds(g, x.s) && x.out == Done(MapV(ref))
    ensures OnlyAdds(g, EvalExpr(j.cx, j.fuel, coll, f, g).s) && MapIn(j.h[ref], All(), |j.h|)
    ensures MapFiltered(j, p, j.h[ref], EvalExpr(j.cx, j.fuel, coll, f, g).s,
                        EvalExpr(j.cx, j.fuel, Filter(coll, p), f, g))
  {
    var x := EvalExpr(j.cx, j.fuel, coll, f, g);
    SeesMore(j.h, W, g.heap, x.s.heap);
    UnwrittenMap(j.h, W, x.s.heap, ref);
    FilterOfMap(j, W, coll, p, f, g, ref, j.h[ref]);
  }

  /** A filter of an old map that is not written gives a new map that is always the same. */
  lemma MapFilterSteady(cx: Ctx, fuel: nat, coll: Expr, p: Source, f: nat, h: Heap, W: Slots, ref: nat)
    requires ref < |h| && WellFormed(h) && Steady(cx, fuel, coll, f, h, W, Some(Old(MapV(ref))))
    requires forall c: string :: (ref, c) !in W
    requires var j := Setting(cx, fuel, h); FreeOnEntries(j, W, p, h[ref]) && NoEntryCut(j, p, h[ref])
    ensures var j := Setting(cx, fuel, h);
            Steady(cx, fuel, Filter(coll, p), f, h, W, FilteredMap(j, p, h[ref], AllEntriesJudged(j, p, h[ref])))
  {
    var j := Setting(cx, fuel, h);
    var o := FilteredMap(j, p, h[ref], AllEntriesJudged(j, p, h[ref]));
    forall g: State | Sees(h, W, g.heap) ensures Gives(h, g, EvalExpr(cx, fuel, Filter(coll, p), f, g), o) {
      OperandRuns(cx, fuel, coll, f, h, W, Done(MapV(ref)), g);
      MapFilterGives(j, W, coll, p, f, ref, g);
      MapFilteredGives(j, p, h[ref], g, EvalExpr(cx, fuel, coll, f, g).s, EvalExpr(cx, fuel, Filter(coll, p), f, g));
    }
  }
}
