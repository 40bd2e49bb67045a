/** A function that returns a new map with new maps inside. */
module Preprocess {
  import opened Text
  import opened Values
  import opened Syntax
  import opened Semantics
  import opened Ownership
  import opened Scoping
  import opened DottedAssignment
  import opened Termination
  import opened Renaming
  import opened Purity
  import opened Steadiness
  import opened Filtering

  // The shape of the functions that prepare a webhook message: they build a nested map with dotted
  // assignments, some of whose values are filters. A call of such a function is steady.

  /**
   The names in the function: it filters `input.header` into `output.first`, and stores the value at
   the path `url` below the input in `output.second.last`.
   */
  datatype Job = Job(input: string, output: string, first: string, second: string, last: string, header: string,
                     url: seq<string>, p: Source)

  function FirstName(b: Job): string {
    b.output + "." + b.first
  }

  function SecondName(b: Job): string {
    b.output + "." + (b.second + "." + b.last)
  }

  predicate Usable(b: Job) {
    && '.' !in b.input && '.' !in b.output && '.' !in b.first && '.' !in b.second && '.' !in b.last
    && b.input != b.output && b.first != b.second && !IsKeyword(FirstName(b)) && !IsKeyword(SecondName(b))
  }

  function Collection(b: Job): Expr {
    Path(b.input, [b.header])
  }

  function FirstStatement(b: Job): Yaml {
    Assign(FirstName(b), Text(Filter(Collection(b), b.p)))
  }

  function SecondStatement(b: Job): Yaml {
    Assign(SecondName(b), Text(Path(b.input, b.url)))
  }

  function Definition(b: Job): FuncDef {
    FuncDef(Some(b.input), Some(b.output), YList([FirstStatement(b), SecondStatement(b)]))
  }

  lemma {:induction false} SplitHead(name: string, rest: string)
    requires '.' !in name
    ensures SplitDots(name + "." + rest) == [name] + SplitDots(rest)
  {
    if name == "" {
      assert (name + "." + rest)[1..] == rest;
    } else {
      SplitHead(name[1..], rest);
      assert (name + "." + rest)[1..] == name[1..] + "." + rest;
      assert [name[0]] + name[1..] == name;
    }
  }

  lemma Targets(b: Job)
    requires Usable(b)
    ensures SplitDots(FirstName(b)) == [b.output, b.first] && SplitDots(SecondName(b)) == [b.output, b.second, b.last]
  {
    SplitPlain(b.first);
    SplitHead(b.output, b.first);
    SplitPlain(b.last);
    SplitHead(b.second, b.last);
    SplitHead(b.output, b.second + "." + b.last);
  }

  /** Message m has header map hd and value v at the path, and neither is written in the slots W. */
  ghost predicate Message(j: Setting, W: Slots, b: Job, m: nat, hd: nat, v: Val) {
    && WellFormed(j.h) && m < |j.h| && hd < |j.h|
    && b.header in j.h[m] && j.h[m][b.header] == MapV(hd) && (m, b.header) !in W
    && (forall c: string :: (hd, c) !in W)
    && Select(j.h, MapV(m), b.url) == Done(v) && KindOf(v).Some?
    && (forall q: nat, c: string | (q, c) in W :: !SelectReads(j.h, MapV(m), b.url, q, c))
    && FreeOnEntries(j, W, b.p, j.h[hd]) && AllEntriesJudged(j, b.p, j.h[hd])
  }

  function InputEnv(b: Job): Env {
    map[b.input := TMap]
  }

  /** The frame f of a call with message m, before its body. */
  ghost predicate AtEntry(h: Heap, W: Slots, b: Job, m: nat, f: nat, s: State) {
    Sees(h, W, s.heap) && |h| <= f < |s.heap| && s.heap[f] == map[b.input := MapV(m)]
  }

  /** From s to t, only the frame and new maps have been written. */
  ghost predicate OnlyWrites(s: State, t: State, f: nat) {
    |s.heap| <= |t.heap| && t.trace == s.trace && forall q: nat | q < |s.heap| && q != f :: t.heap[q] == s.heap[q]
  }

  /** After the first statement: map c holds the filtered header, which is map d. */
  ghost predicate HalfBuilt(b: Job, s: State, t: State, f: nat, c: nat, d: nat, m: nat, kept: GoMap) {
    && OnlyWrites(s, t, f) && f < |s.heap| && |s.heap| <= d < c < |t.heap|
    && t.heap[f] == map[b.input := MapV(m)][b.output := MapV(c)]
    && t.heap[c] == map[b.first := MapV(d)] && t.heap[d] == kept
  }

  lemma HeaderSelected(j: Setting, W: Slots, b: Job, m: nat, hd: nat, v: Val, f: nat, s: State)
    requires Message(j, W, b, m, hd, v) && AtEntry(j.h, W, b, m, f, s)
    ensures EvalExpr(j.cx, j.fuel, Collection(b), f, s) == Res(s, Done(MapV(hd))) && s.heap[hd] == j.h[hd]
  {
    assert s.heap[m][b.header] == MapV(hd);
    assert [b.header][1..] == [] && Select(s.heap, MapV(hd), []) == Done(MapV(hd));
    assert Select(s.heap, MapV(m), [b.header]) == Done(MapV(hd));
    UnwrittenMap(j.h, W, s.heap, hd);
  }

  lemma HeaderFiltered(j: Setting, W: Slots, b: Job, m: nat, hd: nat, v: Val, f: nat, s: State)
    requires Message(j, W, b, m, hd, v) && AtEntry(j.h, W, b, m, f, s)
    ensures MapFiltered(j, b.p, j.h[hd], s, EvalExpr(j.cx, j.fuel, Filter(Collection(b), b.p), f, s))
  {
    HeaderSelected(j, W, b, m, hd, v, f, s);
    FilterOfMap(j, W, Collection(b), b.p, f, s, hd, j.h[hd]);
  }

  lemma FirstStored(cx: Ctx, b: Job, s: State, f: nat, m: nat, kept: GoMap, d: nat, x: State)
    requires Usable(b) && f < |s.heap| && s.heap[f] == map[b.input := MapV(m)]
    requires OnlyAdds(s, x) && |s.heap| <= d < |x.heap| && x.heap[d] == kept
    ensures var r := CreateVariable(cx, InputEnv(b), f, FirstName(b), MapV(d), x);
            r.out == Done(InputEnv(b)[b.output := TMap]) && HalfBuilt(b, s, r.s, f, |x.heap|, d, m, kept)
  {
    Targets(b);
    var names := [b.output, b.first];
    assert x.heap[f] == s.heap[f];
    ChainBuilt(x.heap, f, names, MapV(d));
    var g := AssignAt(x.heap, f, names, MapV(d)).value;
    assert g[|x.heap| + 0] == ChainMap(|x.heap|, names, 0, MapV(d));
    forall q: nat | q < |s.heap| && q != f ensures g[q] == s.heap[q] { assert x.heap[q] == s.heap[q]; }
  }

  lemma FirstTyped(b: Job)
    ensures TypeOf(InputEnv(b), Filter(Collection(b), b.p)) == Some(TAny)
  {
    assert TypeOf(InputEnv(b), Collection(b)) == Some(TAny);
  }

  /** An assignment whose expression has a value. */
  lemma AssignRuns(cx: Ctx, fuel: nat, env: Env, f: nat, name: string, e: Expr, s: State, x: Res<Val>)
    requires !IsKeyword(name) && name != "" && TypeOf(env, e).Some?
    requires x == EvalExpr(cx, fuel, e, f, s.(tick := s.tick + 1)) && x.out.Done?
    ensures EvalObject(cx, fuel, env, f, Assign(name, Text(e)), s) == CreateVariable(cx, env, f, name, x.out.value, x.s)
  {
    SingleAssign(cx, fuel, env, f, name, Text(e), s);
  }

  lemma FirstRuns(j: Setting, W: Slots, b: Job, m: nat, hd: nat, v: Val, f: nat, s: State) returns (c: nat, d: nat)
    requires Usable(b) && Message(j, W, b, m, hd, v) && AtEntry(j.h, W, b, m, f, s)
    ensures var r := EvalObject(j.cx, j.fuel, InputEnv(b), f, FirstStatement(b), s);
            && r.out == Done(InputEnv(b)[b.output := TMap])
            && HalfBuilt(b, s, r.s, f, c, d, m, KeptEntries(j, b.p, j.h[hd]))
  {
    var s1 := s.(tick := s.tick + 1);
    HeaderFiltered(j, W, b, m, hd, v, f, s1);
    var x := EvalExpr(j.cx, j.fuel, Filter(Collection(b), b.p), f, s1);
    c, d := |x.s.heap|, x.out.value.ref;
    FirstStored(j.cx, b, s1, f, m, KeptEntries(j, b.p, j.h[hd]), d, x.s);
    FirstTyped(b);
    AssignRuns(j.cx, j.fuel, InputEnv(b), f, FirstName(b), Filter(Collection(b), b.p), s, x);
  }

  /** After the second statement: map c also holds map e, which holds the value. */
  ghost predicate Built(b: Job, s: State, t: State, f: nat, c: nat, d: nat, e: nat, kept: GoMap, v: Val) {
    && OnlyWrites(s, t, f) && |s.heap| <= d < c < e < |t.heap|
    && f < |s.heap| && b.output in t.heap[f] && t.heap[f][b.output] == MapV(c)
    && t.heap[c] == map[b.first := MapV(d)][b.second := MapV(e)] && t.heap[d] == kept && t.heap[e] == map[b.last := v]
  }

  lemma SecondStored(cx: Ctx, env: Env, b: Job, s: State, t: State, f: nat, c: nat, d: nat, m: nat, kept: GoMap, v: Val)
    requires Usable(b) && HalfBuilt(b, s, t, f, c, d, m, kept)
    ensures var r := CreateVariable(cx, env, f, SecondName(b), v, t);
            r.out == Done(env) && Built(b, s, r.s, f, c, d, |t.heap|, kept, v)
  {
    Targets(b);
    var names, rest := [b.output, b.second, b.last], [b.second, b.last];
    assert names[1..] == rest;
    ChainBuilt(t.heap, c, rest, v);
    var g := AssignAt(t.heap, c, rest, v).value;
    assert AssignAt(t.heap, f, names, v) == Some(g);
    assert g[|t.heap| + 0] == ChainMap(|t.heap|, rest, 0, v);
    forall q: nat | q < |s.heap| && q != f ensures g[q] == s.heap[q] { assert t.heap[q] == s.heap[q]; }
  }

  lemma SeesWritten(h: Heap, W: Slots, s: State, t: State, f: nat)
    requires Sees(h, W, s.heap) && |h| <= f && OnlyWrites(s, t, f)
    ensures Sees(h, W, t.heap)
  {
  }

  lemma SecondEvaluates(j: Setting, W: Slots, b: Job, m: nat, hd: nat, v: Val, f: nat, t: State)
    requires Message(j, W, b, m, hd, v) && Sees(j.h, W, t.heap) && f < |t.heap|
    requires b.input in t.heap[f] && t.heap[f][b.input] == MapV(m)
    ensures EvalExpr(j.cx, j.fuel, Path(b.input, b.url), f, t) == Res(t, Done(v))
  {
    SelectStable(j.h, W, t.heap, MapV(m), b.url);
  }

  lemma SecondRuns(j: Setting, W: Slots, b: Job, m: nat, hd: nat, v: Val, f: nat, s: State, t: State, c: nat, d: nat)
    requires Usable(b) && Message(j, W, b, m, hd, v) && AtEntry(j.h, W, b, m, f, s)
    requires HalfBuilt(b, s, t, f, c, d, m, KeptEntries(j, b.p, j.h[hd]))
    ensures var r := EvalObject(j.cx, j.fuel, InputEnv(b)[b.output := TMap], f, SecondStatement(b), t);
            r.out.Done? && Built(b, s, r.s, f, c, d, |t.heap|, KeptEntries(j, b.p, j.h[hd]), v)
  {
    var t1, env := t.(tick := t.tick + 1), InputEnv(b)[b.output := TMap];
    SeesWritten(j.h, W, s, t1, f);
    SecondEvaluates(j, W, b, m, hd, v, f, t1);
    SecondTyped(b);
    SecondStored(j.cx, env, b, s, t1, f, c, d, m, KeptEntries(j, b.p, j.h[hd]), v);
    AssignRuns(j.cx, j.fuel, env, f, SecondName(b), Path(b.input, b.url), t, Res(t1, Done(v)));
  }

  lemma SecondTyped(b: Job)
    requires b.input != b.output
    ensures TypeOf(InputEnv(b)[b.output := TMap], Path(b.input, b.url)).Some?
  {
  }

  lemma BodyRuns(j: Setting, W: Slots, b: Job, m: nat, hd: nat, v: Val, f: nat, s: State)
      returns (c: nat, d: nat, e: nat)
    requires Usable(b) && Message(j, W, b, m, hd, v) && AtEntry(j.h, W, b, m, f, s)
    ensures var r := EvalArray(j.cx, j.fuel, InputEnv(b), f, [FirstStatement(b), SecondStatement(b)], s);
            r.out.Done? && Built(b, s, r.s, f, c, d, e, KeptEntries(j, b.p, j.h[hd]), v)
  {
    c, d := FirstRuns(j, W, b, m, hd, v, f, s);
    var r := EvalObject(j.cx, j.fuel, InputEnv(b), f, FirstStatement(b), s);
    SecondRuns(j, W, b, m, hd, v, f, s, r.s, c, d);
    e := |r.s.heap|;
    assert [FirstStatement(b), SecondStatement(b)][1..] == [SecondStatement(b)];
    SingletonArray(j.cx, j.fuel, InputEnv(b)[b.output := TMap], f, SecondStatement(b), r.s);
  }

  lemma Entry(cx: Ctx, b: Job, m: nat, s: State)
    requires Usable(b)
    ensures CreateVariable(cx, map[], |s.heap|, b.input, MapV(m), Alloc(s, map[]))
         == Res(Alloc(s, map[b.input := MapV(m)]), Done(InputEnv(b)))
  {
    SplitPlain(b.input);
    assert Put(Alloc(s, map[]).heap, |s.heap|, b.input, MapV(m)) == Alloc(s, map[b.input := MapV(m)]).heap;
  }

  /** The three new maps of the result, in the heap g. */
  ghost predicate Nested(b: Job, g: Heap, c: nat, d: nat, e: nat, kept: GoMap, v: Val) {
    && d < |g| && c < |g| && e < |g|
    && g[c] == map[b.first := MapV(d)][b.second := MapV(e)] && g[d] == kept && g[e] == map[b.last := v]
  }

  lemma CallRuns(j: Setting, W: Slots, b: Job, m: nat, hd: nat, v: Val, s: State) returns (c: nat, d: nat, e: nat)
    requires Usable(b) && Message(j, W, b, m, hd, v) && Sees(j.h, W, s.heap)
    ensures var r := CallFunction(j.cx, j.fuel, Definition(b), MapV(m), s);
            && r.out == Done(MapV(c)) && OnlyAdds(s, r.s) && |s.heap| <= d < c < e
            && Nested(b, r.s.heap, c, d, e, KeptEntries(j, b.p, j.h[hd]), v)
  {
    var f, s1 := |s.heap|, Alloc(s, map[b.input := MapV(m)]);
    SeesMore(j.h, W, s.heap, s1.heap);
    c, d, e := BodyRuns(j, W, b, m, hd, v, f, s1);
    Entry(j.cx, b, m, s);
    var r := EvalArray(j.cx, j.fuel, InputEnv(b), f, [FirstStatement(b), SecondStatement(b)], s1);
    OldKept(s, map[b.input := MapV(m)], r.s);
    FunctionUnfolds(j.cx, j.fuel, Definition(b), MapV(m), s);
  }

  lemma OldKept(s: State, m: GoMap, t: State)
    requires OnlyWrites(Alloc(s, m), t, |s.heap|)
    ensures OnlyAdds(s, t)
  {
    forall q: nat | q < |s.heap| ensures t.heap[q] == s.heap[q] { assert Alloc(s, m).heap[q] == s.heap[q]; }
  }

  /** What the call returns: three new maps, the first of which holds the other two. */
  function Result(b: Job, n: nat, kept: GoMap, v: Val): Made {
    Made(MapV(n), [map[b.first := MapV(n + 1)][b.second := MapV(n + 2)], kept, map[b.last := v]])
  }

  lemma ResultIn(b: Job, n: nat, kept: GoMap, v: Val)
    requires MapIn(kept, All(), n) && ValIn(v, All(), n)
    ensures MadeIn(Result(b, n, kept, v), n)
  {
    ValInMono(v, All(), n, n + 3);
    MapInMono(kept, All(), n, n + 3);
  }

  lemma ResultAt(b: Job, n: nat, kept: GoMap, v: Val, lo: nat, g: Heap, c: nat, d: nat, e: nat)
    requires MapIn(kept, All(), n) && ValIn(v, All(), n)
    requires lo <= d < c < e && Nested(b, g, c, d, e, kept, v)
    ensures MadeAt(n, Result(b, n, kept, v), lo, g, MapV(c), [c, d, e])
  {
    var k := [c, d, e];
    assert IsRef(n) && IsRef(n + 1) && IsRef(n + 2);
    var q := Placed(n, k);
    assert q.to[n] == c && q.to[n + 1] == d && q.to[n + 2] == e;
    SameOld(n, k, v);
    forall x | x in kept ensures RelVal(q, kept[x], kept[x]) { SameOld(n, k, kept[x]); }
    assert RelMap(q, kept, g[d]);
  }

  lemma ResultGiven(b: Job, h: Heap, kept: GoMap, v: Val, g: State, r: Res<Val>, c: nat, d: nat, e: nat)
    requires MapIn(kept, All(), |h|) && ValIn(v, All(), |h|) && OnlyAdds(g, r.s) && r.out == Done(MapV(c))
    requires |g.heap| <= d < c < e && Nested(b, r.s.heap, c, d, e, kept, v)
    ensures Gives(h, g, r, Some(Result(b, |h|, kept, v)))
  {
    ResultIn(b, |h|, kept, v);
    ResultAt(b, |h|, kept, v, |g.heap|, r.s.heap, c, d, e);
  }

  lemma PartsIn(j: Setting, W: Slots, b: Job, m: nat, hd: nat, v: Val)
    requires Message(j, W, b, m, hd, v)
    ensures ValIn(v, All(), |j.h|) && MapIn(KeptEntries(j, b.p, j.h[hd]), All(), |j.h|)
  {
    SelectIn(j.h, MapV(m), b.url, All(), 0);
    assert MapIn(j.h[hd], All(), |j.h|);
  }

  lemma CallUnfolds(cx: Ctx, fuel: nat, name: string, x: string, f: nat, g: State, v: Val)
    requires fuel > 0 && name in cx.functions && x in At(g.heap, f) && At(g.heap, f)[x] == v
    ensures EvalExpr(cx, fuel, Call(Lit(CString(name)), Path(x, [])), f, g)
         == CallFunction(cx, fuel - 1, cx.functions[name], v, g)
  {
    assert Select(g.heap, v, []) == Done(v);
    assert EvalExpr(cx, fuel, Lit(CString(name)), f, g) == Res(g, Done(StrV(name)));
    assert EvalExpr(cx, fuel, Path(x, []), f, g) == Res(g, Done(v));
  }

  /**
   A call of such a function with a variable that holds a message is steady, for any predicate without
   effects: it always returns the same nested map, up to the identity of its three new maps.
   */
  lemma PreprocessSteady(cx: Ctx, fuel: nat, name: string, b: Job, f: nat, x: string, h: Heap, W: Slots, m: nat,
                         hd: nat,
                         v: Val)
    requires fuel > 0 && name in cx.functions && cx.functions[name] == Definition(b) && Usable(b)
    requires Message(Setting(cx, fuel - 1, h), W, b, m, hd, v)
    requires f < |h| && x in h[f] && h[f][x] == MapV(m) && (f, x) !in W
    ensures Steady(cx, fuel, Call(Lit(CString(name)), Path(x, [])), f, h, W,
                   Some(Result(b, |h|, KeptEntries(Setting(cx, fuel - 1, h), b.p, h[hd]), v)))
  {
    var j := Setting(cx, fuel - 1, h);
    var kept, e := KeptEntries(j, b.p, h[hd]), Call(Lit(CString(name)), Path(x, []));
    PartsIn(j, W, b, m, hd, v);
    forall g: State | Sees(h, W, g.heap)
      ensures Gives(h, g, EvalExpr(cx, fuel, e, f, g), Some(Result(b, |h|, kept, v)))
    {
      CallUnfolds(cx, fuel, name, x, f, g, MapV(m));
      var c, d, e1 := CallRuns(j, W, b, m, hd, v, g);
      ResultGiven(b, h, kept, v, g, EvalExpr(cx, fuel, e, f, g), c, d, e1);
    }
  }
}
