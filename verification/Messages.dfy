/**
 Whole messages: several triggers on one message.
 */
module Messages {
  import opened Text
  import opened Values
  import opened Syntax
  import opened Semantics
  import opened Effects
  import opened Ownership
  import opened Scoping
  import opened DottedAssignment
  import opened Renaming

  // ---------------------------------------------------------------- regions

  /** The maps of V refer to maps of V only, and V has every map still to be allocated. */
  ghost predicate Closed(h: Heap, V: iset<nat>) {
    && (forall r: nat | |h| <= r :: r in V)
    && (forall r: nat | r < |h| && r in V :: MapIn(h[r], V, |h|))
  }

  ghost predicate ReachOrNew(h: Heap, message: nat, r: nat) {
    |h| <= r || Reaches(h, message, r)
  }

  /** What is reachable from the message, and what is new. */
  ghost function MessageRegion(h: Heap, message: nat): iset<nat> {
    iset r: nat | ReachOrNew(h, message, r)
  }

  lemma {:induction false} MentionedAll(v: Val, V: iset<nat>, n: nat)
    requires forall r: nat | Mentions(v, r) :: r in V && r < n
    ensures ValIn(v, V, n)
    decreases v
  {
    if v.ListV? {
      forall i | 0 <= i < |v.elems| ensures ValIn(v.elems[i], V, n) {
        assert forall r: nat | Mentions(v.elems[i], r) :: Mentions(v, r);
        MentionedAll(v.elems[i], V, n);
      }
    }
  }

  lemma MessageRegionClosed(h: Heap, message: nat)
    requires WellFormed(h) && message < |h|
    ensures Closed(h, MessageRegion(h, message)) && message in MessageRegion(h, message)
  {
    var V := MessageRegion(h, message);
    ReachesSelf(h, message);
    forall r: nat | r < |h| && r in V
      ensures MapIn(h[r], V, |h|)
    {
      forall k | k in h[r] ensures ValIn(h[r][k], V, |h|) {
        forall b: nat | Mentions(h[r][k], b) ensures b in V && b < |h| {
          assert Edge(h, r, b);
          EdgeInside(h, r, b);
          ReachesStep(h, message, r, b);
        }
        MentionedAll(h[r][k], V, |h|);
      }
    }
  }

  // ---------------------------------------------------------------- ownership

  /** A trigger writes maps of V only, when V is closed and holds the message. */
  lemma TriggerKept(cx: Ctx, fuel: nat, t: Trigger, message: nat, s: State, V: iset<nat>)
    requires Closed(s.heap, V) && message in V && message < |s.heap|
    ensures var r := RunTrigger(cx, fuel, t, message, s);
            && Closed(r.s.heap, V) && Grows(s.heap, r.s.heap) && TraceKept(cx, s, r.s)
            && Spares(s.heap, r.s.heap, V, |s.heap|)
  {
    if t.input.Some? && t.body.Some? {
      var f := |s.heap|;
      var m := map[t.input.value := MapV(message)];
      var s1 := Alloc(s, m);
      forall r: nat | r < |s1.heap| && r in V ensures MapIn(s1.heap[r], V, |s1.heap|) {
        if r < f { MapInMono(s.heap[r], V, f, f + 1); }
      }
      ArrayKept(cx, fuel, map[t.input.value := TMap], f, t.body.value, s1, V);
    }
  }

  lemma {:induction false} TriggersKept(cx: Ctx, fuel: nat, ts: seq<Trigger>, message: nat, saved: seq<nat>, s: State,
                                        V: iset<nat>)
    requires Closed(s.heap, V) && message in V && message < |s.heap|
    ensures var r := RunTriggers(cx, fuel, ts, message, saved, s);
            && Closed(r.s.heap, V) && Grows(s.heap, r.s.heap) && TraceKept(cx, s, r.s)
            && Spares(s.heap, r.s.heap, V, |s.heap|)
    decreases |ts|
  {
    if ts != [] {
      TriggerKept(cx, fuel, ts[0], message, s, V);
      var r := RunTrigger(cx, fuel, ts[0], message, s);
      if r.out.Done? { TriggersKept(cx, fuel, ts[1..], message, saved + [r.out.value], r.s, V); }
    }
  }

  /**
   Processing a message, with any triggers and functions and whatever the outcome: a map that was
   there before and is not reachable from the message is not written.
   */
  lemma MessageOwnership(cx: Ctx, fuel: nat, eventSource: string, message: nat, s: State, a: nat)
    requires WellFormed(s.heap) && message < |s.heap| && a < |s.heap| && !Reaches(s.heap, message, a)
    ensures var r := ProcessMessage(cx, fuel, eventSource, message, s);
            |s.heap| <= |r.s.heap| && r.s.heap[a] == s.heap[a]
  {
    MessageRegionClosed(s.heap, message);
    if eventSource in cx.triggers {
      TriggersKept(cx, fuel, cx.triggers[eventSource], message, [], s, MessageRegion(s.heap, message));
    }
  }

  /** In a dry run nothing is sent or created, through any nesting of calls and blocks. */
  lemma DryRunHasNoEffects(cx: Ctx, fuel: nat, eventSource: string, message: nat, s: State)
    requires WellFormed(s.heap) && message < |s.heap| && DryRunSet(cx.settings)
    ensures ProcessMessage(cx, fuel, eventSource, message, s).s.trace == s.trace
  {
    DryRunExactly(cx.settings);
    if eventSource in cx.triggers {
      MessageRegionClosed(s.heap, message);
      TriggersKept(cx, fuel, cx.triggers[eventSource], message, [], s, MessageRegion(s.heap, message));
    }
  }

  /** Whatever a message does, the trace remains a sequence of sends and of in-order prefixes of directories. */
  lemma MessageLicensed(cx: Ctx, fuel: nat, eventSource: string, message: nat, s: State)
    requires WellFormed(s.heap) && message < |s.heap| && Licensed(cx, s.trace)
    ensures var r := ProcessMessage(cx, fuel, eventSource, message, s);
            s.trace <= r.s.trace && Licensed(cx, r.s.trace)
  {
    if eventSource in cx.triggers {
      MessageRegionClosed(s.heap, message);
      TriggersKept(cx, fuel, cx.triggers[eventSource], message, [], s, MessageRegion(s.heap, message));
    }
  }

  /**
   A call never changes the top-level bindings of its caller, even when it writes maps that are
   reachable from its argument.
   */
  lemma CallSparesCaller(cx: Ctx, fuel: nat, fd: FuncDef, arg: Val, caller: nat, s: State)
    requires Sealed(s.heap, AllBut(caller), caller) && ValIn(arg, AllBut(caller), |s.heap|)
    ensures var r := CallFunction(cx, fuel, fd, arg, s);
            At(r.s.heap, caller) == At(s.heap, caller) && Sealed(r.s.heap, AllBut(caller), caller)
  {
    CallKept(cx, fuel, fd, arg, caller, s, AllBut(caller));
  }

  // ---------------------------------------------------------------- saved variables

  predicate Unsaved(r: nat, saved: seq<nat>) {
    r !in saved
  }

  ghost function AllExcept(saved: seq<nat>): iset<nat> {
    iset r: nat | Unsaved(r, saved)
  }

  /** The state in which the k-th trigger starts. */
  ghost function StateBefore(cx: Ctx, fuel: nat, ts: seq<Trigger>, message: nat, k: nat, s: State): State
    requires k <= |ts|
    decreases k
  {
    if k == 0 then s else StateBefore(cx, fuel, ts[1..], message, k - 1, RunTrigger(cx, fuel, ts[0], message, s).s)
  }

  lemma {:induction false} AvoidNewToo(v: Val, saved: seq<nat>, n: nat)
    requires ValIn(v, AllExcept(saved), n)
    ensures ValIn(v, AllExcept(saved + [n]), n + 1)
    decreases v
  {
    if v.ListV? {
      forall i | 0 <= i < |v.elems| ensures ValIn(v.elems[i], AllExcept(saved + [n]), n + 1) {
        AvoidNewToo(v.elems[i], saved, n);
      }
    }
  }

  /** A trigger never touches the variables saved for earlier ones, and no value refers to its own. */
  lemma TriggerSparesSaved(cx: Ctx, fuel: nat, t: Trigger, message: nat, saved: seq<nat>, s: State)
    requires Closed(s.heap, AllExcept(saved)) && message < |s.heap| && message !in saved
    requires forall f | f in saved :: f < |s.heap|
    ensures var r := RunTrigger(cx, fuel, t, message, s);
            && |s.heap| <= |r.s.heap| && (forall f | f in saved :: r.s.heap[f] == s.heap[f])
            && (r.out.Done? ==> r.out.value == |s.heap| && |s.heap| < |r.s.heap|
                                && Closed(r.s.heap, AllExcept(saved + [|s.heap|])))
  {
    if t.input.Some? && t.body.Some? {
      var f := |s.heap|;
      var V := AllExcept(saved + [f]);
      var s1 := Alloc(s, map[t.input.value := MapV(message)]);
      forall r: nat | r < |s1.heap| && (r in V || r == f) ensures MapIn(s1.heap[r], V, |s1.heap|) {
        if r < f {
          assert MapIn(s.heap[r], AllExcept(saved), f);
          forall k | k in s.heap[r] ensures ValIn(s.heap[r][k], V, f + 1) { AvoidNewToo(s.heap[r][k], saved, f); }
        }
      }
      ArrayKept(cx, fuel, map[t.input.value := TMap], f, t.body.value, s1, V);
    }
  }

  /**
   A successful message gives one frame per trigger, in order. The k-th frame is the one that the
   k-th trigger, run alone on the heap the earlier ones left, allocates, and in the end it still
   has the bindings it had when that trigger finished.
   */
  lemma {:induction false} SavedInOrder(cx: Ctx, fuel: nat, ts: seq<Trigger>, message: nat, saved: seq<nat>, s: State)
    requires Closed(s.heap, AllExcept(saved)) && message < |s.heap| && message !in saved
    requires forall f | f in saved :: f < |s.heap|
    ensures var r := RunTriggers(cx, fuel, ts, message, saved, s);
            && |s.heap| <= |r.s.heap| && (forall f | f in saved :: r.s.heap[f] == s.heap[f])
            && (r.out.Done? ==>
                  && |r.out.value| == |saved| + |ts| && r.out.value[..|saved|] == saved
                  && (forall f | f in r.out.value :: f < |r.s.heap|)
                  && forall k | 0 <= k < |ts| ::
                       var a := RunTrigger(cx, fuel, ts[k], message, StateBefore(cx, fuel, ts, message, k, s));
                       && a.out == Done(r.out.value[|saved| + k])
                       && At(r.s.heap, a.out.value) == At(a.s.heap, a.out.value))
    decreases |ts|
  {
    if ts != [] {
      TriggerSparesSaved(cx, fuel, ts[0], message, saved, s);
      var r0 := RunTrigger(cx, fuel, ts[0], message, s);
      if r0.out.Done? {
        var saved' := saved + [r0.out.value];
        SavedInOrder(cx, fuel, ts[1..], message, saved', r0.s);
        var r := RunTriggers(cx, fuel, ts[1..], message, saved', r0.s);
        assert forall f | f in saved :: f in saved';
        if r.out.Done? {
          assert saved'[|saved|] in saved';
          assert r.out.value[|saved|] == saved'[|saved|] && r.out.value[..|saved|] == saved'[..|saved|];
          forall k | 0 < k < |ts|
            ensures var a := RunTrigger(cx, fuel, ts[k], message, StateBefore(cx, fuel, ts, message, k, s));
                    && a.out == Done(r.out.value[|saved| + k])
                    && At(r.s.heap, a.out.value) == At(a.s.heap, a.out.value)
          {
            assert ts[1..][k - 1] == ts[k];
          }
        }
      }
    }
  }

  /** The k-th frame of a finished message, as described above. */
  ghost predicate KthSaved(cx: Ctx, fuel: nat, ts: seq<Trigger>, message: nat, s: State, h: Heap, frames: seq<nat>,
                           k: nat)
    requires k < |ts| && k < |frames|
  {
    var a := RunTrigger(cx, fuel, ts[k], message, StateBefore(cx, fuel, ts, message, k, s));
    a.out == Done(frames[k]) && At(h, frames[k]) == At(a.s.heap, frames[k])
  }

  lemma TriggersComposition(cx: Ctx, fuel: nat, ts: seq<Trigger>, message: nat, s: State)
    requires WellFormed(s.heap) && message < |s.heap|
    ensures var r := RunTriggers(cx, fuel, ts, message, [], s);
            r.out.Done? ==>
              |r.out.value| == |ts|
              && forall k | 0 <= k < |ts| :: KthSaved(cx, fuel, ts, message, s, r.s.heap, r.out.value, k)
  {
    NothingSavedYet(s.heap);
    SavedInOrder(cx, fuel, ts, message, [], s);
  }

  /** A successful message: one frame per trigger, in order, each as its trigger left it. */
  lemma MessageComposition(cx: Ctx, fuel: nat, eventSource: string, message: nat, s: State)
    requires WellFormed(s.heap) && message < |s.heap|
    requires ProcessMessage(cx, fuel, eventSource, message, s).out.Done?
    ensures var r := ProcessMessage(cx, fuel, eventSource, message, s);
            && eventSource in cx.triggers && |r.out.value| == |cx.triggers[eventSource]|
            && forall k | 0 <= k < |r.out.value| ::
                 KthSaved(cx, fuel, cx.triggers[eventSource], message, s, r.s.heap, r.out.value, k)
  {
    TriggersComposition(cx, fuel, cx.triggers[eventSource], message, s);
  }

  // What a message does, in terms of the trigger bodies alone.

  /** The body of a trigger, in a new frame that binds the trigger's own input name to the message. */
  ghost function TriggerBody(cx: Ctx, fuel: nat, t: Trigger, message: nat, u: State): Res<Env>
    requires t.input.Some? && t.body.Some?
  {
    EvalArray(cx, fuel, map[t.input.value := TMap], |u.heap|, t.body.value,
              Alloc(u, map[t.input.value := MapV(message)]))
  }

  /** The state after the first k trigger bodies; a trigger without input name or body does nothing. */
  ghost function StateAfter(cx: Ctx, fuel: nat, ts: seq<Trigger>, message: nat, k: nat, s: State): State
    requires k <= |ts|
    decreases k
  {
    if k == 0 then s
    else
      var t, u := ts[k - 1], StateAfter(cx, fuel, ts, message, k - 1, s);
      if t.input.None? || t.body.None? then u else TriggerBody(cx, fuel, t, message, u).s
  }

  /** Trigger k has an input name and a body, and its body succeeds where it starts. */
  ghost predicate TriggerSucceeds(cx: Ctx, fuel: nat, ts: seq<Trigger>, message: nat, k: nat, s: State)
    requires k < |ts|
  {
    && ts[k].input.Some? && ts[k].body.Some?
    && TriggerBody(cx, fuel, ts[k], message, StateAfter(cx, fuel, ts, message, k, s)).out.Done?
  }

  lemma {:induction false} AfterFirst(cx: Ctx, fuel: nat, ts: seq<Trigger>, message: nat, k: nat, s: State)
    requires 0 < k <= |ts|
    ensures StateAfter(cx, fuel, ts, message, k, s)
         == StateAfter(cx, fuel, ts[1..], message, k - 1, RunTrigger(cx, fuel, ts[0], message, s).s)
    decreases k
  {
    if k == 1 {
      assert StateAfter(cx, fuel, ts, message, 0, s) == s;
    } else {
      AfterFirst(cx, fuel, ts, message, k - 1, s);
      assert ts[1..][k - 2] == ts[k - 1];
    }
  }

  lemma {:induction false} BeforeIsAfter(cx: Ctx, fuel: nat, ts: seq<Trigger>, message: nat, k: nat, s: State)
    requires k <= |ts|
    ensures StateBefore(cx, fuel, ts, message, k, s) == StateAfter(cx, fuel, ts, message, k, s)
    decreases k
  {
    if k > 0 {
      BeforeIsAfter(cx, fuel, ts[1..], message, k - 1, RunTrigger(cx, fuel, ts[0], message, s).s);
      AfterFirst(cx, fuel, ts, message, k, s);
    }
  }

  /** Every trigger succeeds, or one of them is the first that does not and decides the outcome. */
  lemma {:induction false} TriggersExactly(cx: Ctx, fuel: nat, ts: seq<Trigger>, message: nat, saved: seq<nat>,
                                           s: State)
    ensures var r := RunTriggers(cx, fuel, ts, message, saved, s);
            && (r.out.Done? <==> forall k | 0 <= k < |ts| :: TriggerSucceeds(cx, fuel, ts, message, k, s))
            && (r.out.Done? ==> r.s == StateAfter(cx, fuel, ts, message, |ts|, s))
    decreases |ts|
  {
    if ts != [] {
      var r0 := RunTrigger(cx, fuel, ts[0], message, s);
      assert StateAfter(cx, fuel, ts, message, 0, s) == s;
      assert r0.out.Done? <==> TriggerSucceeds(cx, fuel, ts, message, 0, s);
      if r0.out.Done? {
        TriggersExactly(cx, fuel, ts[1..], message, saved + [r0.out.value], r0.s);
        forall k | 0 < k < |ts|
          ensures TriggerSucceeds(cx, fuel, ts, message, k, s)
              <==> TriggerSucceeds(cx, fuel, ts[1..], message, k - 1, r0.s)
        {
          AfterFirst(cx, fuel, ts, message, k, s);
          assert ts[1..][k - 1] == ts[k];
        }
        forall k | 0 <= k < |ts| - 1
          ensures TriggerSucceeds(cx, fuel, ts[1..], message, k, r0.s)
              <==> TriggerSucceeds(cx, fuel, ts, message, k + 1, s)
        {
        }
        AfterFirst(cx, fuel, ts, message, |ts|, s);
      }
    }
  }

  /** Frame k is the one in which the body of trigger k ran, with the bindings it had when that body ended. */
  ghost predicate FrameSaved(cx: Ctx, fuel: nat, ts: seq<Trigger>, message: nat, s: State, h: Heap, frames: seq<nat>,
                             k: nat)
    requires k < |ts| && k < |frames| && ts[k].input.Some? && ts[k].body.Some?
  {
    var u := StateAfter(cx, fuel, ts, message, k, s);
    frames[k] == |u.heap| && At(h, frames[k]) == At(TriggerBody(cx, fuel, ts[k], message, u).s.heap, frames[k])
  }

  lemma FrameOf(cx: Ctx, fuel: nat, ts: seq<Trigger>, message: nat, s: State, h: Heap, frames: seq<nat>, k: nat)
    requires k < |ts| && k < |frames| && KthSaved(cx, fuel, ts, message, s, h, frames, k)
    ensures ts[k].input.Some? && ts[k].body.Some? && FrameSaved(cx, fuel, ts, message, s, h, frames, k)
  {
    BeforeIsAfter(cx, fuel, ts, message, k, s);
  }

  /**
   A message succeeds exactly when there are triggers for its event source and every one of them has an
   input name and a body that succeeds in the state the earlier ones left. The returned frames are then
   those of the bodies, in order, as each body left them.
   */
  lemma MessageExactly(cx: Ctx, fuel: nat, eventSource: string, message: nat, s: State)
    requires WellFormed(s.heap) && message < |s.heap|
    ensures var r := ProcessMessage(cx, fuel, eventSource, message, s);
            && (eventSource !in cx.triggers ==> r == Res(s, Fail))
            && (eventSource in cx.triggers ==>
                  var ts := cx.triggers[eventSource];
                  && (r.out.Done? <==> forall k | 0 <= k < |ts| :: TriggerSucceeds(cx, fuel, ts, message, k, s))
                  && (r.out.Done? ==>
                        && |r.out.value| == |ts| && r.s == StateAfter(cx, fuel, ts, message, |ts|, s)
                        && forall k | 0 <= k < |ts| ::
                             && TriggerSucceeds(cx, fuel, ts, message, k, s)
                             && FrameSaved(cx, fuel, ts, message, s, r.s.heap, r.out.value, k)))
  {
    if eventSource in cx.triggers {
      var ts := cx.triggers[eventSource];
      TriggersExactly(cx, fuel, ts, message, [], s);
      TriggersComposition(cx, fuel, ts, message, s);
      var r := ProcessMessage(cx, fuel, eventSource, message, s);
      if r.out.Done? {
        forall k | 0 <= k < |ts|
          ensures TriggerSucceeds(cx, fuel, ts, message, k, s)
                  && FrameSaved(cx, fuel, ts, message, s, r.s.heap, r.out.value, k)
        {
          FrameOf(cx, fuel, ts, message, s, r.s.heap, r.out.value, k);
        }
      }
    }
  }

  lemma {:induction false} StatesGrow(cx: Ctx, fuel: nat, ts: seq<Trigger>, message: nat, k: nat, s: State)
    requires k <= |ts| && WellFormed(s.heap) && message < |s.heap|
    ensures var u := StateAfter(cx, fuel, ts, message, k, s); WellFormed(u.heap) && |s.heap| <= |u.heap|
    decreases k
  {
    if k > 0 {
      StatesGrow(cx, fuel, ts, message, k - 1, s);
      var u := StateAfter(cx, fuel, ts, message, k - 1, s);
      ClosedAll(u.heap);
      TriggerKept(cx, fuel, ts[k - 1], message, u, All());
      ClosedAll(RunTrigger(cx, fuel, ts[k - 1], message, u).s.heap);
    }
  }

  lemma ClosedAll(h: Heap)
    ensures Closed(h, All()) <==> WellFormed(h)
    ensures forall r: nat :: r in All()
  {
    forall r: nat ensures r in All() { assert IsRef(r); }
  }

  /** In every frame that a message returns, the trigger's input is still bound to the message. */
  lemma InputStaysBound(cx: Ctx, fuel: nat, eventSource: string, message: nat, s: State, k: nat)
    requires WellFormed(s.heap) && message < |s.heap| && !cx.redeclare && eventSource in cx.triggers
    requires var r := ProcessMessage(cx, fuel, eventSource, message, s); r.out.Done? && k < |cx.triggers[eventSource]|
    ensures var r := ProcessMessage(cx, fuel, eventSource, message, s); var t := cx.triggers[eventSource][k];
            && |r.out.value| == |cx.triggers[eventSource]| && t.input.Some?
            && t.input.value in At(r.s.heap, r.out.value[k])
            && At(r.s.heap, r.out.value[k])[t.input.value] == MapV(message)
  {
    MessageExactly(cx, fuel, eventSource, message, s);
    var ts, r := cx.triggers[eventSource], ProcessMessage(cx, fuel, eventSource, message, s);
    assert TriggerSucceeds(cx, fuel, ts, message, k, s);
    assert FrameSaved(cx, fuel, ts, message, s, r.s.heap, r.out.value, k);
    StatesGrow(cx, fuel, ts, message, k, s);
    TriggerScoped(cx, fuel, ts[k], message, StateAfter(cx, fuel, ts, message, k, s));
  }

  lemma NothingSavedYet(h: Heap)
    requires WellFormed(h)
    ensures Closed(h, AllExcept([]))
  {
    forall r: nat | r < |h| ensures MapIn(h[r], AllExcept([]), |h|) {
      assert MapIn(h[r], All(), |h|);
      forall k | k in h[r] ensures ValIn(h[r][k], AllExcept([]), |h|) { NothingSaved(h[r][k], |h|); }
    }
  }

  lemma {:induction false} NothingSaved(v: Val, n: nat)
    requires ValIn(v, All(), n)
    ensures ValIn(v, AllExcept([]), n)
    decreases v
  {
    if v.ListV? {
      forall i | 0 <= i < |v.elems| ensures ValIn(v.elems[i], AllExcept([]), n) { NothingSaved(v.elems[i], n); }
    }
  }

  // ---------------------------------------------------------------- independence

  ghost predicate InReach(h: Heap, message: nat, r: nat) {
    r < |h| && Reaches(h, message, r)
  }

  /** Every reference reachable from the message stands for itself. */
  ghost function Identity(h: Heap, message: nat): Ren {
    var m := map r: nat | 0 <= r < |h| && InReach(h, message, r) :: r;
    Ren(m, m)
  }

  lemma {:induction false} SelfRelated(v: Val, p: Ren)
    requires forall r: nat | Mentions(v, r) :: r in p.to && p.to[r] == r
    ensures RelVal(p, v, v)
    decreases v
  {
    if v.ListV? {
      forall i | 0 <= i < |v.elems| ensures RelVal(p, v.elems[i], v.elems[i]) {
        assert forall r: nat | Mentions(v.elems[i], r) :: Mentions(v, r);
        SelfRelated(v.elems[i], p);
      }
    }
  }

  lemma SameMessage(h: Heap, g: Heap, message: nat)
    requires WellFormed(h) && message < |h| <= |g|
    requires forall r: nat | InReach(h, message, r) :: g[r] == h[r]
    ensures RelHeap(Identity(h, message), h, g)
    ensures message in Identity(h, message).to
  {
    var p := Identity(h, message);
    ReachesSelf(h, message);
    assert InReach(h, message, message);
    forall a | a in p.to
      ensures RelMap(p, h[a], g[a])
    {
      assert InReach(h, message, a);
      forall k | k in h[a] ensures RelVal(p, h[a][k], h[a][k]) {
        forall b: nat | Mentions(h[a][k], b) ensures b in p.to && p.to[b] == b {
          assert Edge(h, a, b);
          EdgeInside(h, a, b);
          ReachesStep(h, message, a, b);
          assert InReach(h, message, b);
        }
        SelfRelated(h[a][k], p);
      }
    }
  }

  /** Corresponding messages in corresponding states get corresponding variables. */
  lemma RelTrigger(cx: Ctx, fuel: nat, t: Trigger, m: nat, m': nat, s: State, u: State, p: Ren) returns (q: Ren)
    requires Rel(p, s, u) && Framed(p, m, m')
    ensures var a := RunTrigger(cx, fuel, t, m, s); var b := RunTrigger(cx, fuel, t, m', u);
            && Rel(q, a.s, b.s)
            && (a.out.Done? <==> b.out.Done?) && (a.out.Fail? <==> b.out.Fail?)
            && (a.out.Done? ==> Framed(q, a.out.value, b.out.value))
  {
    q := p;
    if t.input.Some? && t.body.Some? {
      var x, y := map[t.input.value := MapV(m)], map[t.input.value := MapV(m')];
      var q1 := RelBinding(t.input.value, m, m', s, u, p);
      var env := map[t.input.value := TMap];
      q := RelArray(cx, fuel, env, |s.heap|, |u.heap|, t.body.value, Alloc(s, x), Alloc(u, y), q1);
    }
  }

  lemma RelBinding(name: string, m: nat, m': nat, s: State, u: State, p: Ren) returns (q: Ren)
    requires Rel(p, s, u) && Framed(p, m, m')
    ensures Rel(q, Alloc(s, map[name := MapV(m)]), Alloc(u, map[name := MapV(m')]))
    ensures Framed(q, |s.heap|, |u.heap|)
  {
    q := RelAlloc(p, s, u, map[name := MapV(m)], map[name := MapV(m')]);
  }

  /**
   When nothing reachable from the message has been written, a trigger does what it would do on
   the original heap: same success or failure, and the same variables up to the identity of maps.
   The choices of the outside world are taken to be the same in both runs.
   */
  lemma TriggerAlone(cx: Ctx, fuel: nat, t: Trigger, message: nat, s: State, u: State) returns (q: Ren)
    requires WellFormed(s.heap) && message < |s.heap| <= |u.heap|
    requires s.tick == u.tick && s.trace == u.trace
    requires forall r: nat | InReach(s.heap, message, r) :: u.heap[r] == s.heap[r]
    ensures var a := RunTrigger(cx, fuel, t, message, s); var b := RunTrigger(cx, fuel, t, message, u);
            && Rel(q, a.s, b.s)
            && (a.out.Done? <==> b.out.Done?) && (a.out.Fail? <==> b.out.Fail?)
            && (a.out.Done? ==> Framed(q, a.out.value, b.out.value))
  {
    SameMessage(s.heap, u.heap, message);
    q := RelTrigger(cx, fuel, t, message, message, s, u, Identity(s.heap, message));
  }

  lemma {:induction false} StateBeforeGrows(cx: Ctx, fuel: nat, ts: seq<Trigger>, message: nat, k: nat, s: State,
                                            V: iset<nat>)
    requires k <= |ts| && Closed(s.heap, V) && message in V && message < |s.heap|
    ensures |s.heap| <= |StateBefore(cx, fuel, ts, message, k, s).heap|
    decreases k
  {
    if k > 0 {
      TriggerKept(cx, fuel, ts[0], message, s, V);
      StateBeforeGrows(cx, fuel, ts[1..], message, k - 1, RunTrigger(cx, fuel, ts[0], message, s).s, V);
    }
  }

  /**
   The k-th trigger of a message, compared with the same trigger on the original maps: when the earlier
   triggers have not written what is reachable from the message, the frame that the message saves for
   it corresponds to the frame of that run. The original maps are taken with the trace and the choices
   that the earlier triggers leave.
   */
  lemma KthTriggerAlone(cx: Ctx, fuel: nat, ts: seq<Trigger>, message: nat, k: nat, s: State) returns (q: Ren)
    requires WellFormed(s.heap) && message < |s.heap| && k < |ts|
    requires var u := StateBefore(cx, fuel, ts, message, k, s);
             forall r: nat | InReach(s.heap, message, r) && r < |u.heap| :: u.heap[r] == s.heap[r]
    ensures var u := StateBefore(cx, fuel, ts, message, k, s);
            var a := RunTrigger(cx, fuel, ts[k], message, s.(trace := u.trace, tick := u.tick));
            var r := RunTriggers(cx, fuel, ts, message, [], s);
            && Rel(q, a.s, RunTrigger(cx, fuel, ts[k], message, u).s)
            && (r.out.Done? ==> a.out.Done? && |r.out.value| == |ts| && Framed(q, a.out.value, r.out.value[k])
                                && a.out.value < |a.s.heap|
                                && RelMap(q, a.s.heap[a.out.value], At(r.s.heap, r.out.value[k])))
  {
    var u := StateBefore(cx, fuel, ts, message, k, s);
    MessageRegionClosed(s.heap, message);
    StateBeforeGrows(cx, fuel, ts, message, k, s, MessageRegion(s.heap, message));
    q := TriggerAlone(cx, fuel, ts[k], message, s.(trace := u.trace, tick := u.tick), u);
    TriggersComposition(cx, fuel, ts, message, s);
    var r := RunTriggers(cx, fuel, ts, message, [], s);
    if r.out.Done? { assert KthSaved(cx, fuel, ts, message, s, r.s.heap, r.out.value, k); }
  }
}
