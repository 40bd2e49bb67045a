/**
 What a run does outside the interpreter: messages sent and resources created.
 */
module Effects {
  import opened Values
  import opened Syntax
  import opened Semantics

  /** A block of creations: a prefix, in order, of the files of one directory. */
  ghost predicate CreationBlock(cx: Ctx, es: seq<Effect>) {
    exists d :: d in cx.dirs && |es| <= |cx.dirs[d]| && es == Creations(cx.dirs[d][..|es|])
  }

  /** A sequence of sends and creation blocks. */
  ghost predicate Licensed(cx: Ctx, es: seq<Effect>)
    decreases |es|
  {
    || es == []
    || (es[|es| - 1].Sent? && Licensed(cx, es[..|es| - 1]))
    || (exists n | 0 <= n < |es| :: Licensed(cx, es[..n]) && CreationBlock(cx, es[n..]))
  }

  lemma SentLicensed(cx: Ctx, es: seq<Effect>, e: Effect)
    requires Licensed(cx, es) && e.Sent?
    ensures Licensed(cx, es + [e])
  {
    assert (es + [e])[..|es + [e]| - 1] == es;
  }

  lemma BlockLicensed(cx: Ctx, es: seq<Effect>, block: seq<Effect>)
    requires Licensed(cx, es) && CreationBlock(cx, block)
    ensures Licensed(cx, es + block)
  {
    if block == [] {
      assert es + block == es;
    } else {
      var all := es + block;
      assert all[..|es|] == es && all[|es|..] == block;
      assert |es| < |all|;
    }
  }

  /** How many resources a call of applyResources creates. */
  function Made(cx: Ctx, files: seq<string>, s: State): (n: nat)
    ensures n <= |files|
  {
    if cx.choice(s.tick) < |files| || IsDryRun(cx.settings) then 0
    else if cx.choice(s.tick + 1) < |files| then cx.choice(s.tick + 1)
    else |files|
  }

  /**
   applyResources creates a prefix of its directory's files, in order: all of them exactly when
   it reports no error, and none when a template fails or in a dry run.
   */
  lemma ApplyCreatesPrefix(cx: Ctx, dir: string, s: State)
    requires dir in cx.dirs
    ensures var r := Apply(cx, StrV(dir), s); var files := cx.dirs[dir]; var n := Made(cx, files, s);
            && r.s.heap == s.heap && r.out.Done? && r.out.value.StrV?
            && r.s.trace == s.trace + Creations(files[..n])
            && (!IsDryRun(cx.settings) ==> (r.out == Done(StrV("")) <==> n == |files| && cx.choice(s.tick) >= |files|))
  {
    var files := cx.dirs[dir];
    assert files[..|files|] == files;
    assert s.trace + Creations(files[..0]) == s.trace;
  }

  lemma ApplyLicensed(cx: Ctx, dir: Val, s: State)
    ensures Apply(cx, dir, s).s.heap == s.heap
    ensures s.trace <= Apply(cx, dir, s).s.trace
    ensures Licensed(cx, s.trace) ==> Licensed(cx, Apply(cx, dir, s).s.trace)
    ensures IsDryRun(cx.settings) ==> Apply(cx, dir, s).s.trace == s.trace
  {
    if dir.StrV? && dir.s in cx.dirs {
      ApplyCreatesPrefix(cx, dir.s, s);
      var block := Creations(cx.dirs[dir.s][..Made(cx, cx.dirs[dir.s], s)]);
      assert CreationBlock(cx, block);
      if Licensed(cx, s.trace) { BlockLicensed(cx, s.trace, block); }
    }
  }

  /** A map from strings to lists of strings. */
  ghost predicate Header(h: Heap, v: Val) {
    exists ref :: v == MapV(ref) && forall k | k in At(h, ref) :: exists xs :: At(h, ref)[k] == ListV(xs) && AllText(xs)
  }

  ghost predicate AllText(xs: seq<Val>) {
    forall i | 0 <= i < |xs| :: xs[i].StrV?
  }

  lemma HeaderExactly(h: Heap, v: Val)
    ensures IsHeader(h, v) <==> Header(h, v)
  {
    if v.MapV? {
      forall k | k in At(h, v.ref)
        ensures (exists xs :: At(h, v.ref)[k] == ListV(xs) && AllText(xs))
            <==> At(h, v.ref)[k].ListV? && AllText(At(h, v.ref)[k].elems)
      {
        var w := At(h, v.ref)[k];
        if w.ListV? { assert w == ListV(w.elems); }
      }
    }
  }

  /**
   sendEvent: a destination that is not a string or a malformed context fails and sends nothing. In a
   dry run nothing is sent and the call succeeds. Otherwise exactly one send to the destination is
   recorded, and the call succeeds exactly when it is accepted.
   */
  lemma SendExactly(cx: Ctx, destination: Val, context: Val, s: State)
    ensures var r := Send(cx, destination, context, s);
            && r.s.heap == s.heap
            && (!destination.StrV? || !Header(s.heap, context) ==> r == Res(s, Fail))
            && (destination.StrV? && Header(s.heap, context) && DryRunSet(cx.settings) ==> r == Res(s, Done(StrV(""))))
            && (destination.StrV? && Header(s.heap, context) && !DryRunSet(cx.settings) ==>
                  var accepted := cx.choice(s.tick) != 0;
                  && r.s.trace == s.trace + [Sent(destination.s, accepted)] && r.s.tick == s.tick + 1
                  && r.out == if accepted then Done(StrV("")) else Fail)
    ensures Licensed(cx, s.trace) ==> Licensed(cx, Send(cx, destination, context, s).s.trace)
  {
    HeaderExactly(s.heap, context);
    DryRunExactly(cx.settings);
    if destination.StrV? && Licensed(cx, s.trace) {
      SentLicensed(cx, s.trace, Sent(destination.s, cx.choice(s.tick) != 0));
    }
  }

  /**
   applyResources: a directory that is not a string fails; an unknown one is reported. A template that
   fails creates nothing. In a dry run nothing is created. Otherwise the resources are created in order,
   up to the one that fails; the answer is empty exactly when all were created.
   */
  lemma ApplyExactly(cx: Ctx, dir: Val, s: State)
    ensures !dir.StrV? ==> Apply(cx, dir, s) == Res(s, Fail)
    ensures dir.StrV? && dir.s !in cx.dirs ==>
              Apply(cx, dir, s).s == s && Apply(cx, dir, s).out.Done? && Apply(cx, dir, s).out != Done(StrV(""))
    ensures dir.StrV? && dir.s in cx.dirs ==>
              var r := Apply(cx, dir, s); var files := cx.dirs[dir.s];
              var bad, stop := cx.choice(s.tick) < |files|, cx.choice(s.tick + 1);
              && r.s.heap == s.heap && r.out.Done? && r.out.value.StrV?
              && (bad ==> r.s.trace == s.trace && r.out.value.s != "")
              && (!bad && DryRunSet(cx.settings) ==> r.s.trace == s.trace && r.out.value.s == "")
              && (!bad && !DryRunSet(cx.settings) ==>
                    && (stop < |files| ==> r.s.trace == s.trace + Creations(files[..stop]) && r.out.value.s != "")
                    && (stop >= |files| ==> r.s.trace == s.trace + Creations(files) && r.out.value.s == ""))
  {
    DryRunExactly(cx.settings);
  }

  /**
   The operands of sendEvent: destination, message and context are evaluated in this order, a failing
   one ends the call, and the values of the first and the third are sent with.
   */
  lemma SendOperands(cx: Ctx, fuel: nat, d: Expr, m: Expr, c: Expr, f: nat, s: State)
    ensures var r := EvalExpr(cx, fuel, SendEvent(d, m, c), f, s); var x := EvalExpr(cx, fuel, d, f, s);
            if !x.out.Done? then r == x
            else
              var y := EvalExpr(cx, fuel, m, f, x.s);
              if !y.out.Done? then r == y
              else
                var z := EvalExpr(cx, fuel, c, f, y.s);
                if !z.out.Done? then r == z else r == Send(cx, x.out.value, z.out.value, z.s)
  {
    assert EvalExpr(cx, fuel, SendEvent(d, m, c), f, s) == EvalSend(cx, fuel, SendEvent(d, m, c), f, s);
  }

  /** Both operands of applyResources are evaluated; the value of the first is the directory. */
  lemma ApplyOperands(cx: Ctx, fuel: nat, d: Expr, v: Expr, f: nat, s: State)
    ensures var r := EvalExpr(cx, fuel, ApplyResources(d, v), f, s);
            var x := EvalExpr(cx, fuel, d, f, s); var y := EvalExpr(cx, fuel, v, f, x.s);
            && (x.out.Done? && y.out.Done? ==> r == Apply(cx, x.out.value, y.s))
            && (x.out.OutOfFuel? || y.out.OutOfFuel? ==> r == Res(y.s, OutOfFuel))
            && (!x.out.OutOfFuel? && !y.out.OutOfFuel? && (x.out.Fail? || y.out.Fail?) ==> r == Res(y.s, Fail))
  {
    assert EvalExpr(cx, fuel, ApplyResources(d, v), f, s) == EvalApply(cx, fuel, ApplyResources(d, v), f, s);
  }
}
