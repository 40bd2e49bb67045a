/**
 The switch statement against a declarative reading: the cases are judged one after the other, and
 the first that does not let the next one be judged decides.
 */
module Switching {
  import opened Text
  import opened Values
  import opened Syntax
  import opened Semantics

  /** How one element of a switch is judged, with the state after its condition. */
  datatype Judgement =
    | Pass(s: State)
    | Take(s: State)
    | Bad(s: State)
    | Cut(s: State)

  function Judge(cx: Ctx, fuel: nat, env: Env, vars: nat, c: Yaml, defaultSeen: bool, s: State): Judgement {
    if !c.YObject? then Bad(s)
    else if Get(c.fields, IF).Some? then
      if !IfSyntax(c.fields) then Bad(s)
      else
        var r := EvalCondition(cx, fuel, env, Get(c.fields, IF).value.text, vars, s);
        match r.out
        case Done(b) => if b then Take(r.s) else Pass(r.s)
        case Fail => Bad(r.s)
        case OutOfFuel => Cut(r.s)
    else if IsDefault(c) && !defaultSeen then Pass(s)
    else Bad(s)
  }

  /** The default element among the first j, if there is one. */
  ghost predicate DefaultSeen(cases: seq<Yaml>, j: nat) {
    exists d :: 0 <= d < j && d < |cases| && IsDefault(cases[d])
  }

  /** The state in which element j is judged: only conditions have run. */
  ghost function StateAt(cx: Ctx, fuel: nat, env: Env, vars: nat, cases: seq<Yaml>, j: nat, s: State): State
    requires j <= |cases|
    decreases j
  {
    if j == 0 then s
    else
      var before := StateAt(cx, fuel, env, vars, cases, j - 1, s);
      Judge(cx, fuel, env, vars, cases[j - 1], DefaultSeen(cases, j - 1), before).s
  }

  ghost function JudgedAt(cx: Ctx, fuel: nat, env: Env, vars: nat, cases: seq<Yaml>, j: nat, s: State): Judgement
    requires j < |cases|
  {
    Judge(cx, fuel, env, vars, cases[j], DefaultSeen(cases, j), StateAt(cx, fuel, env, vars, cases, j, s))
  }

  /** Elements 0 to j-1 are well formed, and no condition among them holds. */
  ghost predicate AllPass(cx: Ctx, fuel: nat, env: Env, vars: nat, cases: seq<Yaml>, j: nat, s: State)
    requires j <= |cases|
  {
    forall i | 0 <= i < j :: JudgedAt(cx, fuel, env, vars, cases, i, s).Pass?
  }

  ghost function DefaultBefore(cases: seq<Yaml>, j: nat): (d: Option<nat>)
    requires j <= |cases|
    ensures d.Some? ==> d.value < j && IsDefault(cases[d.value])
    ensures d.Some? <==> DefaultSeen(cases, j)
    decreases j
  {
    if j == 0 then None
    else if IsDefault(cases[j - 1]) then Some(j - 1)
    else DefaultBefore(cases, j - 1)
  }

  lemma {:induction false} SkipsPassed(cx: Ctx, fuel: nat, env: Env, vars: nat, cases: seq<Yaml>, j: nat, s: State)
    requires j <= |cases| && AllPass(cx, fuel, env, vars, cases, j, s)
    ensures SwitchCases(cx, fuel, env, vars, cases, 0, None, s)
         == SwitchCases(cx, fuel, env, vars, cases, j, DefaultBefore(cases, j),
                        StateAt(cx, fuel, env, vars, cases, j, s))
    decreases j
  {
    if j > 0 {
      SkipsPassed(cx, fuel, env, vars, cases, j - 1, s);
      assert JudgedAt(cx, fuel, env, vars, cases, j - 1, s).Pass?;
      SkipsOne(cx, fuel, env, vars, cases, j - 1, DefaultBefore(cases, j - 1),
               StateAt(cx, fuel, env, vars, cases, j - 1, s));
    }
  }

  lemma SkipsOne(cx: Ctx, fuel: nat, env: Env, vars: nat, cases: seq<Yaml>, j: nat, dflt: Option<nat>, s: State)
    requires j < |cases| && (dflt.Some? ==> dflt.value < |cases| && IsDefault(cases[dflt.value]))
    requires Judge(cx, fuel, env, vars, cases[j], dflt.Some?, s).Pass?
    ensures SwitchCases(cx, fuel, env, vars, cases, j, dflt, s)
         == SwitchCases(cx, fuel, env, vars, cases, j + 1, if IsDefault(cases[j]) then Some(j) else dflt,
                        Judge(cx, fuel, env, vars, cases[j], dflt.Some?, s).s)
  {
  }

  /**
   First match, for any list of elements and any position of the default. When the elements before
   j let element j be judged: a condition that holds makes the result that of the element's own
   part, a malformed element or a failing condition makes the switch fail.
   */
  lemma FirstMatch(cx: Ctx, fuel: nat, env: Env, vars: nat, cases: seq<Yaml>, j: nat, s: State)
    requires j < |cases| && AllPass(cx, fuel, env, vars, cases, j, s)
    ensures var r := EvalSwitch(cx, fuel, env, vars, YList(cases), s);
            match JudgedAt(cx, fuel, env, vars, cases, j, s)
            case Take(s') => r == ThenPart(cx, fuel, env, vars, cases[j].fields, s')
            case Bad(s') => r == Res(s', Fail)
            case Cut(s') => r == Res(s', OutOfFuel)
            case Pass(_) => true
  {
    SkipsPassed(cx, fuel, env, vars, cases, j, s);
  }

  /** The default runs exactly when every element was well formed and no condition held. */
  lemma DefaultWhenAllPass(cx: Ctx, fuel: nat, env: Env, vars: nat, cases: seq<Yaml>, s: State)
    requires AllPass(cx, fuel, env, vars, cases, |cases|, s)
    ensures var r := EvalSwitch(cx, fuel, env, vars, YList(cases), s);
            var s' := StateAt(cx, fuel, env, vars, cases, |cases|, s);
            && (forall d | 0 <= d < |cases| && IsDefault(cases[d]) ::
                  r == EvalArray(cx, fuel, env, vars, Get(cases[d].fields, DEFAULT).value.elems, s'))
            && (!DefaultSeen(cases, |cases|) ==> r == Res(s', Done(env)))
  {
    SkipsPassed(cx, fuel, env, vars, cases, |cases|, s);
    forall d | 0 <= d < |cases| && IsDefault(cases[d])
      ensures DefaultBefore(cases, |cases|) == Some(d)
    {
      OnlyDefault(cx, fuel, env, vars, cases, |cases|, d, s);
    }
  }

  lemma {:induction false} OnlyDefault(cx: Ctx, fuel: nat, env: Env, vars: nat, cases: seq<Yaml>, j: nat, d: nat,
                                       s: State)
    requires j <= |cases| && AllPass(cx, fuel, env, vars, cases, j, s) && d < j && IsDefault(cases[d])
    ensures DefaultBefore(cases, j) == Some(d)
    decreases j
  {
    assert JudgedAt(cx, fuel, env, vars, cases, j - 1, s).Pass?;
    if d < j - 1 { OnlyDefault(cx, fuel, env, vars, cases, j - 1, d, s); }
  }

  lemma {:induction false} PrefixDecides(cx: Ctx, fuel: nat, env: Env, vars: nat, a: seq<Yaml>, b: seq<Yaml>, j: nat,
                                         s: State)
    requires j <= |a| && j <= |b| && a[..j] == b[..j]
    ensures StateAt(cx, fuel, env, vars, a, j, s) == StateAt(cx, fuel, env, vars, b, j, s)
    ensures DefaultSeen(a, j) == DefaultSeen(b, j)
    decreases j
  {
    assert forall i | 0 <= i < j :: a[i] == a[..j][i] && b[i] == b[..j][i];
    if j > 0 {
      assert a[..j - 1] == a[..j][..j - 1] && b[..j - 1] == b[..j][..j - 1];
      PrefixDecides(cx, fuel, env, vars, a, b, j - 1, s);
    }
  }

  /** What comes after the deciding element is not inspected. */
  lemma LaterCasesIgnored(cx: Ctx, fuel: nat, env: Env, vars: nat, a: seq<Yaml>, b: seq<Yaml>, j: nat, s: State)
    requires j < |a| && j < |b| && a[..j + 1] == b[..j + 1]
    requires AllPass(cx, fuel, env, vars, a, j, s) && !JudgedAt(cx, fuel, env, vars, a, j, s).Pass?
    ensures EvalSwitch(cx, fuel, env, vars, YList(a), s) == EvalSwitch(cx, fuel, env, vars, YList(b), s)
  {
    forall i | 0 <= i <= j
      ensures JudgedAt(cx, fuel, env, vars, a, i, s) == JudgedAt(cx, fuel, env, vars, b, i, s)
    {
      assert a[..i] == a[..j + 1][..i] && b[..i] == b[..j + 1][..i];
      assert a[i] == a[..j + 1][i] && b[i] == b[..j + 1][i];
      PrefixDecides(cx, fuel, env, vars, a, b, i, s);
    }
    assert a[j] == a[..j + 1][j] && b[j] == b[..j + 1][j];
    FirstMatch(cx, fuel, env, vars, a, j, s);
    FirstMatch(cx, fuel, env, vars, b, j, s);
  }
}
