/**
 Strings, key orders and iteration orders.

 Go visits the entries of a map in an unspecified order. The model makes every visit order
 reachable: the keys are first listed in a fixed (sorted) order and then permuted by picks
 that an arbitrary oracle supplies. `PermuteReachesEveryOrder` shows that no order is left out.
 A result that holds for every oracle therefore holds for every iteration order of Go, and a result
 about one run says in which order that run visits the entries.
 */
module Text {

  datatype Option<+T> = None | Some(value: T)

  // ---------------------------------------------------------------- names

  /** The components of a dotted name, as Go's strings.Split with separator "." returns them. */
  function SplitDots(s: string): (parts: seq<string>)
    ensures |parts| >= 1
    ensures forall i | 0 <= i < |parts| :: '.' !in parts[i]
  {
    if s == "" then [""]
    else
      var rest := SplitDots(s[1..]);
      if s[0] == '.' then [""] + rest else [[s[0]] + rest[0]] + rest[1..]
  }

  function JoinDots(parts: seq<string>): string
    requires |parts| >= 1
  {
    if |parts| == 1 then parts[0] else parts[0] + "." + JoinDots(parts[1..])
  }

  lemma {:induction false} JoinSplit(s: string)
    ensures JoinDots(SplitDots(s)) == s
  {
    if s != "" {
      JoinSplit(s[1..]);
      var rest := SplitDots(s[1..]);
      var all := SplitDots(s);
      if s[0] == '.' {
        assert all[1..] == rest;
      } else if |rest| > 1 {
        assert all[1..] == rest[1..];
      }
    }
  }

  lemma {:induction false} SplitPlain(s: string)
    requires '.' !in s
    ensures SplitDots(s) == [s]
  {
    if s != "" {
      SplitPlain(s[1..]);
      assert [s[0]] + s[1..] == s;
    }
  }

  // ---------------------------------------------------------------- sorted keys

  predicate LexLeq(a: string, b: string)
  {
    a == "" || (b != "" && (a[0] < b[0] || (a[0] == b[0] && LexLeq(a[1..], b[1..]))))
  }

  lemma {:induction false} LexTotal(a: string, b: string)
    ensures LexLeq(a, b) || LexLeq(b, a)
    ensures LexLeq(a, b) && LexLeq(b, a) ==> a == b
  {
    if a != "" && b != "" {
      LexTotal(a[1..], b[1..]);
      if a[0] == b[0] && a[1..] == b[1..] {
        assert a == [a[0]] + a[1..] == b;
      }
    }
  }

  lemma {:induction false} LexTransitive(a: string, b: string, c: string)
    requires LexLeq(a, b) && LexLeq(b, c)
    ensures LexLeq(a, c)
  {
    if a != "" && a[0] == b[0] && b[0] == c[0] {
      LexTransitive(a[1..], b[1..], c[1..]);
    }
  }

  predicate IsLeast(m: string, keys: set<string>) {
    m in keys && forall k | k in keys :: LexLeq(m, k)
  }

  lemma LeastOfMore(m: string, x: string, keys: set<string>)
    requires x in keys && IsLeast(m, keys - {x})
    ensures IsLeast(if LexLeq(m, x) then m else x, keys)
  {
    LexTotal(m, x);
    LexTotal(x, x);
    if !LexLeq(m, x) {
      forall k | k in keys ensures LexLeq(x, k) {
        if k != x { LexTransitive(x, m, k); }
      }
    }
  }

  lemma {:induction false} LeastKeyExists(keys: set<string>)
    requires keys != {}
    ensures exists m :: IsLeast(m, keys)
  {
    var x :| x in keys;
    if keys == {x} {
      LexTotal(x, x);
      assert IsLeast(x, keys);
    } else {
      LeastKeyExists(keys - {x});
      var m :| IsLeast(m, keys - {x});
      LeastOfMore(m, x, keys);
    }
  }

  function LeastKey(keys: set<string>): (m: string)
    requires keys != {}
    ensures m in keys && forall k | k in keys :: LexLeq(m, k)
  {
    LeastKeyExists(keys);
    assert forall a, b | a in keys && b in keys && LexLeq(a, b) && LexLeq(b, a) :: a == b by {
      forall a, b | a in keys && b in keys && LexLeq(a, b) && LexLeq(b, a)
        ensures a == b
      {
        LexTotal(a, b);
      }
    }
    var m :| m in keys && IsLeast(m, keys);
    m
  }

  predicate NoDuplicates<T(==)>(xs: seq<T>)
  {
    forall i, j | 0 <= i < j < |xs| :: xs[i] != xs[j]
  }

  function SortedKeys(keys: set<string>): seq<string>
    decreases |keys|
  {
    if keys == {} then []
    else
      var m := LeastKey(keys);
      [m] + SortedKeys(keys - {m})
  }

  lemma {:induction false} SortedKeysListsEachOnce(keys: set<string>)
    ensures forall k :: k in SortedKeys(keys) <==> k in keys
    ensures NoDuplicates(SortedKeys(keys))
    decreases |keys|
  {
    if keys != {} {
      var m := LeastKey(keys);
      SortedKeysListsEachOnce(keys - {m});
    }
  }

  // ---------------------------------------------------------------- iteration orders

  function RemoveAt<T>(xs: seq<T>, i: nat): (ys: seq<T>)
    requires i < |xs|
    ensures |ys| == |xs| - 1
  {
    xs[..i] + xs[i + 1..]
  }

  lemma RemoveAtMultiset<T>(xs: seq<T>, i: nat)
    requires i < |xs|
    ensures multiset(xs) == multiset([xs[i]]) + multiset(RemoveAt(xs, i))
  {
    assert xs == xs[..i] + [xs[i]] + xs[i + 1..];
  }

  /** The order that `picks` selects: each pick names the position of the next element. */
  function Permute<T>(xs: seq<T>, picks: seq<nat>): seq<T>
    decreases |xs|
  {
    if |xs| == 0 then []
    else
      var i := if picks != [] && picks[0] < |xs| then picks[0] else 0;
      [xs[i]] + Permute(RemoveAt(xs, i), if picks == [] then [] else picks[1..])
  }

  lemma {:induction false} PermuteReorders<T>(xs: seq<T>, picks: seq<nat>)
    ensures multiset(Permute(xs, picks)) == multiset(xs)
    decreases |xs|
  {
    if |xs| != 0 {
      var i := if picks != [] && picks[0] < |xs| then picks[0] else 0;
      RemoveAtMultiset(xs, i);
      PermuteReorders(RemoveAt(xs, i), if picks == [] then [] else picks[1..]);
    }
  }

  lemma MultisetElements<T>(xs: seq<T>, ys: seq<T>)
    requires multiset(xs) == multiset(ys)
    ensures |xs| == |ys|
    ensures forall x :: x in xs <==> x in ys
  {
    assert |multiset(xs)| == |xs| && |multiset(ys)| == |ys|;
    forall x
      ensures x in xs <==> x in ys
    {
      assert x in xs <==> x in multiset(xs);
      assert x in ys <==> x in multiset(ys);
    }
  }

  lemma RemoveFromBoth<T>(xs: seq<T>, ys: seq<T>, i: nat)
    requires multiset(xs) == multiset(ys)
    requires i < |xs| && 0 < |ys| && xs[i] == ys[0]
    ensures multiset(RemoveAt(xs, i)) == multiset(ys[1..])
  {
    RemoveAtMultiset(xs, i);
    assert ys == [ys[0]] + ys[1..];
    assert multiset(RemoveAt(xs, i)) == multiset(xs) - multiset([xs[i]]);
    assert multiset(ys[1..]) == multiset(ys) - multiset([ys[0]]);
  }

  /** Every reordering of xs is selected by some picks. */
  lemma {:induction false} PermuteReachesEveryOrder<T>(xs: seq<T>, ys: seq<T>) returns (picks: seq<nat>)
    requires multiset(xs) == multiset(ys)
    ensures Permute(xs, picks) == ys
    decreases |xs|
  {
    MultisetElements(xs, ys);
    if |xs| == 0 {
      picks := [];
    } else {
      assert ys[0] in xs;
      var i: nat :| i < |xs| && xs[i] == ys[0];
      RemoveFromBoth(xs, ys, i);
      var rest := PermuteReachesEveryOrder(RemoveAt(xs, i), ys[1..]);
      picks := [i] + rest;
      assert picks[1..] == rest;
      assert ys == [ys[0]] + ys[1..];
    }
  }

  function Indices(n: nat): (idx: seq<nat>)
    ensures |idx| == n && forall i | 0 <= i < n :: idx[i] == i
  {
    seq(n, i => i)
  }

  /** The order in which the `n` entries of an object are visited. */
  function VisitOrder(n: nat, picks: seq<nat>): (order: seq<nat>)
    ensures |order| == n
    ensures forall i | i in order :: i < n
  {
    PermuteReorders(Indices(n), picks);
    MultisetElements(Indices(n), Permute(Indices(n), picks));
    Permute(Indices(n), picks)
  }
}
