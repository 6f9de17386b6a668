/**
 The shares of a split container: con_fix_percent distributes them, the width/height resize moves them
 between a child and its siblings.  Doubles are reals here.
 */
module Percent {
  import opened Lists
  import opened Tree

  function Sum(ps: seq<real>): real {
    if ps == [] then 0.0 else Sum(ps[..|ps| - 1]) + ps[|ps| - 1]
  }

  ghost predicate AllPositive(ps: seq<real>) {
    forall i :: 0 <= i < |ps| ==> ps[i] > 0.0
  }

  /** The total and the number of the children that have a share. */
  function Positive(ps: seq<real>): (r: (real, nat))
    ensures r.0 >= 0.0 && r.1 <= |ps| && (r.1 == 0 <==> r.0 == 0.0)
  {
    if ps == [] then (0.0, 0)
    else
      var (t, n) := Positive(ps[..|ps| - 1]);
      if ps[|ps| - 1] > 0.0 then (t + ps[|ps| - 1], n + 1) else (t, n)
  }

  /** The second pass: children without a share get total / n of the total so far, or 1 when n is 0. */
  function Fill(ps: seq<real>, total: real, n: nat): (r: (seq<real>, real))
    requires n > 0 ==> total > 0.0
    ensures |r.0| == |ps| && r.1 >= total
  {
    if ps == [] then ([], total)
    else
      var (q, t) := Fill(ps[..|ps| - 1], total, n);
      if ps[|ps| - 1] > 0.0 then (q + [ps[|ps| - 1]], t)
      else var v := if n == 0 then 1.0 else t / n as real; (q + [v], t + v)
  }

  function Scale(ps: seq<real>, total: real): (q: seq<real>)
    requires total != 0.0
    ensures |q| == |ps| && forall i :: 0 <= i < |ps| ==> q[i] == ps[i] / total
  {
    if ps == [] then [] else Scale(ps[..|ps| - 1], total) + [ps[|ps| - 1] / total]
  }

  /** The shares con_fix_percent leaves. */
  function Fixed(ps: seq<real>): (q: seq<real>)
    ensures |q| == |ps|
  {
    Normalise(Filled(ps).0, Filled(ps).1)
  }

  /** The shares and their total after the second pass. */
  function Filled(ps: seq<real>): (r: (seq<real>, real))
    ensures |r.0| == |ps|
  {
    Fill(ps, Positive(ps).0, Positive(ps).1)
  }

  /** The last pass. */
  function Normalise(ps: seq<real>, total: real): (q: seq<real>)
    ensures |q| == |ps|
  {
    if total == 0.0 || total == 1.0 then ps else Scale(ps, total)
  }

  // ---- what the shares are ---------------------------------------------------------------------

  lemma {:induction false} FillFacts(ps: seq<real>, total: real, n: nat)
    requires total >= 0.0 && (n == 0 <==> total == 0.0)
    ensures var (q, t) := Fill(ps, total, n);
            && AllPositive(q)
            && Sum(q) == Positive(ps).0 + t - total
            && (forall i :: 0 <= i < |ps| && ps[i] > 0.0 ==> q[i] == ps[i])
            && (n == 0 && ps != [] && (forall i :: 0 <= i < |ps| ==> ps[i] <= 0.0) ==> t > 0.0)
  {
    if ps != [] {
      FillFacts(ps[..|ps| - 1], total, n);
      var (q0, t0) := Fill(ps[..|ps| - 1], total, n);
      var q := Fill(ps, total, n).0;
      assert q[..|q| - 1] == q0;
      if ps[|ps| - 1] <= 0.0 && n > 0 { QuotientPositive(t0, n as real); }
    }
  }

  lemma QuotientPositive(a: real, b: real)
    requires a > 0.0 && b > 0.0
    ensures a / b > 0.0
  {
  }

  lemma QuotientSum(a: real, b: real, t: real)
    requires t > 0.0
    ensures (a + b) / t == a / t + b / t
  {
  }

  lemma QuotientSelf(t: real)
    requires t > 0.0
    ensures t / t == 1.0
  {
  }

  lemma {:induction false} SumScale(ps: seq<real>, total: real)
    requires total > 0.0
    ensures Sum(Scale(ps, total)) == Sum(ps) / total
  {
    if ps != [] {
      var init, last := ps[..|ps| - 1], ps[|ps| - 1];
      SumScale(init, total);
      assert Scale(ps, total)[..|ps| - 1] == Scale(init, total);
      QuotientSum(Sum(init), last, total);
    }
  }

  lemma ScalePositive(ps: seq<real>, total: real)
    requires total > 0.0 && AllPositive(ps)
    ensures AllPositive(Scale(ps, total))
  {
    forall i | 0 <= i < |ps| ensures Scale(ps, total)[i] > 0.0 { QuotientPositive(ps[i], total); }
  }

  lemma {:induction false} NonePositive(ps: seq<real>)
    ensures Positive(ps).1 == 0 ==> forall i :: 0 <= i < |ps| ==> ps[i] <= 0.0
  {
    if ps != [] { NonePositive(ps[..|ps| - 1]); }
  }

  lemma NormaliseSum(ps: seq<real>, total: real)
    requires AllPositive(ps) && Sum(ps) == total && total > 0.0
    ensures AllPositive(Normalise(ps, total)) && Sum(Normalise(ps, total)) == 1.0
  {
    SumScale(ps, total);
    ScalePositive(ps, total);
    QuotientSelf(total);
  }

  /** One factor takes all shares to their new values. */
  lemma NormaliseFactor(ps: seq<real>, total: real) returns (k: real)
    requires total > 0.0
    ensures k > 0.0 && forall i :: 0 <= i < |ps| ==> Normalise(ps, total)[i] == ps[i] * k
  {
    k := 1.0 / total;
    QuotientPositive(1.0, total);
    forall i | 0 <= i < |ps| ensures Normalise(ps, total)[i] == ps[i] * k { QuotientProduct(ps[i], total); }
  }

  lemma QuotientProduct(a: real, t: real)
    requires t > 0.0
    ensures a / t == a * (1.0 / t) && (t == 1.0 ==> a * (1.0 / t) == a)
  {
  }

  lemma TotalPositive(ps: seq<real>)
    requires ps != []
    ensures Filled(ps).1 > 0.0
  {
    var (total, n) := Positive(ps);
    FillFacts(ps, total, n);
    NonePositive(ps);
  }

  lemma FilledFacts(ps: seq<real>)
    ensures AllPositive(Filled(ps).0) && Sum(Filled(ps).0) == Filled(ps).1
    ensures forall i :: 0 <= i < |ps| && ps[i] > 0.0 ==> Filled(ps).0[i] == ps[i]
  {
    FillFacts(ps, Positive(ps).0, Positive(ps).1);
  }

  /** Every child ends with a positive share, and the shares sum to 1. */
  lemma FixedSum(ps: seq<real>)
    requires ps != []
    ensures AllPositive(Fixed(ps)) && Sum(Fixed(ps)) == 1.0
  {
    FilledFacts(ps);
    TotalPositive(ps);
    NormaliseSum(Filled(ps).0, Filled(ps).1);
  }

  /** The children that had a share have k times as much of q. */
  ghost predicate Proportional(ps: seq<real>, q: seq<real>, k: real) {
    |q| == |ps| && k > 0.0 && forall i :: 0 <= i < |ps| && ps[i] > 0.0 ==> q[i] == ps[i] * k
  }

  lemma ProportionsOf(ps: seq<real>, filled: seq<real>, t: real) returns (k: real)
    requires |filled| == |ps| && t > 0.0
    requires forall i :: 0 <= i < |ps| && ps[i] > 0.0 ==> filled[i] == ps[i]
    ensures Proportional(ps, Normalise(filled, t), k)
  {
    k := NormaliseFactor(filled, t);
  }

  /** The children that had shares keep their proportions: one factor scales them all. */
  lemma FixedProportions(ps: seq<real>) returns (k: real)
    requires ps != []
    ensures Proportional(ps, Fixed(ps), k)
  {
    FilledFacts(ps);
    TotalPositive(ps);
    k := ProportionsOf(ps, Filled(ps).0, Filled(ps).1);
  }

  lemma {:induction false} AllPositiveFacts(ps: seq<real>, total: real, n: nat)
    requires AllPositive(ps) && (n > 0 ==> total > 0.0)
    ensures Positive(ps) == (Sum(ps), |ps|)
    ensures Fill(ps, total, n) == (ps, total)
  {
    if ps != [] {
      AllPositiveFacts(ps[..|ps| - 1], total, n);
      assert ps[..|ps| - 1] + [ps[|ps| - 1]] == ps;
    }
  }

  /** Normalised shares stay; so con_fix_percent is idempotent. */
  lemma FixedNormalised(ps: seq<real>)
    requires AllPositive(ps) && Sum(ps) == 1.0
    ensures Fixed(ps) == ps
  {
    AllPositiveFacts(ps, 1.0, |ps|);
  }

  lemma FixedIdempotent(ps: seq<real>)
    ensures Fixed(Fixed(ps)) == Fixed(ps)
  {
    if ps != [] {
      FixedSum(ps);
      FixedNormalised(Fixed(ps));
    }
  }

  // ---- what a new child gets ---------------------------------------------------------------------

  /** One child without a share among others that have shares. */
  predicate Lone(ps: seq<real>, i: nat) {
    i < |ps| && ps[i] <= 0.0 && forall j :: 0 <= j < |ps| && j != i ==> ps[j] > 0.0
  }

  lemma {:induction false} LonePositive(ps: seq<real>, i: nat)
    requires Lone(ps, i)
    ensures Positive(ps).1 == |ps| - 1
    ensures |ps| > 1 ==> Positive(ps).0 > 0.0
  {
    var init := ps[..|ps| - 1];
    if i == |ps| - 1 {
      AllPositiveFacts(init, 1.0, 1);
    } else {
      assert Lone(init, i);
      LonePositive(init, i);
    }
  }

  lemma {:induction false} LoneFilled(ps: seq<real>, i: nat, total: real, n: nat)
    requires Lone(ps, i) && n > 0 && total > 0.0
    ensures Fill(ps, total, n) == (ps[i := total / n as real], total + total / n as real)
  {
    var init := ps[..|ps| - 1];
    if i == |ps| - 1 {
      AllPositiveFacts(init, total, n);
      assert Fill(ps, total, n).0 == init + [total / n as real];
      assert ps[i := total / n as real] == init + [total / n as real];
    } else {
      assert Lone(init, i);
      LoneFilled(init, i, total, n);
      assert ps[i := total / n as real] == init[i := total / n as real] + [ps[|ps| - 1]];
    }
  }

  lemma QuotientShare(total: real, n: nat)
    requires total > 0.0 && n > 0
    ensures total + total / n as real > 0.0
    ensures (total / n as real) / (total + total / n as real) == 1.0 / (n + 1) as real
  {
    var v, m := total / n as real, n as real;
    assert v * m == total && v > 0.0;
    assert total + v == v * (m + 1.0);
    assert (n + 1) as real == m + 1.0;
    ShareCancels(v, m + 1.0);
  }

  lemma ShareCancels(v: real, k: real)
    requires v > 0.0 && k > 0.0
    ensures v * k > 0.0 && v / (v * k) == 1.0 / k
  {
    assert v * k > 0.0;
    var q := 1.0 / k;
    assert q * k == 1.0;
    assert q * (v * k) == v * (q * k) == v;
  }

  /** A new child among n others ends with 1 / (n + 1); the others give it up in proportion. */
  lemma NewShare(ps: seq<real>, i: nat)
    requires Lone(ps, i)
    ensures Fixed(ps)[i] == 1.0 / |ps| as real
  {
    LonePositive(ps, i);
    var (total, n) := Positive(ps);
    if n > 0 {
      LoneFilled(ps, i, total, n);
      QuotientShare(total, n);
      FixedAtShare(ps, i);
    } else {
      assert |ps| == 1 && i == 0;
      assert Positive(ps) == (0.0, 0);
      assert Fill(ps[..|ps| - 1], 0.0, 0) == ([], 0.0);
      assert Fill(ps, 0.0, 0) == ([] + [1.0], 1.0);
      assert Fixed(ps) == [1.0];
    }
  }

  lemma FixedAtShare(ps: seq<real>, i: nat)
    requires i < |ps| && Filled(ps).1 > 0.0
    ensures Fixed(ps)[i] == Filled(ps).0[i] / Filled(ps).1
  {
    if Filled(ps).1 == 1.0 { assert Filled(ps).0[i] / 1.0 == Filled(ps).0[i]; }
  }

  // ---- con_fix_percent -------------------------------------------------------------------------

  ghost predicate SharesAre(l: seq<Con>, ps: seq<real>)
    reads (set c | c in l)`percent
  {
    |l| == |ps| && forall i :: 0 <= i < |l| ==> l[i].percent == ps[i]
  }

  lemma {:induction false} FillPrefix(ps: seq<real>, i: nat)
    requires i < |ps|
    ensures ps[..i + 1][..i] == ps[..i] && ps[..i + 1][i] == ps[i]
  {
  }

  method ConFixPercent(con: Con, ghost ps: seq<real>)
    requires NoDup(con.nodes) && SharesAre(con.nodes, ps)
    modifies (set c | c in con.nodes)`percent
    ensures SharesAre(con.nodes, Fixed(ps))
  {
    var l := con.nodes;
    var total := FillMissing(l, ps);
    if total == 0.0 {
      assert l == [] by { if ps != [] { TotalPositive(ps); } }
      EqualShares(l);
    } else if total != 1.0 {
      ScaleShares(l, total, Filled(ps).0);
    }
  }

  /** The first two loops of con_fix_percent; the second one is skipped when all children have shares. */
  method FillMissing(l: seq<Con>, ghost ps: seq<real>) returns (total: real)
    requires NoDup(l) && SharesAre(l, ps)
    modifies (set c | c in l)`percent
    ensures SharesAre(l, Filled(ps).0) && total == Filled(ps).1
  {
    var children := |l|;
    var withPercent;
    total, withPercent := CountShares(l, ps);
    if withPercent != children {
      total := FillShares(l, total, withPercent, ps);
    } else {
      AllHaveShares(ps);
      AllPositiveFacts(ps, total, withPercent);
    }
  }

  /** The first loop of con_fix_percent. */
  method CountShares(l: seq<Con>, ghost ps: seq<real>) returns (total: real, n: nat)
    requires SharesAre(l, ps)
    ensures (total, n) == Positive(ps)
  {
    total, n := 0.0, 0;
    for i := 0 to |l|
      invariant total == Positive(ps[..i]).0 && n == Positive(ps[..i]).1
    {
      FillPrefix(ps, i);
      if l[i].percent > 0.0 {
        total := total + l[i].percent;
        n := n + 1;
      }
    }
    assert ps[..|l|] == ps;
  }

  /** Everyone gets the same; con_fix_percent gets here only when there are no children. */
  method EqualShares(l: seq<Con>)
    requires NoDup(l)
    modifies (set c | c in l)`percent
    ensures forall i :: 0 <= i < |l| ==> l[i].percent == 1.0 / |l| as real
  {
    for i := 0 to |l|
      invariant forall j :: 0 <= j < i ==> l[j].percent == 1.0 / |l| as real
    {
      l[i].percent := 1.0 / |l| as real;
    }
  }

  lemma {:induction false} AllHaveShares(ps: seq<real>)
    requires Positive(ps).1 == |ps|
    ensures AllPositive(ps)
  {
    if ps != [] { AllHaveShares(ps[..|ps| - 1]); }
  }

  /** The second loop of con_fix_percent. */
  method FillShares(l: seq<Con>, start: real, n: nat, ghost ps: seq<real>) returns (total: real)
    requires NoDup(l) && SharesAre(l, ps) && start >= 0.0 && (n > 0 ==> start > 0.0)
    modifies (set c | c in l)`percent
    ensures SharesAre(l, Fill(ps, start, n).0) && total == Fill(ps, start, n).1
  {
    total := start;
    for i := 0 to |l|
      invariant total == Fill(ps[..i], start, n).1 && total >= start
      invariant forall j :: 0 <= j < |l| ==> l[j].percent == if j < i then Fill(ps[..i], start, n).0[j] else ps[j]
    {
      FillStep(ps, i, start, n);
      if l[i].percent <= 0.0 {
        var v := if n == 0 then 1.0 else total / n as real;
        l[i].percent := v;
        total := total + v;
      }
    }
    assert ps[..|l|] == ps;
  }

  lemma FillStep(ps: seq<real>, i: nat, start: real, n: nat)
    requires i < |ps| && (n > 0 ==> start > 0.0)
    ensures var (q, t), (q1, t1) := Fill(ps[..i], start, n), Fill(ps[..i + 1], start, n);
            && (forall j :: 0 <= j < i ==> q1[j] == q[j])
            && if ps[i] > 0.0 then q1[i] == ps[i] && t1 == t
               else var v := if n == 0 then 1.0 else t / n as real; q1[i] == v && t1 == t + v
  {
    FillPrefix(ps, i);
  }

  /** The last loop of con_fix_percent. */
  method ScaleShares(l: seq<Con>, total: real, ghost ps: seq<real>)
    requires NoDup(l) && SharesAre(l, ps) && total != 0.0
    modifies (set c | c in l)`percent
    ensures SharesAre(l, Scale(ps, total))
  {
    for i := 0 to |l|
      invariant forall j :: 0 <= j < |l| ==> l[j].percent == if j < i then Scale(ps, total)[j] else ps[j]
    {
      l[i].percent := l[i].percent / total;
    }
  }

  // ---- resize ... width|height -----------------------------------------------------------------

  /** Children whose share is exactly 0 get the default 1 / n. */
  function WithDefaults(ps: seq<real>): (q: seq<real>)
    ensures |q| == |ps|
    ensures AllPositive(ps) ==> q == ps
  {
    seq(|ps|, i requires 0 <= i < |ps| => if ps[i] == 0.0 then 1.0 / |ps| as real else ps[i])
  }

  lemma {:induction false} SumEven(ps: seq<real>, x: real)
    requires forall i :: 0 <= i < |ps| ==> ps[i] == x
    ensures Sum(ps) == Times(|ps|, x)
  {
    if ps != [] { SumEven(ps[..|ps| - 1], x); }
  }

  /** Children none of which has a share get even ones, and the others keep theirs. */
  lemma DefaultsEven(ps: seq<real>)
    requires ps != []
    ensures (forall i :: 0 <= i < |ps| ==> ps[i] == 0.0) ==> Sum(WithDefaults(ps)) == 1.0
    ensures forall i, j :: 0 <= i < |ps| && 0 <= j < |ps| && ps[i] == ps[j] ==>
            WithDefaults(ps)[i] == WithDefaults(ps)[j]
    ensures forall i :: 0 <= i < |ps| && ps[i] != 0.0 ==> WithDefaults(ps)[i] == ps[i]
  {
    var x := 1.0 / |ps| as real;
    if forall i :: 0 <= i < |ps| ==> ps[i] == 0.0 {
      SumEven(WithDefaults(ps), x);
      TimesIsProduct(|ps|, x);
      QuotientBack(1.0, |ps| as real);
    }
  }

  /** The shares once child k has grown by ppt at the others' expense. */
  function Grown(ps: seq<real>, k: nat, ppt: real): (q: seq<real>)
    requires k < |ps| && |ps| >= 2
    ensures |q| == |ps|
  {
    Moved(ps, k, ppt, ppt / (|ps| - 1) as real)
  }

  function Moved(ps: seq<real>, k: nat, gain: real, part: real): (q: seq<real>)
    requires k < |ps|
    ensures |q| == |ps| && forall i :: 0 <= i < |ps| ==> q[i] == if i == k then ps[i] + gain else ps[i] - part
  {
    seq(|ps|, i requires 0 <= i < |ps| => if i == k then ps[i] + gain else ps[i] - part)
  }

  /** Why the resize of child k by ppt is refused; px is the share of one pixel. */
  ghost predicate Refused(ps: seq<real>, k: nat, ppt: real, px: real)
    requires k < |ps| && |ps| >= 2
  {
    || (ppt < 0.0 && ps[k] + ppt < px)
    || (ppt / (|ps| - 1) as real >= 0.0 && exists i :: 0 <= i < |ps| && i != k && ps[i] - ppt / (|ps| - 1) as real < px)
  }

  function Times(n: nat, x: real): real {
    if n == 0 then 0.0 else Times(n - 1, x) + x
  }

  lemma {:induction false} TimesIsProduct(n: nat, x: real)
    ensures Times(n, x) == n as real * x
  {
    if n > 0 { TimesIsProduct(n - 1, x); }
  }

  /** What the first i children lose and gain together. */
  lemma {:induction false} MovedSum(ps: seq<real>, k: nat, gain: real, part: real, i: nat)
    requires k < |ps| && i <= |ps|
    ensures Sum(Moved(ps, k, gain, part)[..i])
         == Sum(ps[..i]) + (if k < i then gain - Times(i - 1, part) else -Times(i, part))
  {
    if i > 0 {
      var q := Moved(ps, k, gain, part);
      MovedSum(ps, k, gain, part, i - 1);
      FillPrefix(ps, i - 1);
      FillPrefix(q, i - 1);
    }
  }

  /** The child gains exactly ppt, and all the others lose the same. */
  lemma GrownBy(ps: seq<real>, k: nat, ppt: real, i: nat, j: nat)
    requires k < |ps| && |ps| >= 2 && i < |ps| && j < |ps| && i != k && j != k
    ensures Grown(ps, k, ppt)[k] - ps[k] == ppt && Grown(ps, k, ppt)[i] - ps[i] == Grown(ps, k, ppt)[j] - ps[j]
  {
  }

  /** Refused is what would leave a child that shrinks with less than a pixel; a resize by nothing is also refused when
      another child has less than a pixel already. */
  lemma RefusedMeans(ps: seq<real>, k: nat, ppt: real, px: real)
    requires k < |ps| && |ps| >= 2
    ensures ppt != 0.0 ==>
              (Refused(ps, k, ppt, px) <==>
               exists i :: 0 <= i < |ps| && Grown(ps, k, ppt)[i] < ps[i] && Grown(ps, k, ppt)[i] < px)
    ensures ppt == 0.0 ==> (Refused(ps, k, ppt, px) <==> exists i :: 0 <= i < |ps| && i != k && ps[i] < px)
  {
    PartSign(ppt, (|ps| - 1) as real);
    PartSign(-ppt, (|ps| - 1) as real);
    PartNegated(ppt, (|ps| - 1) as real);
    if ppt > 0.0 { QuotientPositive(ppt, (|ps| - 1) as real); }
    var q := Grown(ps, k, ppt);
    if ppt < 0.0 {
      assert q[k] == ps[k] + ppt;
    } else {
      forall i | 0 <= i < |ps| && i != k ensures q[i] == ps[i] - ppt / (|ps| - 1) as real {
      }
    }
  }

  lemma PartNegated(a: real, n: real)
    requires n > 0.0
    ensures -a / n == -(a / n)
  {
  }

  /** A resize that is not refused keeps the total, and keeps every share positive. */
  lemma GrownKeeps(ps: seq<real>, k: nat, ppt: real, px: real)
    requires k < |ps| && |ps| >= 2 && px > 0.0 && AllPositive(ps) && !Refused(ps, k, ppt, px)
    ensures Sum(Grown(ps, k, ppt)) == Sum(ps) && AllPositive(Grown(ps, k, ppt))
  {
    GrownTotal(ps, k, ppt);
    var n := (|ps| - 1) as real;
    PartSign(ppt, n);
    forall i | 0 <= i < |ps| ensures Grown(ps, k, ppt)[i] > 0.0 {
      if i != k && ppt / n >= 0.0 { assert ps[i] - ppt / n >= px; }
    }
  }

  lemma PartSign(a: real, n: real)
    requires n > 0.0
    ensures a / n >= 0.0 <==> a >= 0.0
  {
  }

  lemma QuotientBack(a: real, n: real)
    requires n > 0.0
    ensures n * (a / n) == a
  {
  }

  lemma MovedTotal(ps: seq<real>, k: nat, gain: real, part: real)
    requires k < |ps| && Times(|ps| - 1, part) == gain
    ensures Sum(Moved(ps, k, gain, part)) == Sum(ps)
  {
    var q := Moved(ps, k, gain, part);
    MovedSum(ps, k, gain, part, |ps|);
    assert ps[..|ps|] == ps && q[..|ps|] == q;
  }

  lemma Shared(n: nat, x: real)
    requires n > 0
    ensures Times(n, x / n as real) == x
  {
    TimesIsProduct(n, x / n as real);
    QuotientBack(x, n as real);
  }

  lemma GrownTotal(ps: seq<real>, k: nat, ppt: real)
    requires k < |ps| && |ps| >= 2
    ensures Sum(Grown(ps, k, ppt)) == Sum(ps)
  {
    Shared(|ps| - 1, ppt);
    MovedTotal(ps, k, ppt, ppt / (|ps| - 1) as real);
  }

  /** The part of cmd_resize_tiling_width_height after the search for `current`; `extent` is the
      size of the parent in the direction of the resize, `onePx` stands for percent_for_1px. */
  method CmdResizeTilingWidthHeight(current: Con, pixels: int, ppt0: real, extent: nat, onePx: real, ghost k: nat,
                                    ghost ps: seq<real>)
    returns (ok: bool)
    requires current.parent != null && NoDup(current.parent.nodes) && SharesAre(current.parent.nodes, ps)
    requires |ps| >= 2 && k < |ps| && current.parent.nodes[k] == current && extent > 0
    modifies (set c | c in current.parent.nodes)`percent
    ensures var ppt := if ppt0 != 0.0 then ppt0 else pixels as real / extent as real;
            var d := WithDefaults(ps);
            && ok == !Refused(d, k, ppt, onePx)
            && SharesAre(current.parent.nodes, if ok then Grown(d, k, ppt) else d)
  {
    var l := current.parent.nodes;
    var children := |l|;
    ghost var d := WithDefaults(ps);
    SetDefaults(l, ps);
    var ppt := if ppt0 != 0.0 then ppt0 else pixels as real / extent as real;
    var newCurrent := current.percent + ppt;
    var part := ppt / (children - 1) as real;
    if ppt < 0.0 && newCurrent < onePx {
      return false;
    }
    if part >= 0.0 {
      for i := 0 to |l|
        invariant SharesAre(l, d)
        invariant forall j :: 0 <= j < i && j != k ==> d[j] - part >= onePx
      {
        if l[i] != current && l[i].percent - part < onePx {
          return false;
        }
      }
    }
    current.percent := newCurrent;
    TakeShares(l, current, part, k, d[k := newCurrent]);
    ok := true;
  }

  /** The last loop of the resize: everyone but `current` gives up `part`. */
  method TakeShares(l: seq<Con>, current: Con, part: real, ghost k: nat, ghost ps: seq<real>)
    requires NoDup(l) && SharesAre(l, ps) && k < |l| && l[k] == current
    modifies (set c | c in l)`percent
    ensures forall j :: 0 <= j < |l| ==> l[j].percent == if j == k then ps[j] else ps[j] - part
  {
    for i := 0 to |l|
      invariant forall j :: 0 <= j < |l| ==> l[j].percent == if j < i && j != k then ps[j] - part else ps[j]
    {
      if l[i] != current {
        l[i].percent := l[i].percent - part;
      }
    }
  }

  method SetDefaults(l: seq<Con>, ghost ps: seq<real>)
    requires NoDup(l) && SharesAre(l, ps)
    modifies (set c | c in l)`percent
    ensures SharesAre(l, WithDefaults(ps))
  {
    for i := 0 to |l|
      invariant forall j :: 0 <= j < |l| ==> l[j].percent == if j < i then WithDefaults(ps)[j] else ps[j]
    {
      if l[i].percent == 0.0 {
        l[i].percent := 1.0 / |l| as real;
      }
    }
  }
}