/**
 The chain of transient windows: the bounded walk along it misses a target only when more windows are
 on the chain than con_num_windows counted.
 */
module Transient {
  import opened Lists
  import opened Tree
  import opened Urgency

  /** What a container holds: no window, or one with its id and the id it is transient for (0 for none). */
  datatype Held = Nothing | Held(id: nat, transientFor: nat)
  type Holding = map<Con, Held>

  function HeldBy(c: Con): Held
    reads c`window, c.window
  {
    if c.window == null then Nothing else Held(c.window.id, c.window.transientFor)
  }

  ghost predicate HoldingIs(s: set<Con>, w: Holding)
    reads s`window, set c | c in s && c.window != null :: c.window
  {
    w.Keys == s && forall c :: c in s ==> HeldBy(c) == w[c]
  }

  // ---- the chain ---------------------------------------------------------------------------------

  /** The first container that holds the window. */
  ghost function ById(all: seq<Con>, w: Holding, id: nat): (c: Con?)
    requires forall x :: x in all ==> x in w
    ensures c == null <==> forall x :: x in all && w[x].Held? ==> w[x].id != id
    ensures c != null ==> c in all && w[c].Held? && w[c].id == id
  {
    if all == [] then null else if w[all[0]].Held? && w[all[0]].id == id then all[0] else ById(all[1..], w, id)
  }

  /** No container before it in the list holds the window. */
  lemma {:induction false} ByIdFirst(all: seq<Con>, w: Holding, id: nat, k: nat)
    requires forall x :: x in all ==> x in w
    requires k < |all| && w[all[k]].Held? && w[all[k]].id == id
    ensures ById(all, w, id) in all[..k + 1]
  {
    if k > 0 && !(w[all[0]].Held? && w[all[0]].id == id) {
      ByIdFirst(all[1..], w, id, k - 1);
      assert all[..k + 1] == [all[0]] + all[1..][..k];
    }
  }

  ghost predicate HasNext(w: Holding, c: Con?) {
    c != null && c in w && w[c].Held? && w[c].transientFor != 0
  }

  ghost function Next(all: seq<Con>, w: Holding, c: Con?): (n: Con?)
    requires forall x :: x in all ==> x in w
    ensures n != null ==> n in all && w[n].Held?
  {
    if HasNext(w, c) then ById(all, w, w[c].transientFor) else null
  }

  /** The container reached from start after k steps, or null. */
  ghost function Chain(all: seq<Con>, w: Holding, start: Con?, k: nat): (c: Con?)
    requires forall x :: x in all ==> x in w
    ensures k > 0 && c != null ==> c in all && w[c].Held?
  {
    if k == 0 then start else Next(all, w, Chain(all, w, start, k - 1))
  }

  /** The k-th container on the chain is transient for the target. */
  ghost predicate Hit(all: seq<Con>, w: Holding, start: Con?, target: nat, k: nat)
    requires forall x :: x in all ==> x in w
  {
    var c := Chain(all, w, start, k);
    HasNext(w, c) && w[c].transientFor == target
  }

  // ---- the pigeonhole argument -------------------------------------------------------------------

  lemma {:induction false} ChainFrom(all: seq<Con>, w: Holding, start: Con?, i: nat, j: nat, d: nat)
    requires forall x :: x in all ==> x in w
    requires Chain(all, w, start, i) == Chain(all, w, start, j)
    ensures Chain(all, w, start, i + d) == Chain(all, w, start, j + d)
  {
    if d > 0 { ChainFrom(all, w, start, i, j, d - 1); }
  }

  lemma {:induction false} ChainAlive(all: seq<Con>, w: Holding, start: Con?, k: nat, i: nat)
    requires forall x :: x in all ==> x in w
    requires HasNext(w, Chain(all, w, start, k)) && i <= k
    ensures HasNext(w, Chain(all, w, start, i))
    decreases k
  {
    if i < k {
      var before := Chain(all, w, start, k - 1);
      assert Chain(all, w, start, k) == Next(all, w, before);
      ChainAlive(all, w, start, k - 1, i);
    }
  }

  /** Behind the end of the chain nothing is found. */
  lemma NothingAfterEnd(all: seq<Con>, w: Holding, start: Con?, target: nat, n: nat, k: nat)
    requires forall x :: x in all ==> x in w
    requires !HasNext(w, Chain(all, w, start, n)) && n <= k
    ensures !Hit(all, w, start, target, k)
  {
    if Hit(all, w, start, target, k) { ChainAlive(all, w, start, k, n); }
  }

  /** A window that is transient for itself ends the chain. */
  lemma {:induction false} NothingAfterLoop(all: seq<Con>, w: Holding, start: Con?, target: nat, n: nat, k: nat)
    requires forall x :: x in all ==> x in w
    requires Chain(all, w, start, n + 1) == Chain(all, w, start, n) && !Hit(all, w, start, target, n) && n <= k
    ensures Chain(all, w, start, k) == Chain(all, w, start, n) && !Hit(all, w, start, target, k)
  {
    if n < k { NothingAfterLoop(all, w, start, target, n, k - 1); }
  }

  /** The first n containers of the chain. */
  ghost function Walked(all: seq<Con>, w: Holding, start: Con?, n: nat): set<Con?>
    requires forall x :: x in all ==> x in w
  {
    if n == 0 then {} else Walked(all, w, start, n - 1) + {Chain(all, w, start, n - 1)}
  }

  lemma {:induction false} WalkedHas(all: seq<Con>, w: Holding, start: Con?, n: nat, c: Con?)
    requires forall x :: x in all ==> x in w
    requires c in Walked(all, w, start, n)
    ensures exists i: nat :: i < n && Chain(all, w, start, i) == c
  {
    if c in Walked(all, w, start, n - 1) { WalkedHas(all, w, start, n - 1, c); }
  }

  /** Up to the first hit no container repeats. */
  lemma NoRepeat(all: seq<Con>, w: Holding, start: Con?, target: nat, k: nat, i: nat, j: nat)
    requires forall x :: x in all ==> x in w
    requires Hit(all, w, start, target, k) && i < j <= k
    requires forall d: nat :: d < k ==> !Hit(all, w, start, target, d)
    ensures Chain(all, w, start, i) != Chain(all, w, start, j)
  {
    if Chain(all, w, start, i) == Chain(all, w, start, j) {
      ChainFrom(all, w, start, i, j, k - j);
      assert Hit(all, w, start, target, i + (k - j));
    }
  }

  lemma {:induction false} WalkedSize(all: seq<Con>, w: Holding, start: Con?, target: nat, k: nat, n: nat)
    requires forall x :: x in all ==> x in w
    requires Hit(all, w, start, target, k) && n <= k + 1
    requires forall j: nat :: j < k ==> !Hit(all, w, start, target, j)
    ensures |Walked(all, w, start, n)| == n
  {
    if n > 0 {
      WalkedSize(all, w, start, target, k, n - 1);
      if Chain(all, w, start, n - 1) in Walked(all, w, start, n - 1) {
        WalkedHas(all, w, start, n - 1, Chain(all, w, start, n - 1));
        var i: nat :| i < n - 1 && Chain(all, w, start, i) == Chain(all, w, start, n - 1);
        NoRepeat(all, w, start, target, k, i, n - 1);
      }
    }
  }

  ghost function Holders(w: Holding): set<Con> {
    set c | c in w && w[c].Held?
  }

  /** The first hit lies among the holders of windows. */
  lemma HitWithinHolders(all: seq<Con>, w: Holding, start: Con?, target: nat, k: nat)
    requires forall x :: x in all ==> x in w
    requires Hit(all, w, start, target, k) && forall j: nat :: j < k ==> !Hit(all, w, start, target, j)
    ensures k < |Holders(w)|
  {
    WalkedSize(all, w, start, target, k, k + 1);
    var walked: set<Con?>, holders: set<Con?> := Walked(all, w, start, k + 1), Holders(w);
    forall c | c in walked ensures c in holders {
      WalkedHas(all, w, start, k + 1, c);
      var i: nat :| i < k + 1 && Chain(all, w, start, i) == c;
      ChainAlive(all, w, start, k, i);
    }
    SubsetSize(walked, holders);
  }

  lemma {:induction false} SubsetSize<T>(a: set<T>, b: set<T>)
    requires a <= b
    ensures |a| <= |b|
  {
    if a != {} {
      var x :| x in a;
      SubsetSize(a - {x}, b - {x});
    }
  }

  lemma {:induction false} FirstHit(all: seq<Con>, w: Holding, start: Con?, target: nat, k: nat) returns (first: nat)
    requires forall x :: x in all ==> x in w
    requires Hit(all, w, start, target, k)
    ensures first <= k && Hit(all, w, start, target, first) && forall j: nat :: j < first ==>
            !Hit(all, w, start, target, j)
    decreases k
  {
    if j: nat :| j < k && Hit(all, w, start, target, j) {
      first := FirstHit(all, w, start, target, j);
    } else {
      first := k;
    }
  }

  /** With a bound no smaller than the number of windows but one, a bounded walk finds every target on the chain. */
  lemma BoundSuffices(all: seq<Con>, w: Holding, start: Con?, target: nat, count: nat, k: nat)
    requires forall x :: x in all ==> x in w
    requires |Holders(w)| <= count + 1 && Hit(all, w, start, target, k)
    ensures exists j: nat :: j <= count && Hit(all, w, start, target, j)
  {
    var first := FirstHit(all, w, start, target, k);
    HitWithinHolders(all, w, start, target, first);
  }

  // ---- counting windows --------------------------------------------------------------------------

  ghost predicate Countable(f: Forest, r: Rank, w: Holding) {
    SameKeys(f) && Ranked(f.par, r) && Down(f.nodes, r) && Down(f.floats, r) && w.Keys == f.par.Keys
  }

  ghost predicate Managed(f: Forest, r: Rank, w: Holding, c: Con)
    requires Countable(f, r, w) && c in f.par
  {
    w[c].Held? && w[c].id != 0 && WorkspaceOf(f.par, r, c) != null
  }

  /** Containers of the lists below rank `bound`. */
  ghost predicate Under(r: Rank, f: Forest, list: seq<Con>, bound: nat) {
    forall x :: x in list ==> x in f.par && x in r.h && r.h[x] < bound
  }

  /** con_num_windows: a managed window counts once, with nothing below it. */
  ghost function NumWindows(f: Forest, r: Rank, w: Holding, c: Con): nat
    requires Countable(f, r, w) && c in f.par
    decreases r.h[c] + 1, 0
  {
    if Managed(f, r, w, c) then 1
    else SumWindows(f, r, w, f.nodes[c], r.h[c]) + SumWindows(f, r, w, f.floats[c], r.h[c])
  }

  ghost function SumWindows(f: Forest, r: Rank, w: Holding, list: seq<Con>, bound: nat): nat
    requires Countable(f, r, w) && Under(r, f, list, bound)
    decreases bound, |list|
  {
    if list == [] then 0 else SumWindows(f, r, w, list[..|list| - 1], bound) + NumWindows(f, r, w, list[|list| - 1])
  }

  lemma SumSnoc(f: Forest, r: Rank, w: Holding, list: seq<Con>, bound: nat, i: nat)
    requires Countable(f, r, w) && Under(r, f, list, bound) && i < |list|
    ensures SumWindows(f, r, w, list[..i + 1], bound)
            == SumWindows(f, r, w, list[..i], bound) + NumWindows(f, r, w, list[i])
  {
    assert list[..i + 1][..i] == list[..i];
  }

  /** The windows counted from c on. */
  ghost function Counted(f: Forest, r: Rank, w: Holding, c: Con): (s: set<Con>)
    requires Countable(f, r, w) && c in f.par
    ensures |s| <= NumWindows(f, r, w, c)
    decreases r.h[c] + 1, 0
  {
    if Managed(f, r, w, c) then {c} else
      var a, b := CountedIn(f, r, w, f.nodes[c], r.h[c]), CountedIn(f, r, w, f.floats[c], r.h[c]);
      UnionSize(a, b);
      a + b
  }

  ghost function CountedIn(f: Forest, r: Rank, w: Holding, list: seq<Con>, bound: nat): (s: set<Con>)
    requires Countable(f, r, w) && Under(r, f, list, bound)
    ensures |s| <= SumWindows(f, r, w, list, bound)
    decreases bound, |list|
  {
    if list == [] then {} else
      var a, b := CountedIn(f, r, w, list[..|list| - 1], bound), Counted(f, r, w, list[|list| - 1]);
      UnionSize(a, b);
      a + b
  }

  lemma UnionSize(a: set<Con>, b: set<Con>)
    ensures |a + b| <= |a| + |b|
  {
    assert a + b == a + (b - a);
    SubsetSize(b - a, b);
  }

  lemma {:induction false} CountedInHas(f: Forest, r: Rank, w: Holding, list: seq<Con>, bound: nat, c: Con, x: Con)
    requires Countable(f, r, w) && Under(r, f, list, bound) && c in list && x in Counted(f, r, w, c)
    ensures x in CountedIn(f, r, w, list, bound)
  {
    var l := list[..|list| - 1];
    assert list == l + [list[|list| - 1]];
    if c in l { CountedInHas(f, r, w, l, bound, c, x); }
  }

  /** Windows are leaves: nothing above the window of x is a window. */
  ghost predicate TopWindow(f: Forest, r: Rank, w: Holding, x: Con)
    requires Countable(f, r, w) && x in f.par
  {
    Managed(f, r, w, x) && forall a :: a in f.par && a != x && Within(f.par, r, x, a) ==> !Managed(f, r, w, a)
  }

  lemma {:induction false} TopCounted(f: Forest, r: Rank, w: Holding, x: Con, c: Con)
    requires Shaped(f, {}, r) && Countable(f, r, w) && x in f.par && TopWindow(f, r, w, x)
    requires c in f.par && Within(f.par, r, x, c)
    ensures x in Counted(f, r, w, c)
    decreases r.h[c]
  {
    if x != c {
      var d := Toward(f.par, r, x, c);
      TopCounted(f, r, w, x, d);
      assert Linked(f, {}, c) && ChildOf(f.par, {}, d, c);
      if d in f.nodes[c] { CountedInHas(f, r, w, f.nodes[c], r.h[c], d, x); }
      else { CountedInHas(f, r, w, f.floats[c], r.h[c], d, x); }
    }
  }

  /** When every window is managed, stands in the tree and has no window above it, all are counted. */
  lemma AllCounted(f: Forest, r: Rank, w: Holding, root: Con)
    requires Shaped(f, {}, r) && Countable(f, r, w) && root in f.par
    requires forall x :: x in Holders(w) ==> TopWindow(f, r, w, x) && Within(f.par, r, x, root)
    ensures |Holders(w)| <= NumWindows(f, r, w, root)
  {
    forall x | x in Holders(w) ensures x in Counted(f, r, w, root) { TopCounted(f, r, w, x, root); }
    SubsetSize(Holders(w), Counted(f, r, w, root));
  }

  /** A managed window inside c with none above it there. */
  ghost predicate Topmost(f: Forest, r: Rank, w: Holding, c: Con, x: Con)
    requires Countable(f, r, w)
  {
    && x in f.par && Within(f.par, r, x, c) && Managed(f, r, w, x)
    && forall a :: a in f.par && a != x && Within(f.par, r, x, a) && Within(f.par, r, a, c) ==> !Managed(f, r, w, a)
  }

  /** What is topmost in c is topmost in the child of c around it, unless it is c. */
  lemma TopmostDown(f: Forest, r: Rank, w: Holding, c: Con, x: Con)
    requires Countable(f, r, w) && c in f.par && Topmost(f, r, w, c, x) && x != c
    ensures !Managed(f, r, w, c) && Topmost(f, r, w, Toward(f.par, r, x, c), x)
  {
    var d := Toward(f.par, r, x, c);
    assert Within(f.par, r, c, c);
    forall a | a in f.par && a != x && Within(f.par, r, x, a) && Within(f.par, r, a, d) ensures !Managed(f, r, w, a) {
      assert Within(f.par, r, d, c);
      WithinTrans(f.par, r, a, d, c);
    }
  }

  lemma TopmostUp(f: Forest, r: Rank, w: Holding, c: Con, d: Con, x: Con)
    requires Countable(f, r, w) && c in f.par && d in f.par && f.par[d] == c && !Managed(f, r, w, c)
    requires Topmost(f, r, w, d, x)
    ensures Topmost(f, r, w, c, x)
  {
    assert Within(f.par, r, d, c);
    WithinTrans(f.par, r, x, d, c);
    forall a | a in f.par && a != x && Within(f.par, r, x, a) && Within(f.par, r, a, c) ensures !Managed(f, r, w, a) {
      if a != c {
        var e := Toward(f.par, r, a, c);
        WithinTrans(f.par, r, x, a, e);
        SiblingsApart(f.par, r, x, d, e);
      }
    }
  }

  lemma {:induction false} CountedInFrom(f: Forest, r: Rank, w: Holding, list: seq<Con>, bound: nat, x: Con)
    returns (d: Con)
    requires Countable(f, r, w) && Under(r, f, list, bound) && x in CountedIn(f, r, w, list, bound)
    ensures d in list && x in Counted(f, r, w, d)
  {
    d := list[|list| - 1];
    if x !in Counted(f, r, w, d) { d := CountedInFrom(f, r, w, list[..|list| - 1], bound, x); }
  }

  /** Counted are exactly the topmost managed windows. */
  lemma {:induction false} CountedTopmost(f: Forest, r: Rank, w: Holding, c: Con, x: Con)
    requires Shaped(f, {}, r) && Countable(f, r, w) && c in f.par
    ensures x in Counted(f, r, w, c) <==> Topmost(f, r, w, c, x)
    decreases r.h[c]
  {
    assert Linked(f, {}, c);
    if Topmost(f, r, w, c, x) {
      if x != c {
        var d := Toward(f.par, r, x, c);
        TopmostDown(f, r, w, c, x);
        assert ChildOf(f.par, {}, d, c);
        CountedTopmost(f, r, w, d, x);
        if d in f.nodes[c] { CountedInHas(f, r, w, f.nodes[c], r.h[c], d, x); }
        else { CountedInHas(f, r, w, f.floats[c], r.h[c], d, x); }
      }
    }
    if x in Counted(f, r, w, c) { CountedIsTopmost(f, r, w, c, x); }
  }

  lemma CountedIsTopmost(f: Forest, r: Rank, w: Holding, c: Con, x: Con)
    requires Shaped(f, {}, r) && Countable(f, r, w) && c in f.par && x in Counted(f, r, w, c)
    ensures Topmost(f, r, w, c, x)
    decreases r.h[c], 0
  {
    if Managed(f, r, w, c) {
      forall a | a in f.par && Within(f.par, r, c, a) && Within(f.par, r, a, c) ensures a == c {
        WithinRank(f.par, r, c, a);
        WithinRank(f.par, r, a, c);
      }
    } else {
      var list := if x in CountedIn(f, r, w, f.nodes[c], r.h[c]) then f.nodes[c] else f.floats[c];
      var d := CountedInFrom(f, r, w, list, r.h[c], x);
      assert Linked(f, {}, c) && ChildOf(f.par, {}, d, c);
      CountedIsTopmost(f, r, w, d, x);
      TopmostUp(f, r, w, c, d, x);
    }
  }

  lemma DisjointSize(a: set<Con>, b: set<Con>)
    requires a !! b
    ensures |a + b| == |a| + |b|
  {
  }

  /** Children of one container count different windows. */
  lemma CountedApart(f: Forest, r: Rank, w: Holding, c: Con, d: Con, e: Con)
    requires Shaped(f, {}, r) && Countable(f, r, w) && d in f.par && e in f.par && d != e
    requires f.par[d] == c && f.par[e] == c
    ensures Counted(f, r, w, d) !! Counted(f, r, w, e)
  {
    forall x | x in Counted(f, r, w, d) && x in Counted(f, r, w, e) ensures false {
      CountedTopmost(f, r, w, d, x);
      CountedTopmost(f, r, w, e, x);
      SiblingsApart(f.par, r, x, d, e);
    }
  }

  lemma {:induction false} ListSize(f: Forest, r: Rank, w: Holding, list: seq<Con>, c: Con)
    requires Shaped(f, {}, r) && Countable(f, r, w) && c in f.par && Under(r, f, list, r.h[c])
    requires NoDup(list) && forall d :: d in list ==> f.par[d] == c
    ensures |CountedIn(f, r, w, list, r.h[c])| == SumWindows(f, r, w, list, r.h[c])
    decreases r.h[c], |list|
  {
    if list != [] {
      var l, d := list[..|list| - 1], list[|list| - 1];
      ListSize(f, r, w, l, c);
      CountIsSize(f, r, w, d);
      forall x | x in CountedIn(f, r, w, l, r.h[c]) ensures x !in Counted(f, r, w, d) {
        var e := CountedInFrom(f, r, w, l, r.h[c], x);
        CountedApart(f, r, w, c, d, e);
      }
      DisjointSize(CountedIn(f, r, w, l, r.h[c]), Counted(f, r, w, d));
    }
  }

  lemma {:induction false} CountIsSize(f: Forest, r: Rank, w: Holding, c: Con)
    requires Shaped(f, {}, r) && Countable(f, r, w) && c in f.par
    ensures |Counted(f, r, w, c)| == NumWindows(f, r, w, c)
    decreases r.h[c] + 1, 0
  {
    if !Managed(f, r, w, c) {
      assert Linked(f, {}, c);
      forall d | d in f.nodes[c] || d in f.floats[c] ensures f.par[d] == c { assert ChildOf(f.par, {}, d, c); }
      ListSize(f, r, w, f.nodes[c], c);
      ListSize(f, r, w, f.floats[c], c);
      var a, b := CountedIn(f, r, w, f.nodes[c], r.h[c]), CountedIn(f, r, w, f.floats[c], r.h[c]);
      forall x | x in a ensures x !in b {
        if x in b {
          var d := CountedInFrom(f, r, w, f.nodes[c], r.h[c], x);
          var e := CountedInFrom(f, r, w, f.floats[c], r.h[c], x);
          CountedApart(f, r, w, c, d, e);
        }
      }
      DisjointSize(a, b);
    }
  }

  /** con_num_windows in a tree: the number of topmost managed windows. */
  lemma NumWindowsMeans(f: Forest, r: Rank, w: Holding, c: Con)
    requires Shaped(f, {}, r) && Countable(f, r, w) && c in f.par
    ensures NumWindows(f, r, w, c) == |set x | x in f.par && Topmost(f, r, w, c, x)|
  {
    CountIsSize(f, r, w, c);
    var top := set x | x in f.par && Topmost(f, r, w, c, x);
    forall x | x in Counted(f, r, w, c) ensures x in top { CountedTopmost(f, r, w, c, x); }
    forall x | x in top ensures x in Counted(f, r, w, c) { CountedTopmost(f, r, w, c, x); }
    assert Counted(f, r, w, c) == top;
  }

  // ---- a target that is missed -------------------------------------------------------------------

  lemma {:induction false} NoWorkspace(par: map<Con, Con?>, r: Rank, c: Con)
    requires Ranked(par, r) && c in par && forall x :: x in par ==> x.kind != CtWorkspace
    ensures WorkspaceOf(par, r, c) == null
    decreases r.top - r.h[c]
  {
    if par[c] != null { NoWorkspace(par, r, par[c]); }
  }

  /** Windows outside workspaces are not counted. */
  lemma {:induction false} NothingCounted(f: Forest, r: Rank, w: Holding, c: Con)
    requires Countable(f, r, w) && c in f.par && forall x :: x in f.par ==> x.kind != CtWorkspace
    ensures NumWindows(f, r, w, c) == 0
    decreases r.h[c] + 1, 0
  {
    NoWorkspace(f.par, r, c);
    NothingSummed(f, r, w, f.nodes[c], r.h[c]);
    NothingSummed(f, r, w, f.floats[c], r.h[c]);
  }

  lemma {:induction false} NothingSummed(f: Forest, r: Rank, w: Holding, list: seq<Con>, bound: nat)
    requires Countable(f, r, w) && Under(r, f, list, bound) && forall x :: x in f.par ==> x.kind != CtWorkspace
    ensures SumWindows(f, r, w, list, bound) == 0
    decreases bound, |list|
  {
    if list != [] {
      NothingSummed(f, r, w, list[..|list| - 1], bound);
      NothingCounted(f, r, w, list[|list| - 1]);
    }
  }

  /** A dock area with two clients, the first transient for the second and that for the target. */
  datatype Docks = Docks(root: Con, output: Con, dock: Con, a: Con, b: Con) {
    ghost predicate Valid() {
      && root.kind == CtRoot && output.kind == CtOutput && dock.kind == CtDockarea
      && a.kind == CtCon && b.kind == CtCon && a != b
    }

    ghost function All(): set<Con> {
      {root, output, dock, a, b}
    }

    ghost function Parent(c: Con): Con? {
      if c == output then root else if c == dock then output else if c == a || c == b then dock else null
    }

    ghost function Children(c: Con): seq<Con> {
      if c == root then [output] else if c == output then [dock] else if c == dock then [a, b] else []
    }

    ghost function Height(c: Con): nat {
      if c == root then 3 else if c == output then 2 else if c == dock then 1 else 0
    }

    ghost function Links(): Forest {
      Forest(map c | c in All() :: Parent(c), map c | c in All() :: Children(c), map c | c in All() :: [],
             map c | c in All() :: Children(c))
    }

    ghost function Heights(): Rank {
      Rank(map c | c in All() :: Height(c), 3)
    }

    ghost function Windows(target: nat): Holding {
      map c | c in All() :: if c == a then Held(1, 2) else if c == b then Held(2, target) else Nothing
    }
  }

  lemma DocksTyped(z: Docks, c: Con)
    requires z.Valid() && c in z.All()
    ensures (z.Parent(c) != null ==> z.Parent(c) in z.All()) && Typed(z.Links().par, c)
  {
  }

  lemma DocksChild(z: Docks, c: Con, x: Con)
    requires z.Valid() && c in z.All() && x in z.All()
    ensures x in z.Children(c) <==> z.Parent(x) == c
    ensures NoDup(z.Children(c)) && (x in z.Children(c) ==> x.kind != CtFloatingCon)
  {
  }

  lemma DocksInside(z: Docks, c: Con, x: Con)
    requires c in z.All() && x in z.Children(c)
    ensures x in z.All()
  {
  }

  lemma DocksLinked(z: Docks, c: Con)
    requires z.Valid() && c in z.All()
    ensures Linked(z.Links(), {}, c)
  {
    DocksChild(z, c, c);
    forall x | x in z.All()
      ensures x in z.Children(c) <==> ChildOf(z.Links().par, {}, x, c)
      ensures x in z.Children(c) ==> x.kind != CtFloatingCon
    {
      DocksChild(z, c, x);
    }
    forall x | x in z.Children(c) ensures x in z.All() { DocksInside(z, c, x); }
  }

  lemma DocksWellFormed(z: Docks)
    requires z.Valid()
    ensures WellFormed(z.Links(), {}, z.Heights())
  {
    forall c {:trigger Linked(z.Links(), {}, c)} {:trigger Typed(z.Links().par, c)} | c in z.Links().par
      ensures Linked(z.Links(), {}, c) && Typed(z.Links().par, c)
    {
      DocksTyped(z, c);
      DocksLinked(z, c);
    }
  }

  lemma DocksChain(z: Docks, w: Holding, target: nat)
    requires z.Valid() && w == z.Windows(target) && target != 0 && target != 2
    ensures Hit([z.a, z.b], w, z.a, target, 1) && !Hit([z.a, z.b], w, z.a, target, 0)
  {
    var all := [z.a, z.b];
    assert z.b in all;
    assert Chain(all, w, z.a, 0) == z.a;
    assert Chain(all, w, z.a, 1) == Next(all, w, z.a);
    assert ById(all, w, 2) == z.b;
  }

  /** So con_find_transient_for_window does not find a target that is on the chain of a. */
  lemma TargetMissed(z: Docks, f: Forest, r: Rank, w: Holding, target: nat)
    requires z.Valid() && f == z.Links() && r == z.Heights() && w == z.Windows(target) && target != 0 && target != 2
    ensures WellFormed(f, {}, r) && Countable(f, r, w) && forall x :: x in [z.a, z.b] ==> x in w
    ensures exists k: nat :: Hit([z.a, z.b], w, z.a, target, k)
    ensures !exists k: nat :: k <= NumWindows(f, r, w, z.root) && Hit([z.a, z.b], w, z.a, target, k)
  {
    DocksWellFormed(z);
    ListsGoDown(f, {}, r);
    NothingCounted(f, r, w, z.root);
    DocksChain(z, w, target);
  }

  // ---- the code ----------------------------------------------------------------------------------

  method ConHasManagedWindow(con: Con, ghost s: set<Con>, ghost f: Forest, ghost r: Rank, ghost w: Holding)
    returns (b: bool)
    requires con in s && LinksAre(s, f) && HoldingIs(s, w) && Countable(f, r, w)
    ensures b == Managed(f, r, w, con)
    ensures b <==> con.window != null && con.window.id != 0 && WorkspaceOf(f.par, r, con) != null
  {
    assert HeldBy(con) == w[con];
    var ws := ConGetWorkspace(con, s, f, r);
    b := con.window != null && con.window.id != 0 && ws != null;
  }

  method ConNumWindows(con: Con?, ghost s: set<Con>, ghost f: Forest, ghost r: Rank, ghost w: Holding)
    returns (num: nat)
    requires (con != null ==> con in s) && LinksAre(s, f) && HoldingIs(s, w) && Countable(f, r, w)
    ensures num == if con == null then 0 else NumWindows(f, r, w, con)
    decreases if con == null then 0 else r.h[con] + 1, 0
  {
    if con == null {
      return 0;
    }
    var managed := ConHasManagedWindow(con, s, f, r, w);
    if managed {
      return 1;
    }
    var tiled := CountList(con.nodes, s, f, r, w, r.h[con]);
    var floating := CountList(con.floats, s, f, r, w, r.h[con]);
    num := tiled + floating;
  }

  method CountList(list: seq<Con>, ghost s: set<Con>, ghost f: Forest, ghost r: Rank, ghost w: Holding,
                   ghost bound: nat) returns (num: nat)
    requires LinksAre(s, f) && HoldingIs(s, w) && Countable(f, r, w) && Under(r, f, list, bound)
    ensures num == SumWindows(f, r, w, list, bound)
    decreases bound, 1
  {
    num := 0;
    for i := 0 to |list|
      invariant num == SumWindows(f, r, w, list[..i], bound)
    {
      SumSnoc(f, r, w, list, bound, i);
      var n := ConNumWindows(list[i], s, f, r, w);
      num := num + n;
    }
    assert list[..|list|] == list;
  }

  method ConByWindowId(all: seq<Con>, id: nat, ghost s: set<Con>, ghost w: Holding) returns (con: Con?)
    requires HoldingIs(s, w) && forall x :: x in all ==> x in s
    ensures con == ById(all, w, id)
  {
    for i := 0 to |all|
      invariant ById(all, w, id) == ById(all[i..], w, id)
    {
      assert HeldBy(all[i]) == w[all[i]];
      if all[i].window != null && all[i].window.id == id {
        return all[i];
      }
    }
    con := null;
  }

  /** The walk finds a target that is met within as many steps as there are counted windows. */
  method ConFindTransientForWindow(wm: Wm, all: seq<Con>, start: Con?, target: nat,
                                   ghost s: set<Con>, ghost f: Forest, ghost r: Rank, ghost w: Holding)
    returns (found: bool, ghost rounds: nat)
    requires LinksAre(s, f) && HoldingIs(s, w) && Countable(f, r, w) && wm.croot in s
    requires (start != null ==> start in s) && forall x :: x in all ==> x in s
    ensures rounds <= NumWindows(f, r, w, wm.croot) + 1
    ensures found <==> exists k: nat :: k <= NumWindows(f, r, w, wm.croot) && Hit(all, w, start, target, k)
    ensures |Holders(w)| <= NumWindows(f, r, w, wm.croot) + 1 ==>
            (found <==> exists k: nat :: Hit(all, w, start, target, k))
  {
    var num := ConNumWindows(wm.croot, s, f, r, w);
    found, rounds := WalkChain(all, start, target, num, s, w);
    if k: nat :| |Holders(w)| <= num + 1 && Hit(all, w, start, target, k) {
      BoundSuffices(all, w, start, target, num, k);
    }
  }

  method WalkChain(all: seq<Con>, start: Con?, target: nat, num: nat, ghost s: set<Con>,
                   ghost w: Holding) returns (found: bool, ghost rounds: nat)
    requires HoldingIs(s, w)
    requires (start != null ==> start in s) && forall x :: x in all ==> x in s
    ensures rounds <= num + 1
    ensures found <==> exists k: nat :: k <= num && Hit(all, w, start, target, k)
  {
    var transient := start;
    var count: int := num;
    rounds := 0;
    while transient != null && transient.window != null && transient.window.transientFor != 0
      invariant transient == Chain(all, w, start, rounds) && (transient != null ==> transient in s)
      invariant count == num - rounds && 0 <= count
      invariant forall k: nat :: k < rounds ==> !Hit(all, w, start, target, k)
      decreases count
    {
      assert HeldBy(transient) == w[transient];
      if transient.window.transientFor == target {
        assert Hit(all, w, start, target, rounds);
        rounds := rounds + 1;
        return true, rounds;
      }
      var next := ConByWindowId(all, transient.window.transientFor, s, w);
      assert next == Chain(all, w, start, rounds + 1);
      assert !Hit(all, w, start, target, rounds);
      if next == null {
        forall k: nat | rounds < k
          ensures !Hit(all, w, start, target, k)
        {
          NothingAfterEnd(all, w, start, target, rounds + 1, k);
        }
        rounds := rounds + 1;
        return false, rounds;
      }
      if transient == next {
        forall k: nat | rounds < k
          ensures !Hit(all, w, start, target, k)
        {
          NothingAfterLoop(all, w, start, target, rounds, k);
        }
        rounds := rounds + 1;
        return false, rounds;
      }
      transient := next;
      rounds := rounds + 1;
      if count <= 0 {
        return false, rounds;
      }
      count := count - 1;
    }
    assert transient != null ==> HeldBy(transient) == w[transient];
    forall k: nat | rounds <= k
      ensures !Hit(all, w, start, target, k)
    {
      NothingAfterEnd(all, w, start, target, rounds, k);
    }
    found := false;
  }
}
