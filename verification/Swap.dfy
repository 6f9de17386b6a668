/** con_swap: two containers change places in the tree. */
module Swap {
  import opened Lists
  import opened Tree
  import opened Urgency

  ghost function Trades(lists: Kids, a: Con, b: Con): (g: Kids)
    ensures g.Keys == lists.Keys
  {
    map c | c in lists :: Trade(lists[c], a, b)
  }

  /** Every list with a and b in each other's places, and their parent pointers exchanged. */
  ghost function Swapped(f: Forest, a: Con, b: Con): (g: Forest)
    requires a in f.par && b in f.par
    ensures g.par.Keys == f.par.Keys
  {
    Forest(f.par[a := f.par[b]][b := f.par[a]], Trades(f.nodes, a, b), f.floats, Trades(f.focus, a, b))
  }

  /** Neither container contains the other. */
  ghost predicate Swappable(f: Forest, r: Rank, a: Con, b: Con)
    requires Ranked(f.par, r)
  {
    && a in f.par && b in f.par && a != b && a.kind == CtCon && b.kind == CtCon
    && f.par[a] != null && f.par[b] != null
    && !Within(f.par, r, a, b) && !Within(f.par, r, b, a)
  }

  /** The container that con_swap focuses afterwards. */
  ghost function FocusTarget(par: Parents, r: Rank, first: Con, second: Con, focused: Con): Con?
    requires Ranked(par, r) && first in par && second in par && focused in par
  {
    var ws1, ws2 := WorkspaceOf(par, r, first), WorkspaceOf(par, r, second);
    if ws1 == ws2 && ws1 == WorkspaceOf(par, r, focused) then focused
    else if Within(par, r, focused, first) then second
    else if Within(par, r, focused, second) then first
    else null
  }

  ghost function FocusAfter(par: Parents, r: Rank, a: Con, b: Con, focused: Con): Con
    requires Ranked(par, r) && a in par && b in par && focused in par
  {
    var restore := FocusTarget(par, r, a, b, focused);
    if restore == null then focused else restore
  }

  /** Everything outside the two subtrees is lifted above both of them. */
  ghost function Lifted(par: Parents, r: Rank, a: Con, b: Con): (q: Rank)
    requires Ranked(par, r) && a in par && b in par
    ensures q.h.Keys == par.Keys
  {
    var k := r.h[a] + r.h[b] + 1;
    Rank(map x | x in par :: if Within(par, r, x, a) || Within(par, r, x, b) then r.h[x] else r.h[x] + k, r.top + k)
  }

  lemma ParentOutside(par: Parents, r: Rank, a: Con, b: Con)
    requires Ranked(par, r) && a in par && b in par && par[b] != null && a != b
    requires !Within(par, r, b, a)
    ensures !Within(par, r, par[b], a) && !Within(par, r, par[b], b)
  {
    if Within(par, r, par[b], b) { WithinRank(par, r, par[b], b); }
  }

  lemma SwapRanked(f: Forest, r: Rank, a: Con, b: Con)
    requires Ranked(f.par, r) && Swappable(f, r, a, b)
    ensures Ranked(Swapped(f, a, b).par, Lifted(f.par, r, a, b))
  {
    var par, q := Swapped(f, a, b).par, Lifted(f.par, r, a, b);
    ParentOutside(f.par, r, a, b);
    ParentOutside(f.par, r, b, a);
    forall x | x in par && par[x] != null ensures par[x] in par && q.h[x] < q.h[par[x]] {
      if x != a && x != b {
        var y := f.par[x];
        if Within(f.par, r, y, a) || Within(f.par, r, y, b) {
          assert Within(f.par, r, x, a) || Within(f.par, r, x, b);
        }
      }
    }
  }

  lemma ChildTraded(f: Forest, a: Con, b: Con, y: Con, x: Con)
    requires a in f.par && b in f.par && a != b
    ensures ChildOf(Swapped(f, a, b).par, {}, y, x) <==> ChildOf(f.par, {}, Other(y, a, b), x)
  {
  }

  lemma HoldsTraded(f: Forest, a: Con, b: Con, x: Con, nodes: seq<Con>, floats: seq<Con>, focus: seq<Con>)
    requires a in f.par && b in f.par && a != b && a.kind == CtCon && b.kind == CtCon
    requires Holds(f.par, {}, x, nodes, floats, focus)
    ensures Holds(Swapped(f, a, b).par, {}, x, Trade(nodes, a, b), floats, Trade(focus, a, b))
  {
    var par := Swapped(f, a, b).par;
    TradeFacts(nodes, a, b);
    TradeFacts(focus, a, b);
    forall y ensures ChildOf(par, {}, y, x) <==> ChildOf(f.par, {}, Other(y, a, b), x) { ChildTraded(f, a, b, y, x); }
    forall y | y in floats ensures ChildOf(par, {}, y, x) { assert Other(y, a, b) == y; }
  }

  /** The tree keeps its shape: acyclic, and every container listed once where its parent pointer says. */
  lemma SwapShaped(f: Forest, r: Rank, a: Con, b: Con)
    requires Shaped(f, {}, r) && Swappable(f, r, a, b)
    ensures Shaped(Swapped(f, a, b), {}, Lifted(f.par, r, a, b))
  {
    var g := Swapped(f, a, b);
    SwapRanked(f, r, a, b);
    forall x {:trigger Linked(g, {}, x)} | x in g.par ensures Linked(g, {}, x) {
      assert Linked(f, {}, x);
      HoldsTraded(f, a, b, x, f.nodes[x], f.floats[x], f.focus[x]);
    }
  }

  ghost predicate HasWorkspace(par: Parents, c: Con) {
    exists x :: x in par && x.kind == CtWorkspace && par[x] == c
  }

  /** If one of the two is the content container of an output and the other one is not below an output
      itself, then that content container has no workspaces. */
  ghost predicate KeepsPlaces(par: Parents, a: Con, b: Con)
    requires a in par && b in par && par[a] != null && par[b] != null
  {
    && (par[a].kind == CtOutput && par[b].kind != CtOutput ==> !HasWorkspace(par, a))
    && (par[b].kind == CtOutput && par[a].kind != CtOutput ==> !HasWorkspace(par, b))
  }

  lemma TypedTraded(f: Forest, r: Rank, a: Con, b: Con, x: Con)
    requires Ranked(f.par, r) && Swappable(f, r, a, b) && x in f.par && Typed(f.par, x) && KeepsPlaces(f.par, a, b)
    ensures var par := Swapped(f, a, b).par; (par[x] != null ==> par[x] in par) && Typed(par, x)
  {
  }

  lemma WorkspaceMisplaced(f: Forest, r: Rank, a: Con, b: Con, c: Con, x: Con)
    requires Ranked(f.par, r) && Swappable(f, r, a, b) && (c == a || c == b)
    requires x in f.par && x.kind == CtWorkspace && f.par[x] == c
    requires f.par[c].kind == CtOutput && f.par[Other(c, a, b)].kind != CtOutput
    ensures var par := Swapped(f, a, b).par; par[x] == c && !Typed(par, x)
  {
    assert x != a && x != b;
  }

  /** The workspaces of a content container that is moved away from its output hang in the wrong place. */
  lemma WorkspacesMisplaced(f: Forest, r: Rank, a: Con, b: Con) returns (x: Con)
    requires Ranked(f.par, r) && Swappable(f, r, a, b) && !KeepsPlaces(f.par, a, b)
    ensures x in f.par && (f.par[x] == a || f.par[x] == b)
    ensures var par := Swapped(f, a, b).par; par[x] == f.par[x] && !Typed(par, x)
  {
    var c := if f.par[a].kind == CtOutput then a else b;
    assert HasWorkspace(f.par, c);
    x :| x in f.par && x.kind == CtWorkspace && f.par[x] == c;
    WorkspaceMisplaced(f, r, a, b, c, x);
  }

  /** Each kind still hangs where it should if and only if no workspaces are taken away from an output. */
  lemma SwapTyped(f: Forest, r: Rank, a: Con, b: Con)
    requires WellFormed(f, {}, r) && Swappable(f, r, a, b)
    ensures WellFormed(Swapped(f, a, b), {}, Lifted(f.par, r, a, b)) <==> KeepsPlaces(f.par, a, b)
  {
    var g := Swapped(f, a, b);
    SwapShaped(f, r, a, b);
    if KeepsPlaces(f.par, a, b) {
      forall x {:trigger Typed(g.par, x)} | x in g.par ensures Typed(g.par, x) {
        assert Typed(f.par, x);
        TypedTraded(f, r, a, b, x);
      }
    } else {
      var x := WorkspacesMisplaced(f, r, a, b);
      assert !Typed(g.par, x);
    }
  }

  /** The ancestors of a container outside both subtrees stay its ancestors. */
  lemma {:induction false} OutsideUnmoved(f: Forest, r: Rank, a: Con, b: Con, x: Con, z: Con)
    requires Ranked(f.par, r) && Swappable(f, r, a, b) && x in f.par
    requires !Within(f.par, r, x, a) && !Within(f.par, r, x, b)
    ensures Ranked(Swapped(f, a, b).par, Lifted(f.par, r, a, b))
    ensures Within(Swapped(f, a, b).par, Lifted(f.par, r, a, b), x, z) <==> Within(f.par, r, x, z)
    decreases r.top - r.h[x]
  {
    SwapRanked(f, r, a, b);
    if f.par[x] != null {
      assert Swapped(f, a, b).par[x] == f.par[x];
      OutsideUnmoved(f, r, a, b, f.par[x], z);
    }
  }

  lemma StillApart(f: Forest, r: Rank, a: Con, b: Con)
    requires Ranked(f.par, r) && Swappable(f, r, a, b)
    ensures var par, q := Swapped(f, a, b).par, Lifted(f.par, r, a, b); Ranked(par, q) && !Within(par, q, a, b)
  {
    SwapRanked(f, r, a, b);
    ParentOutside(f.par, r, a, b);
    OutsideUnmoved(f, r, a, b, f.par[b], b);
  }

  lemma SwapSymmetric(f: Forest, r: Rank, a: Con, b: Con)
    requires Ranked(f.par, r) && Swappable(f, r, a, b)
    ensures Swapped(f, b, a).par == Swapped(f, a, b).par && Lifted(f.par, r, b, a) == Lifted(f.par, r, a, b)
  {
    assert Lifted(f.par, r, b, a).h == Lifted(f.par, r, a, b).h;
  }

  /** Swapping twice restores all links. */
  lemma SwapTwice(f: Forest, a: Con, b: Con)
    requires SameKeys(f) && a in f.par && b in f.par && a != b
    ensures Swapped(Swapped(f, a, b), a, b) == f
  {
    var g := Swapped(f, a, b);
    var h := Swapped(g, a, b);
    forall c | c in f.par ensures h.nodes[c] == f.nodes[c] && h.focus[c] == f.focus[c] {
      TradeTwice(f.nodes[c], a, b);
      TradeTwice(f.focus[c], a, b);
    }
    assert h.par == f.par && h.nodes == f.nodes && h.focus == f.focus;
  }
}
