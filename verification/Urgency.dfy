/**
 The cached urgency flags: every split container below a workspace is urgent exactly when some leaf
 under it is.
 */
module Urgency {
  import opened Lists
  import opened Tree

  type Flags = map<Con, bool>
  type Kids = map<Con, seq<Con>>
  type Parents = map<Con, Con?>

  ghost predicate FlagsAre(s: set<Con>, u: Flags)
    reads s`urgent
  {
    u.Keys == s && forall c {:trigger c.urgent} :: c in s ==> c.urgent == u[c]
  }

  /** The maps speak of the same containers, and both directions are free of cycles. */
  ghost predicate Sane(par: Parents, nodes: Kids, r: Rank, u: Flags) {
    Ranked(par, r) && Down(nodes, r) && nodes.Keys == par.Keys && u.Keys == par.Keys
  }

  /** Some leaf under c (c itself, if it is one) carries the flag. */
  ghost predicate HasUrgent(nodes: Kids, r: Rank, u: Flags, c: Con)
    requires Down(nodes, r) && c in nodes && u.Keys == nodes.Keys && nodes.Keys <= r.h.Keys
    decreases r.h[c]
  {
    if nodes[c] == [] then u[c] else exists x :: x in nodes[c] && HasUrgent(nodes, r, u, x)
  }

  /** The containers whose flag is a cache: not a workspace or dock area, and under a workspace. */
  ghost predicate BelowWorkspace(par: Parents, r: Rank, c: Con)
    requires Ranked(par, r) && c in par
    decreases r.top - r.h[c]
  {
    && c.kind != CtWorkspace && c.kind != CtDockarea && par[c] != null
    && (par[c].kind == CtWorkspace || BelowWorkspace(par, r, par[c]))
  }

  ghost predicate Cached(par: Parents, nodes: Kids, r: Rank, c: Con)
    requires Ranked(par, r) && nodes.Keys == par.Keys
  {
    c in par && nodes[c] != [] && BelowWorkspace(par, r, c)
  }

  ghost predicate Consistent(par: Parents, nodes: Kids, r: Rank, u: Flags)
    requires Sane(par, nodes, r, u)
  {
    forall c {:trigger Cached(par, nodes, r, c)} :: c in par && Cached(par, nodes, r, c) ==>
        (u[c] <==> HasUrgent(nodes, r, u, c))
  }

  /** The parents that con_update_parents_urgency visits from `start` on: all up to a workspace or dock area. */
  ghost predicate Visited(par: Parents, r: Rank, start: Con?, c: Con)
    requires Ranked(par, r) && (start != null ==> start in par)
    decreases if start == null then 0 else r.top - r.h[start] + 1
  {
    && start != null && start.kind != CtWorkspace && start.kind != CtDockarea
    && (c == start || Visited(par, r, par[start], c))
  }

  /** The flag of one parent is set, or cleared when no leaf under it is urgent. */
  ghost function UpdateOne(nodes: Kids, r: Rank, u: Flags, p: Con, value: bool): (v: Flags)
    requires Down(nodes, r) && p in nodes && u.Keys == nodes.Keys && nodes.Keys <= r.h.Keys
    ensures v.Keys == u.Keys
  {
    if value then u[p := true] else if HasUrgent(nodes, r, u, p) then u else u[p := false]
  }

  /** con_update_parents_urgency, from `start` upwards. */
  ghost function UpdateParents(par: Parents, nodes: Kids, r: Rank, u: Flags, start: Con?, value: bool): (v: Flags)
    requires Sane(par, nodes, r, u) && (start != null ==> start in par)
    ensures v.Keys == u.Keys
    decreases if start == null then 0 else r.top - r.h[start] + 1
  {
    if start == null || start.kind == CtWorkspace || start.kind == CtDockarea then u
    else UpdateParents(par, nodes, r, UpdateOne(nodes, r, u, start, value), par[start], value)
  }

  /** Flags of split containers do not matter: only the leaves decide. */
  lemma {:induction false} LeavesDecide(nodes: Kids, r: Rank, u: Flags, v: Flags, c: Con)
    requires Down(nodes, r) && c in nodes && u.Keys == nodes.Keys == v.Keys && nodes.Keys <= r.h.Keys
    requires forall x :: x in nodes && nodes[x] == [] ==> (u[x] ==> v[x])
    ensures HasUrgent(nodes, r, u, c) ==> HasUrgent(nodes, r, v, c)
    decreases r.h[c]
  {
    if nodes[c] != [] && HasUrgent(nodes, r, u, c) {
      var x :| x in nodes[c] && HasUrgent(nodes, r, u, x);
      LeavesDecide(nodes, r, u, v, x);
    }
  }

  /** What is listed under a container below a workspace is a child of it and below a workspace too. */
  lemma ChildBelow(f: Forest, r: Rank, c: Con, x: Con)
    requires WellFormed(f, {}, r) && c in f.par && BelowWorkspace(f.par, r, c) && x in f.nodes[c]
    ensures x in f.par && f.par[x] == c && x.kind == CtCon && r.h[x] < r.h[c] && BelowWorkspace(f.par, r, x)
  {
    assert Linked(f, {}, c) && ChildOf(f.par, {}, x, c) && Typed(f.par, x);
    AboveWorkspaces(f, {}, r, c);
  }

  lemma {:induction false} UrgentLeafExists(f: Forest, r: Rank, u: Flags, c: Con) returns (x: Con)
    requires WellFormed(f, {}, r) && Sane(f.par, f.nodes, r, u)
    requires c in f.par && BelowWorkspace(f.par, r, c) && HasUrgent(f.nodes, r, u, c)
    ensures x in f.par && Within(f.par, r, x, c) && f.nodes[x] == [] && u[x]
    decreases r.h[c]
  {
    if f.nodes[c] == [] {
      x := c;
    } else {
      var y :| y in f.nodes[c] && HasUrgent(f.nodes, r, u, y);
      ChildBelow(f, r, c, y);
      x := UrgentLeafExists(f, r, u, y);
      WithinTrans(f.par, r, x, y, c);
    }
  }

  /** An urgent container makes all its ancestors below the workspace urgent. */
  lemma UrgentWithin(f: Forest, r: Rank, u: Flags, x: Con, c: Con)
    requires WellFormed(f, {}, r) && Sane(f.par, f.nodes, r, u) && c in f.par && BelowWorkspace(f.par, r, c)
    requires x in f.par && Within(f.par, r, x, c) && HasUrgent(f.nodes, r, u, x)
    ensures HasUrgent(f.nodes, r, u, c)
  {
    if x != c {
      VisitedFromBelow(f, {}, r, x, c);
      TreePathListed(f, r, x);
      UrgentUp(f.par, f.nodes, r, u, x, c);
    }
  }

  /** con_has_urgent_child asks for an urgent leaf anywhere below. */
  lemma UrgentLeaf(f: Forest, r: Rank, u: Flags, c: Con)
    requires WellFormed(f, {}, r) && Sane(f.par, f.nodes, r, u) && c in f.par && BelowWorkspace(f.par, r, c)
    ensures HasUrgent(f.nodes, r, u, c)
       <==> exists x :: x in f.par && Within(f.par, r, x, c) && f.nodes[x] == [] && u[x]
  {
    if HasUrgent(f.nodes, r, u, c) {
      var x := UrgentLeafExists(f, r, u, c);
    }
    forall x | x in f.par && Within(f.par, r, x, c) && f.nodes[x] == [] && u[x] ensures HasUrgent(f.nodes, r, u, c) {
      UrgentWithin(f, r, u, x, c);
    }
  }

  lemma UpdateOneSame(nodes: Kids, r: Rank, u: Flags, p: Con, value: bool, c: Con)
    requires Down(nodes, r) && p in nodes && c in nodes && u.Keys == nodes.Keys && nodes.Keys <= r.h.Keys
    requires nodes[p] != []
    ensures HasUrgent(nodes, r, UpdateOne(nodes, r, u, p, value), c) <==> HasUrgent(nodes, r, u, c)
  {
    LeavesDecide(nodes, r, u, UpdateOne(nodes, r, u, p, value), c);
    LeavesDecide(nodes, r, UpdateOne(nodes, r, u, p, value), u, c);
  }

  lemma {:induction false} VisitedRank(par: Parents, r: Rank, start: Con?, c: Con)
    requires Ranked(par, r) && (start != null ==> start in par)
    ensures Visited(par, r, start, c) ==> c in par && r.h[start] <= r.h[c]
    decreases if start == null then 0 else r.top - r.h[start] + 1
  {
    if Visited(par, r, start, c) && c != start { VisitedRank(par, r, par[start], c); }
  }

  /** What the upward pass leaves: visited parents are set, or cleared unless a leaf is still urgent. */
  lemma {:induction false} UpdateParentsAt(par: Parents, nodes: Kids, r: Rank, u: Flags, start: Con?, value: bool,
                                           c: Con)
    requires Sane(par, nodes, r, u) && (start != null ==> start in par) && c in par
    requires forall x :: x in par && Visited(par, r, start, x) ==> nodes[x] != []
    ensures var v := UpdateParents(par, nodes, r, u, start, value);
            v[c] == if !Visited(par, r, start, c) then u[c] else value || (u[c] && HasUrgent(nodes, r, u, c))
    decreases if start == null then 0 else r.top - r.h[start] + 1
  {
    if start != null && start.kind != CtWorkspace && start.kind != CtDockarea {
      var p := par[start];
      assert Visited(par, r, start, start);
      forall x | x in par && Visited(par, r, p, x) ensures nodes[x] != [] {
        assert Visited(par, r, start, x);
      }
      var w := UpdateOne(nodes, r, u, start, value);
      UpdateParentsAt(par, nodes, r, w, p, value, c);
      UpdateOneSame(nodes, r, u, start, value, c);
      VisitedRank(par, r, p, start);
    }
  }

  /** What must hold of a cache before the pass for it to be right afterwards. */
  ghost predicate Repairable(par: Parents, nodes: Kids, r: Rank, w: Flags, start: Con?, value: bool, c: Con)
    requires Sane(par, nodes, r, w) && c in par && (start != null ==> start in par)
  {
    if Visited(par, r, start, c)
    then (value ==> HasUrgent(nodes, r, w, c)) && (HasUrgent(nodes, r, w, c) ==> value || w[c])
    else (w[c] <==> HasUrgent(nodes, r, w, c))
  }

  lemma Restored(par: Parents, nodes: Kids, r: Rank, w: Flags, start: Con?, value: bool)
    requires Sane(par, nodes, r, w) && (start != null ==> start in par)
    requires forall x :: x in par && Visited(par, r, start, x) ==> nodes[x] != []
    requires forall c :: c in par && Cached(par, nodes, r, c) ==> Repairable(par, nodes, r, w, start, value, c)
    ensures Consistent(par, nodes, r, UpdateParents(par, nodes, r, w, start, value))
  {
    var v := UpdateParents(par, nodes, r, w, start, value);
    forall x | x in par && nodes[x] == [] ensures v[x] == w[x] {
      UpdateParentsAt(par, nodes, r, w, start, value, x);
    }
    forall c | Cached(par, nodes, r, c) ensures v[c] <==> HasUrgent(nodes, r, v, c) {
      UpdateParentsAt(par, nodes, r, w, start, value, c);
      LeavesDecide(nodes, r, w, v, c);
      LeavesDecide(nodes, r, v, w, c);
    }
  }

  // ---- where the caches are --------------------------------------------------------------------

  lemma HighNotBelow(f: Forest, loose: set<Con>, r: Rank, c: Con)
    requires WellFormed(f, loose, r) && c in f.par && (c.kind == CtRoot || c.kind == CtOutput)
    ensures !BelowWorkspace(f.par, r, c)
    decreases r.top - r.h[c]
  {
    assert Typed(f.par, c);
    if c.kind == CtOutput { HighNotBelow(f, loose, r, f.par[c]); }
  }

  /** Outputs, the root and the content container of an output are under no workspace. */
  lemma AboveWorkspaces(f: Forest, loose: set<Con>, r: Rank, c: Con)
    requires WellFormed(f, loose, r) && c in f.par && BelowWorkspace(f.par, r, c)
    ensures c.kind == CtCon || c.kind == CtFloatingCon
    ensures f.par[c].kind != CtOutput
  {
    if c.kind == CtRoot || c.kind == CtOutput { HighNotBelow(f, loose, r, c); }
    if f.par[c].kind == CtOutput { HighNotBelow(f, loose, r, f.par[c]); }
  }

  /** Everything between x and an ancestor c under a workspace is visited from x's parent. */
  lemma {:induction false} VisitedFromBelow(f: Forest, loose: set<Con>, r: Rank, x: Con, c: Con)
    requires WellFormed(f, loose, r) && x in f.par && x != c && Within(f.par, r, x, c)
    requires c in f.par && BelowWorkspace(f.par, r, c)
    ensures f.par[x] != null && Visited(f.par, r, f.par[x], c)
    ensures x.kind == CtCon && f.par[x].kind != CtOutput
    decreases r.top - r.h[x]
  {
    var p := f.par[x];
    AboveWorkspaces(f, loose, r, c);
    assert Typed(f.par, x) && Typed(f.par, p);
    if p != c {
      VisitedFromBelow(f, loose, r, p, c);
    }
  }

  lemma {:induction false} VisitedWithin(par: Parents, r: Rank, x: Con, c: Con)
    requires Ranked(par, r) && x in par && c in par
    ensures Visited(par, r, par[x], c) ==> Within(par, r, x, c) && x != c
    decreases r.top - r.h[x]
  {
    var p := par[x];
    if Visited(par, r, p, c) {
      if c != p { VisitedWithin(par, r, p, c); }
      WithinRank(par, r, p, c);
    }
  }

  /** From x upwards, a child of anything but a workspace is among its parent's `nodes`. */
  ghost predicate PathListed(par: Parents, nodes: Kids, r: Rank, x: Con)
    requires Ranked(par, r) && x in par && nodes.Keys == par.Keys
    decreases r.top - r.h[x]
  {
    par[x] != null && par[x].kind != CtWorkspace ==> x in nodes[par[x]] && PathListed(par, nodes, r, par[x])
  }

  lemma {:induction false} TreePathListed(f: Forest, r: Rank, x: Con)
    requires WellFormed(f, {}, r) && x in f.par
    ensures PathListed(f.par, f.nodes, r, x)
    decreases r.top - r.h[x]
  {
    if f.par[x] != null {
      assert Typed(f.par, x) && Linked(f, {}, f.par[x]) && ChildOf(f.par, {}, x, f.par[x]);
      TreePathListed(f, r, f.par[x]);
    }
  }

  /** Visited parents are no leaves, and an urgent container makes them urgent. */
  lemma {:induction false} UrgentUp(par: Parents, nodes: Kids, r: Rank, u: Flags, x: Con, c: Con)
    requires Sane(par, nodes, r, u) && x in par && c in par
    requires Visited(par, r, par[x], c) && PathListed(par, nodes, r, x)
    ensures nodes[c] != []
    ensures HasUrgent(nodes, r, u, x) ==> HasUrgent(nodes, r, u, c)
    decreases r.top - r.h[x]
  {
    var p := par[x];
    assert x in nodes[p];
    if c != p {
      UrgentUp(par, nodes, r, u, p, c);
    }
  }

  // ---- a leaf changes its flag -----------------------------------------------------------------

  /** Changing the flag of x shows only at x and its ancestors. */
  lemma {:induction false} ElsewhereSame(f: Forest, r: Rank, u: Flags, x: Con, value: bool, c: Con)
    requires WellFormed(f, {}, r) && Sane(f.par, f.nodes, r, u) && x in f.par && c in f.par
    requires !Within(f.par, r, x, c)
    ensures HasUrgent(f.nodes, r, u, c) <==> HasUrgent(f.nodes, r, u[x := value], c)
    decreases r.h[c]
  {
    forall y | y in f.nodes[c]
      ensures HasUrgent(f.nodes, r, u, y) <==> HasUrgent(f.nodes, r, u[x := value], y)
    {
      assert Linked(f, {}, c) && ChildOf(f.par, {}, y, c);
      if Within(f.par, r, x, y) { WithinTrans(f.par, r, x, y, c); }
      ElsewhereSame(f, r, u, x, value, y);
    }
  }

  lemma LeafRepairable(f: Forest, r: Rank, u: Flags, con: Con, value: bool, c: Con)
    requires WellFormed(f, {}, r) && Sane(f.par, f.nodes, r, u) && Consistent(f.par, f.nodes, r, u)
    requires con in f.par && f.nodes[con] == [] && Cached(f.par, f.nodes, r, c)
    ensures Repairable(f.par, f.nodes, r, u[con := value], f.par[con], value, c)
  {
    var w := u[con := value];
    TreePathListed(f, r, con);
    if Within(f.par, r, con, c) {
      VisitedFromBelow(f, {}, r, con, c);
      if value { UrgentUp(f.par, f.nodes, r, w, con, c); } else { LeavesDecide(f.nodes, r, w, u, c); }
    } else {
      VisitedWithin(f.par, r, con, c);
      ElsewhereSame(f, r, u, con, value, c);
    }
  }

  /** con_set_urgency on a leaf keeps every cache right. */
  lemma LeafChangeConsistent(f: Forest, r: Rank, u: Flags, con: Con, value: bool)
    requires WellFormed(f, {}, r) && Sane(f.par, f.nodes, r, u) && Consistent(f.par, f.nodes, r, u)
    requires con in f.par && f.nodes[con] == []
    ensures Consistent(f.par, f.nodes, r, UpdateParents(f.par, f.nodes, r, u[con := value], f.par[con], value))
  {
    var w := u[con := value];
    var start := f.par[con];
    TreePathListed(f, r, con);
    forall x | x in f.par && Visited(f.par, r, start, x) ensures f.nodes[x] != [] {
      UrgentUp(f.par, f.nodes, r, w, con, x);
    }
    forall c | Cached(f.par, f.nodes, r, c) ensures Repairable(f.par, f.nodes, r, w, start, value, c) {
      LeafRepairable(f, r, u, con, value, c);
    }
    Restored(f.par, f.nodes, r, w, start, value);
  }

  // ---- a container loses a child ---------------------------------------------------------------

  /** p has lost some of its children, or all of them. */
  ghost predicate Thinner(nodes: Kids, less: Kids, p: Con) {
    && p in nodes && less.Keys == nodes.Keys
    && (forall x :: x in nodes && x != p ==> less[x] == nodes[x])
    && (forall y :: y in less[p] ==> y in nodes[p])
  }

  /** If p has become a leaf, its flag is that of the leaves that it lost. */
  ghost predicate Backed(nodes: Kids, less: Kids, p: Con, r: Rank, u: Flags)
    requires Down(nodes, r) && p in nodes && p in less && u.Keys == nodes.Keys && nodes.Keys <= r.h.Keys
  {
    less[p] == [] && u[p] ==> HasUrgent(nodes, r, u, p)
  }

  /** A container urgent without the lost children was urgent with them. */
  lemma {:induction false} ThinnerShrinks(nodes: Kids, less: Kids, p: Con, r: Rank, u: Flags, x: Con)
    requires Thinner(nodes, less, p) && Down(nodes, r) && Down(less, r) && nodes.Keys <= r.h.Keys
    requires x in nodes && u.Keys == nodes.Keys && HasUrgent(less, r, u, x) && Backed(nodes, less, p, r, u)
    ensures HasUrgent(nodes, r, u, x)
    decreases r.h[x]
  {
    if less[x] != [] {
      var y :| y in less[x] && HasUrgent(less, r, u, y);
      assert y in nodes[x];
      ThinnerShrinks(nodes, less, p, r, u, y);
    }
  }

  /** Nothing changes for containers that are not above p. */
  lemma {:induction false} ThinnerSame(f: Forest, less: Kids, p: Con, r: Rank, u: Flags, x: Con)
    requires WellFormed(f, {}, r) && Sane(f.par, f.nodes, r, u) && Down(less, r) && Thinner(f.nodes, less, p)
    requires x in f.par && !Within(f.par, r, p, x)
    ensures HasUrgent(f.nodes, r, u, x) <==> HasUrgent(less, r, u, x)
    decreases r.h[x]
  {
    assert Within(f.par, r, p, p) && less[x] == f.nodes[x];
    forall y | y in f.nodes[x] ensures HasUrgent(f.nodes, r, u, y) <==> HasUrgent(less, r, u, y) {
      assert Linked(f, {}, x) && ChildOf(f.par, {}, y, x);
      if Within(f.par, r, p, y) { WithinTrans(f.par, r, p, y, x); }
      ThinnerSame(f, less, p, r, u, y);
    }
  }

  lemma {:induction false} ThinnerPathListed(par: Parents, nodes: Kids, less: Kids, p: Con, r: Rank, x: Con)
    requires Ranked(par, r) && nodes.Keys == par.Keys && Thinner(nodes, less, p)
    requires x in par && r.h[p] <= r.h[x] && PathListed(par, nodes, r, x)
    ensures PathListed(par, less, r, x)
    decreases r.top - r.h[x]
  {
    if par[x] != null && par[x].kind != CtWorkspace {
      ThinnerPathListed(par, nodes, less, p, r, par[x]);
    }
  }

  /** con_on_remove_child leaves the flags of these and of their ancestors alone. */
  predicate KeepsFlag(p: Con, grandparent: Con?) {
    || p.kind == CtOutput || p.kind == CtRoot || p.kind == CtDockarea || p.kind == CtWorkspace
    || (grandparent != null && grandparent.kind == CtOutput)
  }

  /** The flags after con_on_remove_child(p), when p still has children. */
  ghost function AfterRemoval(par: Parents, nodes: Kids, r: Rank, u: Flags, p: Con): Flags
    requires Sane(par, nodes, r, u) && p in par
  {
    if KeepsFlag(p, par[p]) then u
    else var value := HasUrgent(nodes, r, u, p); UpdateParents(par, nodes, r, u[p := value], par[p], value)
  }

  lemma CachedIsUpdated(f: Forest, r: Rank, p: Con, c: Con)
    requires WellFormed(f, {}, r) && p in f.par && c in f.par && Within(f.par, r, p, c) && BelowWorkspace(f.par, r, c)
    ensures !KeepsFlag(p, f.par[p])
  {
    if p == c { AboveWorkspaces(f, {}, r, c); } else { VisitedFromBelow(f, {}, r, p, c); }
  }

  /** Writing the recomputed flag of p changes nothing for the leaves. */
  lemma RecomputedSame(nodes: Kids, r: Rank, u: Flags, p: Con, x: Con)
    requires Down(nodes, r) && p in nodes && x in nodes && u.Keys == nodes.Keys && nodes.Keys <= r.h.Keys
    ensures HasUrgent(nodes, r, u[p := HasUrgent(nodes, r, u, p)], x) <==> HasUrgent(nodes, r, u, x)
  {
    var w := u[p := HasUrgent(nodes, r, u, p)];
    LeavesDecide(nodes, r, u, w, x);
    LeavesDecide(nodes, r, w, u, x);
  }

  lemma ShrinkVisited(par: Parents, nodes: Kids, less: Kids, r: Rank, u: Flags, p: Con, x: Con)
    requires Sane(par, nodes, r, u) && Thinner(nodes, less, p) && Down(less, r) && p in par && x in par
    requires PathListed(par, less, r, p) && x != p && Visited(par, r, par[p], x)
    requires (u[x] <==> HasUrgent(nodes, r, u, x)) && Backed(nodes, less, p, r, u)
    ensures var value := HasUrgent(less, r, u, p); Repairable(par, less, r, u[p := value], par[p], value, x)
  {
    var value := HasUrgent(less, r, u, p);
    RecomputedSame(less, r, u, p, p);
    RecomputedSame(less, r, u, p, x);
    UrgentUp(par, less, r, u[p := value], p, x);
    if HasUrgent(less, r, u, x) { ThinnerShrinks(nodes, less, p, r, u, x); }
  }

  lemma {:induction false} BelowVisited(par: Parents, r: Rank, p: Con, x: Con)
    requires Ranked(par, r) && p in par && x in par && p.kind != CtWorkspace && p.kind != CtDockarea
    requires Visited(par, r, par[p], x) && BelowWorkspace(par, r, x)
    ensures BelowWorkspace(par, r, p)
    decreases r.top - r.h[p]
  {
    if par[p] != x { BelowVisited(par, r, par[p], x); }
  }

  lemma VisitedBacked(f: Forest, less: Kids, r: Rank, u: Flags, p: Con, x: Con)
    requires Sane(f.par, f.nodes, r, u) && Consistent(f.par, f.nodes, r, u)
    requires Thinner(f.nodes, less, p) && p in f.par && x in f.par && p.kind != CtWorkspace && p.kind != CtDockarea
    requires Visited(f.par, r, f.par[p], x) && BelowWorkspace(f.par, r, x)
    ensures Backed(f.nodes, less, p, r, u)
  {
    BelowVisited(f.par, r, p, x);
    if f.nodes[p] != [] { assert Cached(f.par, f.nodes, r, p); }
  }

  lemma RemoveChildRepairable(f: Forest, less: Kids, r: Rank, u: Flags, p: Con, x: Con)
    requires WellFormed(f, {}, r) && Sane(f.par, f.nodes, r, u)
    requires p in f.par && Thinner(f.nodes, less, p) && Down(less, r) && Cached(f.par, f.nodes, r, x)
    requires Consistent(f.par, f.nodes, r, u) && PathListed(f.par, less, r, p)
    requires p.kind != CtWorkspace && p.kind != CtDockarea && less[x] != []
    ensures var value := HasUrgent(less, r, u, p);
            Repairable(f.par, less, r, u[p := value], f.par[p], value, x)
  {
    VisitedWithin(f.par, r, p, x);
    if Visited(f.par, r, f.par[p], x) {
      VisitedBacked(f, less, r, u, p, x);
      ShrinkVisited(f.par, f.nodes, less, r, u, p, x);
    } else {
      RecomputedSame(less, r, u, p, x);
      if x != p { NotAboveSame(f, less, r, u, p, x); }
    }
  }

  lemma NotAboveSame(f: Forest, less: Kids, r: Rank, u: Flags, p: Con, x: Con)
    requires WellFormed(f, {}, r) && Sane(f.par, f.nodes, r, u) && p in f.par && x in f.par && x != p
    requires Thinner(f.nodes, less, p) && Down(less, r)
    requires BelowWorkspace(f.par, r, x) && !Visited(f.par, r, f.par[p], x)
    ensures HasUrgent(f.nodes, r, u, x) <==> HasUrgent(less, r, u, x)
  {
    if Within(f.par, r, p, x) { VisitedFromBelow(f, {}, r, p, x); }
    ThinnerSame(f, less, p, r, u, x);
  }

  lemma RemoveAboveConsistent(f: Forest, less: Kids, r: Rank, u: Flags, p: Con)
    requires WellFormed(f, {}, r) && Sane(f.par, f.nodes, r, u) && Consistent(f.par, f.nodes, r, u)
    requires p in f.par && Thinner(f.nodes, less, p) && Down(less, r) && KeepsFlag(p, f.par[p])
    ensures Consistent(f.par, less, r, u)
  {
    forall x | Cached(f.par, less, r, x) ensures HasUrgent(less, r, u, x) <==> u[x] {
      if Within(f.par, r, p, x) { CachedIsUpdated(f, r, p, x); }
      assert less[x][0] in f.nodes[x];
      assert Cached(f.par, f.nodes, r, x);
      ThinnerSame(f, less, p, r, u, x);
    }
  }

  /** Losing children, or all of them, and then con_on_remove_child keep every cache right. */
  lemma RemoveChildConsistent(f: Forest, less: Kids, r: Rank, u: Flags, p: Con)
    requires WellFormed(f, {}, r) && Sane(f.par, f.nodes, r, u) && Consistent(f.par, f.nodes, r, u)
    requires p in f.par && Thinner(f.nodes, less, p) && Down(less, r)
    ensures Consistent(f.par, less, r, AfterRemoval(f.par, less, r, u, p))
  {
    if KeepsFlag(p, f.par[p]) {
      RemoveAboveConsistent(f, less, r, u, p);
    } else {
      var value := HasUrgent(less, r, u, p);
      var w := u[p := value];
      assert PathListed(f.par, less, r, p) by {
        TreePathListed(f, r, p);
        ThinnerPathListed(f.par, f.nodes, less, p, r, p);
      }
      forall x | x in f.par && Visited(f.par, r, f.par[p], x) ensures less[x] != [] {
        UrgentUp(f.par, less, r, w, p, x);
      }
      forall x | x in f.par && Cached(f.par, less, r, x) ensures Repairable(f.par, less, r, w, f.par[p], value, x) {
        assert less[x][0] in f.nodes[x];
        assert Cached(f.par, f.nodes, r, x);
        RemoveChildRepairable(f, less, r, u, p, x);
      }
      Restored(f.par, less, r, w, f.par[p], value);
    }
  }

  lemma DetachThinner(f: Forest, r: Rank, c: Con)
    requires WellFormed(f, {}, r) && c in f.par && f.par[c] != null
    ensures Thinner(f.nodes, Detach(f, c).nodes, f.par[c])
  {
    assert Linked(f, {}, f.par[c]);
    RemoveFacts(f.nodes[f.par[c]], c);
  }

  // ---- the code --------------------------------------------------------------------------------

  method ConHasUrgentChild(con: Con, ghost s: set<Con>, ghost f: Forest, ghost r: Rank, ghost u: Flags)
    returns (b: bool)
    requires con in s && LinksAre(s, f) && FlagsAre(s, u) && Down(f.nodes, r) && s <= r.h.Keys
    ensures b == HasUrgent(f.nodes, r, u, con)
    decreases r.h[con]
  {
    if con.nodes == [] {
      return con.urgent;
    }
    for i := 0 to |con.nodes|
      invariant forall j :: 0 <= j < i ==> con.nodes[j] in s && !HasUrgent(f.nodes, r, u, con.nodes[j])
    {
      assert con.nodes[i] in f.nodes[con];
      b := ConHasUrgentChild(con.nodes[i], s, f, r, u);
      if b { return; }
    }
    b := false;
  }

  method SetFlag(con: Con, value: bool, ghost s: set<Con>, ghost f: Forest, ghost u: Flags)
    requires con in s && LinksAre(s, f) && FlagsAre(s, u)
    modifies con`urgent
    ensures LinksAre(s, f) && FlagsAre(s, u[con := value])
  {
    con.urgent := value;
  }

  method ConUpdateParentsUrgency(con: Con, ghost s: set<Con>, ghost f: Forest, ghost r: Rank, ghost u: Flags)
    requires con in s && LinksAre(s, f) && FlagsAre(s, u) && Sane(f.par, f.nodes, r, u)
    modifies s`urgent
    ensures LinksAre(s, f)
    ensures FlagsAre(s, if con.kind == CtWorkspace then u else UpdateParents(f.par, f.nodes, r, u, f.par[con], u[con]))
  {
    if con.kind == CtWorkspace {
      return;
    }
    var parent := con.parent;
    var value := con.urgent;
    ghost var v: Flags := u;
    while parent != null && parent.kind != CtWorkspace && parent.kind != CtDockarea
      invariant parent != null ==> parent in s
      invariant FlagsAre(s, v)
      invariant UpdateParents(f.par, f.nodes, r, v, parent, value)
                == UpdateParents(f.par, f.nodes, r, u, f.par[con], value)
      decreases if parent == null then 0 else r.top - r.h[parent] + 1
    {
      UpdateOneParent(parent, value, s, f, r, v);
      v := UpdateOne(f.nodes, r, v, parent, value);
      parent := parent.parent;
    }
  }

  method UpdateOneParent(parent: Con, value: bool, ghost s: set<Con>, ghost f: Forest, ghost r: Rank, ghost u: Flags)
    requires parent in s && LinksAre(s, f) && FlagsAre(s, u) && Down(f.nodes, r) && s <= r.h.Keys
    modifies s`urgent
    ensures LinksAre(s, f)
    ensures FlagsAre(s, UpdateOne(f.nodes, r, u, parent, value))
  {
    if value {
      SetFlag(parent, true, s, f, u);
    } else {
      var b := ConHasUrgentChild(parent, s, f, r, u);
      if !b {
        SetFlag(parent, false, s, f, u);
      }
    }
  }

  ghost function WorkspaceOf(par: Parents, r: Rank, c: Con): (ws: Con?)
    requires Ranked(par, r) && c in par
    ensures ws != null ==> ws in par && ws.kind == CtWorkspace
    decreases r.top - r.h[c]
  {
    if c.kind == CtWorkspace then c else if par[c] == null then null else WorkspaceOf(par, r, par[c])
  }

  /** con_get_workspace: the nearest workspace upwards, the container itself included, or null if there is none. */
  lemma {:induction false} WorkspaceNearest(par: Parents, r: Rank, c: Con, y: Con)
    requires Ranked(par, r) && c in par && y in par && Within(par, r, c, y) && y.kind == CtWorkspace
    ensures WorkspaceOf(par, r, c) != null
    ensures Within(par, r, c, WorkspaceOf(par, r, c)) && Within(par, r, WorkspaceOf(par, r, c), y)
    decreases r.top - r.h[c]
  {
    if c.kind != CtWorkspace { WorkspaceNearest(par, r, par[c], y); }
  }

  method ConGetWorkspace(con: Con, ghost s: set<Con>, ghost f: Forest, ghost r: Rank) returns (ws: Con?)
    requires con in s && LinksAre(s, f) && Ranked(f.par, r)
    ensures ws == WorkspaceOf(f.par, r, con)
    ensures ws != null ==> ws in s && ws.kind == CtWorkspace
  {
    ws := con;
    while ws != null && ws.kind != CtWorkspace
      invariant ws != null ==> ws in s
      invariant WorkspaceOf(f.par, r, con) == if ws == null then null else WorkspaceOf(f.par, r, ws)
      decreases if ws == null then 0 else r.top - r.h[ws] + 1
    {
      ws := ws.parent;
    }
  }

  /** The same flags, workspaces aside. */
  ghost predicate SameOffWorkspaces(u: Flags, v: Flags) {
    u.Keys == v.Keys && forall c :: c in u && c.kind != CtWorkspace ==> u[c] == v[c]
  }

  /** get_urgency_flag: some container below c carries the flag. */
  ghost predicate AnyBelow(f: Forest, r: Rank, u: Flags, c: Con)
    requires SameKeys(f) && Down(f.nodes, r) && Down(f.floats, r)
    requires c in f.par && u.Keys == f.par.Keys && f.par.Keys <= r.h.Keys
    decreases r.h[c]
  {
    || (exists x :: x in f.nodes[c] && (u[x] || AnyBelow(f, r, u, x)))
    || (exists x :: x in f.floats[c] && (u[x] || AnyBelow(f, r, u, x)))
  }

  lemma {:induction false} AnyBelowFound(f: Forest, r: Rank, u: Flags, c: Con) returns (x: Con)
    requires Shaped(f, {}, r) && Sane(f.par, f.nodes, r, u) && Down(f.floats, r) && c in f.par && AnyBelow(f, r, u, c)
    ensures x in f.par && x != c && Within(f.par, r, x, c) && u[x]
    decreases r.h[c]
  {
    var y :| (y in f.nodes[c] || y in f.floats[c]) && (u[y] || AnyBelow(f, r, u, y));
    assert Linked(f, {}, c) && ChildOf(f.par, {}, y, c);
    assert Within(f.par, r, y, c);
    if u[y] {
      x := y;
    } else {
      x := AnyBelowFound(f, r, u, y);
      WithinTrans(f.par, r, x, y, c);
      WithinRank(f.par, r, x, y);
    }
  }

  lemma {:induction false} AnyBelowHas(f: Forest, r: Rank, u: Flags, c: Con, x: Con)
    requires Shaped(f, {}, r) && Sane(f.par, f.nodes, r, u) && Down(f.floats, r) && c in f.par
    requires x in f.par && x != c && Within(f.par, r, x, c) && u[x]
    ensures AnyBelow(f, r, u, c)
    decreases r.h[c]
  {
    var y := Toward(f.par, r, x, c);
    assert Linked(f, {}, c) && ChildOf(f.par, {}, y, c);
    if x != y { AnyBelowHas(f, r, u, y, x); }
  }

  /** What is inside a workspace is below it. */
  lemma {:induction false} InsideBelowWorkspace(f: Forest, r: Rank, x: Con, ws: Con)
    requires WellFormed(f, {}, r) && ws.kind == CtWorkspace && x in f.par && x != ws && Within(f.par, r, x, ws)
    ensures BelowWorkspace(f.par, r, x) && x.kind != CtWorkspace
    decreases r.top - r.h[x]
  {
    var p := f.par[x];
    assert Typed(f.par, x);
    if p != ws {
      InsideBelowWorkspace(f, r, p, ws);
      AboveWorkspaces(f, {}, r, p);
    }
  }

  /** With right caches, get_urgency_flag asks for an urgent leaf anywhere on the workspace, floating ones too. */
  lemma WorkspaceFlag(f: Forest, r: Rank, u: Flags, ws: Con)
    requires WellFormed(f, {}, r) && Sane(f.par, f.nodes, r, u) && Down(f.floats, r)
    requires Consistent(f.par, f.nodes, r, u) && ws in f.par && ws.kind == CtWorkspace
    ensures AnyBelow(f, r, u, ws)
       <==> exists x :: x in f.par && x != ws && Within(f.par, r, x, ws) && f.nodes[x] == [] && u[x]
  {
    if AnyBelow(f, r, u, ws) {
      var y := AnyBelowFound(f, r, u, ws);
      InsideBelowWorkspace(f, r, y, ws);
      if f.nodes[y] != [] {
        assert Cached(f.par, f.nodes, r, y);
        var x := UrgentLeafExists(f, r, u, y);
        WithinTrans(f.par, r, x, y, ws);
        WithinRank(f.par, r, x, y);
        WithinRank(f.par, r, y, ws);
      }
    }
    forall x | x in f.par && x != ws && Within(f.par, r, x, ws) && f.nodes[x] == [] && u[x]
      ensures AnyBelow(f, r, u, ws)
    {
      AnyBelowHas(f, r, u, ws, x);
    }
  }

  method GetUrgencyFlag(con: Con, ghost s: set<Con>, ghost f: Forest, ghost r: Rank, ghost u: Flags) returns (b: bool)
    requires con in s && LinksAre(s, f) && FlagsAre(s, u) && Down(f.nodes, r) && Down(f.floats, r) && s <= r.h.Keys
    ensures b == AnyBelow(f, r, u, con)
    decreases r.h[con]
  {
    for i := 0 to |con.nodes|
      invariant forall j :: 0 <= j < i ==>
                  con.nodes[j] in s && !u[con.nodes[j]] && !AnyBelow(f, r, u, con.nodes[j])
    {
      assert con.nodes[i] in f.nodes[con];
      if con.nodes[i].urgent {
        return true;
      }
      b := GetUrgencyFlag(con.nodes[i], s, f, r, u);
      if b { return; }
    }
    for i := 0 to |con.floats|
      invariant forall j :: 0 <= j < i ==>
                  con.floats[j] in s && !u[con.floats[j]] && !AnyBelow(f, r, u, con.floats[j])
    {
      assert con.floats[i] in f.floats[con];
      if con.floats[i].urgent {
        return true;
      }
      b := GetUrgencyFlag(con.floats[i], s, f, r, u);
      if b { return; }
    }
    b := false;
  }

  method WorkspaceUpdateUrgentFlag(ws: Con, ghost s: set<Con>, ghost f: Forest, ghost r: Rank, ghost u: Flags)
    requires ws in s && LinksAre(s, f) && FlagsAre(s, u) && Down(f.nodes, r) && Down(f.floats, r) && s <= r.h.Keys
    modifies ws`urgent
    ensures LinksAre(s, f) && FlagsAre(s, u[ws := AnyBelow(f, r, u, ws)])
  {
    var b := GetUrgencyFlag(ws, s, f, r, u);
    SetFlag(ws, b, s, f, u);
  }

  /** The flag of the workspace around con, if there is one, recomputed. */
  ghost function WorkspaceRefreshed(f: Forest, r: Rank, u: Flags, con: Con): (v: Flags)
    requires SameKeys(f) && Sane(f.par, f.nodes, r, u) && Down(f.floats, r) && con in f.par
    ensures SameOffWorkspaces(u, v)
  {
    var ws := WorkspaceOf(f.par, r, con);
    if ws == null then u else u[ws := AnyBelow(f, r, u, ws)]
  }

  /** The flags after con_set_urgency, those of workspaces aside. */
  ghost function SetUrgency(par: Parents, nodes: Kids, r: Rank, u: Flags, con: Con, value: bool,
                            focused: Con): (v: Flags)
    requires Sane(par, nodes, r, u) && con in par
    ensures v.Keys == u.Keys
  {
    if value && focused == con then u
    else if con.kind == CtWorkspace then u[con := value]
    else UpdateParents(par, nodes, r, u[con := value], par[con], value)
  }

  /** The flags after con_set_urgency. */
  ghost function AfterSetUrgency(f: Forest, r: Rank, u: Flags, con: Con, value: bool, focused: Con): (v: Flags)
    requires SameKeys(f) && Sane(f.par, f.nodes, r, u) && Down(f.floats, r) && con in f.par
    ensures SameOffWorkspaces(SetUrgency(f.par, f.nodes, r, u, con, value, focused), v)
  {
    var t := SetUrgency(f.par, f.nodes, r, u, con, value, focused);
    if value && focused == con then u else WorkspaceRefreshed(f, r, t, con)
  }

  method ConSetUrgency(wm: Wm, con: Con, urgent: bool, ghost s: set<Con>, ghost f: Forest, ghost r: Rank,
                       ghost u: Flags)
    requires con in s && LinksAre(s, f) && FlagsAre(s, u) && Sane(f.par, f.nodes, r, u) && Down(f.floats, r)
    modifies s`urgent
    ensures LinksAre(s, f) && FlagsAre(s, AfterSetUrgency(f, r, u, con, urgent, wm.focused))
  {
    if !(urgent && wm.focused == con) {
      SetFlag(con, urgent, s, f, u);
      ghost var w := u[con := urgent];
      ConUpdateParentsUrgency(con, s, f, r, w);
      UpdateWorkspaceOf(con, s, f, r, SetUrgency(f.par, f.nodes, r, u, con, urgent, wm.focused));
    }
  }

  method UpdateWorkspaceOf(con: Con, ghost s: set<Con>, ghost f: Forest, ghost r: Rank, ghost u: Flags)
    requires con in s && LinksAre(s, f) && FlagsAre(s, u) && Sane(f.par, f.nodes, r, u) && Down(f.floats, r)
    modifies s`urgent
    ensures LinksAre(s, f) && FlagsAre(s, WorkspaceRefreshed(f, r, u, con))
  {
    var ws := ConGetWorkspace(con, s, f, r);
    if ws != null {
      WorkspaceUpdateUrgentFlag(ws, s, f, r, u);
    }
  }

  /** con_on_remove_child; `close` says that the container is empty and tree_close_internal is called. */
  method ConOnRemoveChild(con: Con, visible: bool, ghost s: set<Con>, ghost f: Forest, ghost r: Rank, ghost u: Flags)
    returns (close: bool)
    requires con in s && LinksAre(s, f) && FlagsAre(s, u) && Sane(f.par, f.nodes, r, u)
    modifies s`urgent
    ensures LinksAre(s, f)
    ensures FlagsAre(s, AfterRemoval(f.par, f.nodes, r, u, con))
    ensures close <==>
              && !(con.parent != null && con.parent.kind == CtOutput)
              && if con.kind == CtWorkspace then con.focus == [] && !visible
                 else con.nodes == [] && !KeepsFlag(con, con.parent)
  {
    if con.kind == CtOutput || con.kind == CtRoot || con.kind == CtDockarea ||
        (con.parent != null && con.parent.kind == CtOutput) {
      return false;
    }
    if con.kind == CtWorkspace {
      return con.focus == [] && !visible;
    }
    var b := ConHasUrgentChild(con, s, f, r, u);
    SetFlag(con, b, s, f, u);
    ConUpdateParentsUrgency(con, s, f, r, u[con := b]);
    close := |con.nodes| == 0;
  }
}