/** What con_swap does to the cached urgency flags. */
module SwapUrgency {
  import opened Lists
  import opened Tree
  import opened Urgency
  import opened FocusOps
  import opened Swap

  // ---- caches that are right except for some containers below them -------------------------------

  /** c is a proper ancestor of a container of `out`. */
  ghost predicate Above(par: Parents, r: Rank, out: set<Con>, c: Con)
    requires Ranked(par, r)
  {
    exists m :: m in out && m in par && m != c && Within(par, r, m, c)
  }

  /** Some leaf under c is urgent, not counting those inside the containers of `out` below c. */
  ghost predicate HasApart(nodes: Kids, r: Rank, u: Flags, out: set<Con>, c: Con)
    requires Down(nodes, r) && c in nodes && u.Keys == nodes.Keys && nodes.Keys <= r.h.Keys
    decreases r.h[c]
  {
    if nodes[c] == [] then u[c] else exists x :: x in nodes[c] && x !in out && HasApart(nodes, r, u, out, x)
  }

  /** The flag of c covers the leaves apart from `out`, and may have been set because of `out`. */
  ghost predicate AlmostAt(par: Parents, nodes: Kids, r: Rank, u: Flags, out: set<Con>, c: Con)
    requires Sane(par, nodes, r, u) && c in par
  {
    && (HasApart(nodes, r, u, out, c) ==> u[c])
    && (u[c] ==> HasUrgent(nodes, r, u, c) || Above(par, r, out, c))
  }

  ghost predicate Almost(par: Parents, nodes: Kids, r: Rank, u: Flags, out: set<Con>)
    requires Sane(par, nodes, r, u)
  {
    forall c {:trigger Cached(par, nodes, r, c)} :: c in par && Cached(par, nodes, r, c) ==>
        AlmostAt(par, nodes, r, u, out, c)
  }

  lemma {:induction false} ApartHas(nodes: Kids, r: Rank, u: Flags, out: set<Con>, c: Con)
    requires Down(nodes, r) && c in nodes && u.Keys == nodes.Keys && nodes.Keys <= r.h.Keys
    requires HasApart(nodes, r, u, out, c)
    ensures HasUrgent(nodes, r, u, c)
    decreases r.h[c]
  {
    if nodes[c] != [] {
      var x :| x in nodes[c] && x !in out && HasApart(nodes, r, u, out, x);
      ApartHas(nodes, r, u, out, x);
    }
  }

  /** An urgent leaf under c is inside a container of `out` below c, or it counts. */
  lemma {:induction false} ApartOrAbove(f: Forest, r: Rank, u: Flags, out: set<Con>, c: Con)
    requires WellFormed(f, {}, r) && Sane(f.par, f.nodes, r, u) && c in f.par && HasUrgent(f.nodes, r, u, c)
    ensures HasApart(f.nodes, r, u, out, c) || Above(f.par, r, out, c)
    decreases r.h[c]
  {
    if f.nodes[c] != [] {
      var x :| x in f.nodes[c] && HasUrgent(f.nodes, r, u, x);
      assert Linked(f, {}, c) && ChildOf(f.par, {}, x, c);
      assert Within(f.par, r, x, c);
      if x !in out {
        ApartOrAbove(f, r, u, out, x);
        if Above(f.par, r, out, x) { AboveUp(f.par, r, out, x, c); }
      }
    }
  }

  lemma AboveUp(par: Parents, r: Rank, out: set<Con>, x: Con, c: Con)
    requires Ranked(par, r) && x in par && Within(par, r, x, c) && Above(par, r, out, x)
    ensures Above(par, r, out, c)
  {
    var m :| m in out && m in par && m != x && Within(par, r, m, x);
    WithinTrans(par, r, m, x, c);
    WithinRank(par, r, m, x);
    WithinRank(par, r, x, c);
  }

  /** With no container left out the caches are right. */
  lemma AlmostNone(f: Forest, r: Rank, u: Flags)
    requires WellFormed(f, {}, r) && Sane(f.par, f.nodes, r, u) && Almost(f.par, f.nodes, r, u, {})
    ensures Consistent(f.par, f.nodes, r, u)
  {
    forall c | c in f.par && Cached(f.par, f.nodes, r, c) ensures u[c] <==> HasUrgent(f.nodes, r, u, c) {
      assert AlmostAt(f.par, f.nodes, r, u, {}, c);
      if HasUrgent(f.nodes, r, u, c) { ApartOrAbove(f, r, u, {}, c); }
    }
  }

  /** Leaves that count once m is no longer left out counted before, or are inside m. */
  lemma {:induction false} ApartWithout(f: Forest, r: Rank, u: Flags, out: set<Con>, m: Con, c: Con)
    requires WellFormed(f, {}, r) && Sane(f.par, f.nodes, r, u) && m in f.par && c in f.par
    requires HasApart(f.nodes, r, u, out - {m}, c)
    ensures HasApart(f.nodes, r, u, out, c) || (m != c && Within(f.par, r, m, c) && HasUrgent(f.nodes, r, u, m))
    decreases r.h[c]
  {
    if f.nodes[c] != [] {
      var x :| x in f.nodes[c] && x !in out - {m} && HasApart(f.nodes, r, u, out - {m}, x);
      assert Linked(f, {}, c) && ChildOf(f.par, {}, x, c);
      if x == m {
        ApartHas(f.nodes, r, u, out - {m}, m);
        assert Within(f.par, r, m, c);
      } else {
        ApartWithout(f, r, u, out, m, x);
        if Within(f.par, r, m, x) {
          assert Within(f.par, r, x, c);
          WithinTrans(f.par, r, m, x, c);
          WithinRank(f.par, r, m, x);
        }
      }
    }
  }

  /** Fewer urgent leaves count for less. */
  lemma {:induction false} ApartShrinks(f: Forest, r: Rank, u: Flags, v: Flags, out: set<Con>, c: Con)
    requires WellFormed(f, {}, r) && Sane(f.par, f.nodes, r, u) && Sane(f.par, f.nodes, r, v)
    requires forall x :: x in f.par && f.nodes[x] == [] && x.kind != CtWorkspace ==> (v[x] ==> u[x])
    requires c in f.par && BelowWorkspace(f.par, r, c) && HasApart(f.nodes, r, v, out, c)
    ensures HasApart(f.nodes, r, u, out, c)
    decreases r.h[c]
  {
    if f.nodes[c] != [] {
      var x :| x in f.nodes[c] && x !in out && HasApart(f.nodes, r, v, out, x);
      ChildBelow(f, r, c, x);
      ApartShrinks(f, r, u, v, out, x);
    }
  }

  // ---- con_focus and con_set_urgency on such flags -----------------------------------------------

  lemma AlmostCleared(f: Forest, r: Rank, u: Flags, v: Flags, con: Con?, out: set<Con>)
    requires WellFormed(f, {}, r) && Sane(f.par, f.nodes, r, u) && Sane(f.par, f.nodes, r, v)
    requires Cleared(f.par, f.nodes, r, u, v, con) && Almost(f.par, f.nodes, r, u, out)
    ensures Almost(f.par, f.nodes, r, v, out)
  {
    forall c | c in f.par && Cached(f.par, f.nodes, r, c) ensures AlmostAt(f.par, f.nodes, r, v, out, c) {
      assert Trimmed(f.nodes, r, u, v, c) && AlmostAt(f.par, f.nodes, r, u, out, c);
      if HasApart(f.nodes, r, v, out, c) {
        ApartShrinks(f, r, u, v, out, c);
        ApartHas(f.nodes, r, v, out, c);
      }
    }
  }

  lemma {:induction false} BelowWithin(f: Forest, r: Rank, x: Con, c: Con)
    requires WellFormed(f, {}, r) && x in f.par && Within(f.par, r, x, c) && c in f.par && BelowWorkspace(f.par, r, c)
    ensures BelowWorkspace(f.par, r, x)
    decreases r.top - r.h[x]
  {
    if x != c {
      VisitedFromBelow(f, {}, r, x, c);
      BelowWithin(f, r, f.par[x], c);
    }
  }

  /** The flag of a container below a workspace is right if nothing inside it is left out. */
  lemma OwnFlag(f: Forest, r: Rank, u: Flags, out: set<Con>, m: Con)
    requires WellFormed(f, {}, r) && Sane(f.par, f.nodes, r, u) && Almost(f.par, f.nodes, r, u, out)
    requires m in f.par && BelowWorkspace(f.par, r, m) && !Above(f.par, r, out, m)
    ensures u[m] <==> HasUrgent(f.nodes, r, u, m)
  {
    if f.nodes[m] != [] {
      assert Cached(f.par, f.nodes, r, m) && AlmostAt(f.par, f.nodes, r, u, out, m);
      if HasUrgent(f.nodes, r, u, m) { ApartOrAbove(f, r, u, out, m); }
    }
  }

  /** con_update_parents_urgency, from a container whose flag stays. */
  lemma WalkAt(f: Forest, r: Rank, u: Flags, m: Con, c: Con)
    requires WellFormed(f, {}, r) && Sane(f.par, f.nodes, r, u) && m in f.par
    requires c in f.par && Cached(f.par, f.nodes, r, c)
    ensures var v := UpdateParents(f.par, f.nodes, r, u, f.par[m], u[m]);
            && (HasUrgent(f.nodes, r, v, c) <==> HasUrgent(f.nodes, r, u, c))
            && v[c] == if m != c && Within(f.par, r, m, c) then u[m] || (u[c] && HasUrgent(f.nodes, r, u, c)) else u[c]
  {
    var v := UpdateParents(f.par, f.nodes, r, u, f.par[m], u[m]);
    forall x | x in f.par && f.nodes[x] == [] ensures v[x] == u[x] { LeavesKept(f, r, u, m, u[m], x); }
    LeavesDecide(f.nodes, r, u, v, c);
    LeavesDecide(f.nodes, r, v, u, c);
    TreePathListed(f, r, m);
    forall y | y in f.par && Visited(f.par, r, f.par[m], y)
      ensures f.nodes[y] != []
    {
      UrgentUp(f.par, f.nodes, r, u, m, y);
    }
    UpdateParentsAt(f.par, f.nodes, r, u, f.par[m], u[m], c);
    VisitedWithin(f.par, r, m, c);
    if m != c && Within(f.par, r, m, c) { VisitedFromBelow(f, {}, r, m, c); }
  }

  lemma AlmostWalked(f: Forest, r: Rank, u: Flags, out: set<Con>, m: Con)
    requires WellFormed(f, {}, r) && Sane(f.par, f.nodes, r, u) && Almost(f.par, f.nodes, r, u, out)
    requires m in f.par && !Above(f.par, r, out, m)
    ensures Almost(f.par, f.nodes, r, UpdateParents(f.par, f.nodes, r, u, f.par[m], u[m]), out - {m})
  {
    var v := UpdateParents(f.par, f.nodes, r, u, f.par[m], u[m]);
    forall x | x in f.par && f.nodes[x] == [] ensures v[x] == u[x] { LeavesKept(f, r, u, m, u[m], x); }
    forall c | c in f.par && Cached(f.par, f.nodes, r, c) ensures AlmostAt(f.par, f.nodes, r, v, out - {m}, c) {
      assert AlmostAt(f.par, f.nodes, r, u, out, c);
      WalkAt(f, r, u, m, c);
      if m != c && Within(f.par, r, m, c) {
        BelowWithin(f, r, m, c);
        OwnFlag(f, r, u, out, m);
        if u[m] { UrgentWithin(f, r, u, m, c); }
      }
      if HasApart(f.nodes, r, v, out - {m}, c) {
        ApartShrinks(f, r, u, v, out - {m}, c);
        ApartHas(f.nodes, r, u, out - {m}, c);
        ApartWithout(f, r, u, out, m, c);
      }
    }
  }

  /** con_set_urgency returns early for the focused container, which is then still left out. */
  ghost function Skipped(w: Flags, m: Con, focused: Con): set<Con>
    requires m in w
  {
    if w[m] && focused == m then {m} else {}
  }

  /** One call of con_set_urgency with the flag that m has already. */
  ghost predicate Stepped(f: Forest, r: Rank, w: Flags, x: Flags, m: Con, focused: Con)
    requires Sane(f.par, f.nodes, r, w) && m in f.par
  {
    SameOffWorkspaces(SetUrgency(f.par, f.nodes, r, w, m, w[m], focused), x)
  }

  lemma SetKeeps(f: Forest, r: Rank, w: Flags, rest: set<Con>, m: Con, focused: Con)
    requires WellFormed(f, {}, r) && Sane(f.par, f.nodes, r, w) && Almost(f.par, f.nodes, r, w, rest + {m})
    requires m in f.par && m.kind == CtCon && !Above(f.par, r, rest + {m}, m) && m !in rest
    ensures Almost(f.par, f.nodes, r, SetUrgency(f.par, f.nodes, r, w, m, w[m], focused), rest + Skipped(w, m, focused))
  {
    assert w[m := w[m]] == w;
    if !(w[m] && focused == m) {
      AlmostWalked(f, r, w, rest + {m}, m);
      assert rest + {m} - {m} == rest + Skipped(w, m, focused);
    }
  }

  lemma StepKeeps(f: Forest, r: Rank, w: Flags, x: Flags, rest: set<Con>, m: Con, focused: Con)
    requires WellFormed(f, {}, r) && Sane(f.par, f.nodes, r, w) && Almost(f.par, f.nodes, r, w, rest + {m})
    requires m in f.par && m.kind == CtCon && !Above(f.par, r, rest + {m}, m) && m !in rest
    requires Stepped(f, r, w, x, m, focused)
    ensures Sane(f.par, f.nodes, r, x) && Almost(f.par, f.nodes, r, x, rest + Skipped(w, m, focused))
  {
    SetKeeps(f, r, w, rest, m, focused);
    var t := SetUrgency(f.par, f.nodes, r, w, m, w[m], focused);
    ClearedOffWorkspaces(f, r, t, x);
    AlmostCleared(f, r, t, x, null, rest + Skipped(w, m, focused));
  }

  lemma StepAt(f: Forest, r: Rank, w: Flags, x: Flags, m: Con, focused: Con, c: Con)
    requires WellFormed(f, {}, r) && Sane(f.par, f.nodes, r, w) && Sane(f.par, f.nodes, r, x)
    requires m in f.par && m.kind == CtCon && c in f.par && Cached(f.par, f.nodes, r, c)
    requires Stepped(f, r, w, x, m, focused)
    ensures HasUrgent(f.nodes, r, x, c) <==> HasUrgent(f.nodes, r, w, c)
    ensures w[c] && HasUrgent(f.nodes, r, w, c) ==> x[c]
    ensures m == c || !Within(f.par, r, m, c) || (w[m] && focused == m) ==> x[c] == w[c]
  {
    assert w[m := w[m]] == w;
    WalkAt(f, r, w, m, c);
    BelowSameOffWorkspaces(f, r, SetUrgency(f.par, f.nodes, r, w, m, w[m], focused), x, c);
  }

  /** The flags before, after con_focus (the same, if it is not called) and after each con_set_urgency. */
  datatype Course = Course(start: Flags, focus: Flags, first: Flags, last: Flags)

  ghost predicate Trail(f: Forest, r: Rank, t: Course, a: Con, b: Con, restore: Con?, focused: Con) {
    && Sane(f.par, f.nodes, r, t.start) && Sane(f.par, f.nodes, r, t.focus)
    && Sane(f.par, f.nodes, r, t.first) && Sane(f.par, f.nodes, r, t.last) && a in f.par && b in f.par
    && Cleared(f.par, f.nodes, r, t.start, t.focus, restore)
    && Stepped(f, r, t.focus, t.first, a, focused) && Stepped(f, r, t.first, t.last, b, focused)
  }

  ghost predicate Apart(par: Parents, r: Rank, a: Con, b: Con)
    requires Ranked(par, r)
  {
    && a in par && b in par && a != b && a.kind == CtCon && b.kind == CtCon
    && !Within(par, r, a, b) && !Within(par, r, b, a)
  }

  lemma ApartNotAbove(par: Parents, r: Rank, a: Con, b: Con, out: set<Con>)
    requires Ranked(par, r) && Apart(par, r, a, b) && out <= {a, b}
    ensures !Above(par, r, out, a) && !Above(par, r, out, b)
  {
  }

  /** A container is left out at the end if its con_set_urgency returned early. */
  lemma TrailAlmost(f: Forest, r: Rank, t: Course, a: Con, b: Con, restore: Con?, focused: Con)
    requires WellFormed(f, {}, r) && Apart(f.par, r, a, b) && Trail(f, r, t, a, b, restore, focused)
    requires Almost(f.par, f.nodes, r, t.start, {b} + {a})
    ensures Almost(f.par, f.nodes, r, t.last, Skipped(t.focus, a, focused) + Skipped(t.first, b, focused))
  {
    AlmostCleared(f, r, t.start, t.focus, restore, {b} + {a});
    StepsAlmost(f, r, t.focus, t.first, t.last, a, b, focused);
  }

  lemma StepsAlmost(f: Forest, r: Rank, w: Flags, x: Flags, v: Flags, a: Con, b: Con, focused: Con)
    requires WellFormed(f, {}, r) && Apart(f.par, r, a, b) && Sane(f.par, f.nodes, r, w) && Sane(f.par, f.nodes, r, x)
    requires Stepped(f, r, w, x, a, focused) && Stepped(f, r, x, v, b, focused)
    requires Almost(f.par, f.nodes, r, w, {b} + {a})
    ensures Sane(f.par, f.nodes, r, v)
    ensures Almost(f.par, f.nodes, r, v, Skipped(w, a, focused) + Skipped(x, b, focused))
  {
    ApartNotAbove(f.par, r, a, b, {b} + {a});
    StepKeeps(f, r, w, x, {b}, a, focused);
    assert {b} + Skipped(w, a, focused) == Skipped(w, a, focused) + {b};
    ApartNotAbove(f.par, r, a, b, Skipped(w, a, focused) + {b});
    StepKeeps(f, r, x, v, Skipped(w, a, focused), b, focused);
  }

  // ---- before and after the exchange of places ---------------------------------------------------

  /** The flag of a container that has children is a cache. */
  ghost predicate Covered(f: Forest, r: Rank, c: Con)
    requires Ranked(f.par, r) && c in f.par && c in f.nodes
  {
    f.nodes[c] == [] || BelowWorkspace(f.par, r, c)
  }

  /** m and n are a and b, in one order or the other. */
  ghost predicate Pair(a: Con, b: Con, m: Con, n: Con) {
    (m == a && n == b) || (m == b && n == a)
  }

  ghost predicate BothCovered(f: Forest, r: Rank, a: Con, b: Con)
    requires Ranked(f.par, r) && SameKeys(f) && Swappable(f, r, a, b)
  {
    Covered(f, r, a) && Covered(f, r, b)
  }

  lemma NoChildren(f: Forest, r: Rank, a: Con, x: Con)
    requires WellFormed(f, {}, r) && a in f.par && a.kind == CtCon && f.nodes[a] == []
    requires x in f.par && Within(f.par, r, x, a)
    ensures x == a
  {
    if x != a {
      var y := Toward(f.par, r, x, a);
      assert Linked(f, {}, a) && ChildOf(f.par, {}, y, a) && Typed(f.par, y);
    }
  }

  lemma {:induction false} OutsideBelow(f: Forest, r: Rank, a: Con, b: Con, x: Con)
    requires Ranked(f.par, r) && Swappable(f, r, a, b) && x in f.par
    requires !Within(f.par, r, x, a) && !Within(f.par, r, x, b)
    ensures Ranked(Swapped(f, a, b).par, Lifted(f.par, r, a, b))
    ensures BelowWorkspace(Swapped(f, a, b).par, Lifted(f.par, r, a, b), x) <==> BelowWorkspace(f.par, r, x)
    decreases r.top - r.h[x]
  {
    SwapRanked(f, r, a, b);
    if f.par[x] != null {
      assert Swapped(f, a, b).par[x] == f.par[x];
      OutsideBelow(f, r, a, b, f.par[x]);
    }
  }

  /** The exchange makes no new caches. */
  lemma CachedBefore(f: Forest, r: Rank, a: Con, b: Con, c: Con)
    requires WellFormed(f, {}, r) && Swappable(f, r, a, b) && BothCovered(f, r, a, b) && c in f.par
    ensures var g, q := Swapped(f, a, b), Lifted(f.par, r, a, b);
            Ranked(g.par, q) && (Cached(g.par, g.nodes, q, c) ==> Cached(f.par, f.nodes, r, c))
  {
    SwapRanked(f, r, a, b);
    if f.nodes[c] != [] {
      if Within(f.par, r, c, a) {
        InsideBelow(f, r, a, c);
      } else if Within(f.par, r, c, b) {
        InsideBelow(f, r, b, c);
      } else {
        OutsideBelow(f, r, a, b, c);
      }
    }
  }

  lemma InsideBelow(f: Forest, r: Rank, a: Con, c: Con)
    requires WellFormed(f, {}, r) && a in f.par && a.kind == CtCon && Covered(f, r, a)
    requires c in f.par && Within(f.par, r, c, a) && f.nodes[c] != []
    ensures BelowWorkspace(f.par, r, c)
  {
    if f.nodes[a] == [] { NoChildren(f, r, a, c); } else { BelowWithin(f, r, c, a); }
  }

  /** x takes the place of y: the ancestors of one are those the other had. */
  lemma AncestorsTraded(f: Forest, r: Rank, a: Con, b: Con, x: Con, y: Con, c: Con)
    requires Ranked(f.par, r) && Swappable(f, r, a, b) && Pair(a, b, x, y)
    ensures Ranked(Swapped(f, a, b).par, Lifted(f.par, r, a, b))
    ensures (x != c && Within(Swapped(f, a, b).par, Lifted(f.par, r, a, b), x, c))
       <==> (y != c && Within(f.par, r, y, c))
  {
    var par, q := Swapped(f, a, b).par, Lifted(f.par, r, a, b);
    SwapRanked(f, r, a, b);
    ParentOutside(f.par, r, x, y);
    OutsideUnmoved(f, r, a, b, f.par[y], c);
    if Within(par, q, par[x], c) { WithinRank(par, q, par[x], c); }
    if Within(f.par, r, f.par[y], c) { WithinRank(f.par, r, f.par[y], c); }
  }

  /** The lists agree on all children that are not in `out`. */
  ghost predicate SameApart(nodes: Kids, kids: Kids, out: set<Con>) {
    && kids.Keys == nodes.Keys
    && (forall c {:trigger kids[c]} :: c in nodes ==> (nodes[c] == [] <==> kids[c] == []))
    && (forall c, x :: c in nodes && x in nodes[c] && x !in out ==> x in kids[c])
    && (forall c, x :: c in nodes && x in kids[c] && x !in out ==> x in nodes[c])
  }

  lemma {:induction false} ApartSame(nodes: Kids, r: Rank, kids: Kids, q: Rank, u: Flags, out: set<Con>, c: Con)
    requires Down(nodes, r) && Down(kids, q) && SameApart(nodes, kids, out) && c in nodes && u.Keys == nodes.Keys
    requires nodes.Keys <= r.h.Keys && nodes.Keys <= q.h.Keys
    ensures HasApart(nodes, r, u, out, c) <==> HasApart(kids, q, u, out, c)
    decreases r.h[c]
  {
    assert nodes[c] == [] <==> kids[c] == [];
    forall x | x in nodes[c] && x !in out ensures HasApart(nodes, r, u, out, x) <==> HasApart(kids, q, u, out, x) {
      ApartSame(nodes, r, kids, q, u, out, x);
    }
  }

  /** The leaves apart from the two are where they were. */
  lemma ApartTraded(f: Forest, r: Rank, u: Flags, a: Con, b: Con, c: Con)
    requires Shaped(f, {}, r) && Sane(f.par, f.nodes, r, u) && Swappable(f, r, a, b) && c in f.par
    requires Sane(Swapped(f, a, b).par, Swapped(f, a, b).nodes, Lifted(f.par, r, a, b), u)
    ensures HasApart(f.nodes, r, u, {b} + {a}, c)
       <==> HasApart(Swapped(f, a, b).nodes, Lifted(f.par, r, a, b), u, {b} + {a}, c)
  {
    TradedApart(f, r, a, b);
    ApartSame(f.nodes, r, Swapped(f, a, b).nodes, Lifted(f.par, r, a, b), u, {b} + {a}, c);
  }

  lemma TradedApart(f: Forest, r: Rank, a: Con, b: Con)
    requires Shaped(f, {}, r)
    ensures SameApart(f.nodes, Trades(f.nodes, a, b), {b} + {a})
  {
    forall c, x | c in f.nodes && x !in {b} + {a} ensures x in f.nodes[c] <==> x in Trades(f.nodes, a, b)[c] {
      assert Linked(f, {}, c);
      TradeFacts(f.nodes[c], a, b);
    }
    forall c | c in f.nodes ensures f.nodes[c] == [] <==> Trades(f.nodes, a, b)[c] == [] {
      assert |Trades(f.nodes, a, b)[c]| == |f.nodes[c]|;
    }
  }

  /** Once the places are exchanged the caches are right except for the two. */
  lemma SwapAlmost(f: Forest, r: Rank, u: Flags, a: Con, b: Con)
    requires WellFormed(f, {}, r) && Sane(f.par, f.nodes, r, u) && Consistent(f.par, f.nodes, r, u)
    requires Swappable(f, r, a, b) && BothCovered(f, r, a, b)
    requires Sane(Swapped(f, a, b).par, Swapped(f, a, b).nodes, Lifted(f.par, r, a, b), u)
    ensures Almost(Swapped(f, a, b).par, Swapped(f, a, b).nodes, Lifted(f.par, r, a, b), u, {b} + {a})
  {
    var g, q := Swapped(f, a, b), Lifted(f.par, r, a, b);
    forall c | c in g.par && Cached(g.par, g.nodes, q, c) ensures AlmostAt(g.par, g.nodes, q, u, {b} + {a}, c) {
      CachedBefore(f, r, a, b, c);
      SwapAlmostAt(f, r, u, a, b, c);
    }
  }

  lemma SwapAlmostAt(f: Forest, r: Rank, u: Flags, a: Con, b: Con, c: Con)
    requires WellFormed(f, {}, r) && Sane(f.par, f.nodes, r, u) && Swappable(f, r, a, b)
    requires c in f.par && (u[c] <==> HasUrgent(f.nodes, r, u, c))
    requires Sane(Swapped(f, a, b).par, Swapped(f, a, b).nodes, Lifted(f.par, r, a, b), u)
    ensures AlmostAt(Swapped(f, a, b).par, Swapped(f, a, b).nodes, Lifted(f.par, r, a, b), u, {b} + {a}, c)
  {
    var g, q := Swapped(f, a, b), Lifted(f.par, r, a, b);
    ApartTraded(f, r, u, a, b, c);
    if HasApart(g.nodes, q, u, {b} + {a}, c) {
      ApartHas(f.nodes, r, u, {b} + {a}, c);
      ApartHas(g.nodes, q, u, {b} + {a}, c);
    } else if u[c] {
      ApartOrAbove(f, r, u, {b} + {a}, c);
      AboveTraded(f, r, a, b, c);
    }
  }

  lemma AboveTraded(f: Forest, r: Rank, a: Con, b: Con, c: Con)
    requires Ranked(f.par, r) && Swappable(f, r, a, b) && Above(f.par, r, {b} + {a}, c)
    ensures Ranked(Swapped(f, a, b).par, Lifted(f.par, r, a, b))
    ensures Above(Swapped(f, a, b).par, Lifted(f.par, r, a, b), {b} + {a}, c)
  {
    AncestorsTraded(f, r, a, b, a, b, c);
    AncestorsTraded(f, r, a, b, b, a, c);
  }

  // ---- a container whose con_set_urgency returns early -------------------------------------------

  /** con_set_urgency of m returned early. */
  ghost predicate Early(t: Course, a: Con, b: Con, focused: Con, m: Con) {
    focused == m && ((m == a && a in t.focus && t.focus[a]) || (m == b && b in t.first && t.first[b]))
  }

  /** Some leaf under c is urgent. */
  ghost predicate Urgent(f: Forest, r: Rank, u: Flags, c: Con) {
    Sane(f.par, f.nodes, r, u) && c in f.par && HasUrgent(f.nodes, r, u, c)
  }

  /** Focusing a split container leaves it urgent. */
  lemma SplitStays(f: Forest, r: Rank, u: Flags, w: Flags, m: Con)
    requires WellFormed(f, {}, r) && Sane(f.par, f.nodes, r, u) && Sane(f.par, f.nodes, r, w)
    requires Cleared(f.par, f.nodes, r, u, w, m) && m in f.par && Cached(f.par, f.nodes, r, m)
    requires u[m] && HasUrgent(f.nodes, r, u, m)
    ensures w[m] && HasUrgent(f.nodes, r, w, m)
  {
    var y := UrgentLeafExists(f, r, u, m);
    BelowWithin(f, r, y, m);
    UrgentWithin(f, r, w, y, m);
    assert Trimmed(f.nodes, r, u, w, m);
  }

  lemma StillUrgent(f: Forest, r: Rank, u: Flags, w: Flags, con: Con?, m: Con, c: Con)
    requires WellFormed(f, {}, r) && Sane(f.par, f.nodes, r, u) && Sane(f.par, f.nodes, r, w)
    requires Cleared(f.par, f.nodes, r, u, w, con) && c in f.par && Cached(f.par, f.nodes, r, c)
    requires m in f.par && Within(f.par, r, m, c) && HasUrgent(f.nodes, r, w, m)
    ensures w[c] == u[c] && HasUrgent(f.nodes, r, w, c)
  {
    UrgentWithin(f, r, w, m, c);
    assert Trimmed(f.nodes, r, u, w, c);
  }

  lemma StepsAt(f: Forest, r: Rank, t: Course, a: Con, b: Con, focused: Con, m: Con, n: Con, c: Con)
    requires WellFormed(f, {}, r) && Sane(f.par, f.nodes, r, t.first) && Sane(f.par, f.nodes, r, t.last)
    requires Urgent(f, r, t.focus, c) && a in f.par && b in f.par && a.kind == CtCon && b.kind == CtCon
    requires Stepped(f, r, t.focus, t.first, a, focused) && Stepped(f, r, t.first, t.last, b, focused)
    requires Pair(a, b, m, n) && Early(t, a, b, focused, m) && Cached(f.par, f.nodes, r, c)
    requires t.focus[c] || !Within(f.par, r, n, c)
    ensures c in t.last && t.last[c] == t.focus[c] && Urgent(f, r, t.last, c)
  {
    StepAt(f, r, t.focus, t.first, a, focused, c);
    StepAt(f, r, t.first, t.last, b, focused, c);
  }

  /** Its ancestors keep the flags they had before the focus was restored. */
  lemma TrailAt(f: Forest, r: Rank, t: Course, a: Con, b: Con, restore: Con?, focused: Con, m: Con, n: Con, c: Con)
    requires WellFormed(f, {}, r) && Pair(a, b, m, n) && a.kind == CtCon && b.kind == CtCon
    requires Trail(f, r, t, a, b, restore, focused) && Early(t, a, b, focused, m) && Urgent(f, r, t.focus, m)
    requires c in f.par && Cached(f.par, f.nodes, r, c) && Within(f.par, r, m, c)
    requires Within(f.par, r, n, c) ==> c in t.start && t.start[c]
    ensures c in t.start && c in t.last && t.last[c] == t.start[c] && Urgent(f, r, t.last, c)
  {
    StillUrgent(f, r, t.start, t.focus, restore, m, c);
    StepsAt(f, r, t, a, b, focused, m, n, c);
  }

  /** A tree with right flags, and what is known once the places are exchanged. */
  ghost predicate Exchange(f: Forest, r: Rank, u: Flags, a: Con, b: Con, g: Forest, q: Rank) {
    && WellFormed(f, {}, r) && Sane(f.par, f.nodes, r, u) && Consistent(f.par, f.nodes, r, u)
    && Swappable(f, r, a, b) && BothCovered(f, r, a, b)
    && g == Swapped(f, a, b) && q == Lifted(f.par, r, a, b)
    && WellFormed(g, {}, q) && Sane(g.par, g.nodes, q, u) && Apart(g.par, q, a, b)
  }

  /** m is an urgent split container. */
  ghost predicate UrgentSplit(f: Forest, u: Flags, m: Con) {
    m in f.nodes && m in u && f.nodes[m] != [] && u[m]
  }

  lemma UrgentBefore(f: Forest, r: Rank, u: Flags, a: Con, b: Con, m: Con, c: Con)
    requires WellFormed(f, {}, r) && Sane(f.par, f.nodes, r, u) && Consistent(f.par, f.nodes, r, u)
    requires m in f.par && Covered(f, r, m) && UrgentSplit(f, u, m)
    requires c in f.par && Cached(f.par, f.nodes, r, c) && Within(f.par, r, m, c)
    ensures u[c]
  {
    assert Cached(f.par, f.nodes, r, m);
    UrgentWithin(f, r, u, m, c);
  }

  lemma AboveBoth(f: Forest, r: Rank, u: Flags, a: Con, b: Con, m: Con, n: Con, c: Con)
    requires WellFormed(f, {}, r) && Sane(f.par, f.nodes, r, u) && Consistent(f.par, f.nodes, r, u)
    requires Swappable(f, r, a, b) && BothCovered(f, r, a, b) && Pair(a, b, m, n) && UrgentSplit(f, u, m)
    requires Ranked(Swapped(f, a, b).par, Lifted(f.par, r, a, b))
    requires c in f.par && Cached(Swapped(f, a, b).par, Swapped(f, a, b).nodes, Lifted(f.par, r, a, b), c)
    requires n != c && Within(Swapped(f, a, b).par, Lifted(f.par, r, a, b), n, c)
    ensures u[c]
  {
    AncestorsTraded(f, r, a, b, n, m, c);
    CachedBefore(f, r, a, b, c);
    UrgentBefore(f, r, u, a, b, m, c);
  }

  /** ... so their flags are right exactly if they were set before the exchange. */
  lemma AncestorKept(f: Forest, r: Rank, t: Course, a: Con, b: Con, g: Forest, q: Rank, restore: Con?, focused: Con,
                     m: Con, n: Con, c: Con)
    requires Exchange(f, r, t.start, a, b, g, q) && Pair(a, b, m, n) && UrgentSplit(f, t.start, m)
    requires Trail(g, q, t, a, b, restore, focused) && Early(t, a, b, focused, m) && Urgent(g, q, t.focus, m)
    requires c in g.par && Cached(g.par, g.nodes, q, c) && Within(g.par, q, m, c)
    ensures c in t.start && c in t.last && t.last[c] == t.start[c] && Urgent(g, q, t.last, c)
  {
    if Within(g.par, q, n, c) { AboveBoth(f, r, t.start, a, b, m, n, c); }
    TrailAt(g, q, t, a, b, restore, focused, m, n, c);
  }

  /** Above m the flags are those of the beginning, and rightly so if they are set. */
  ghost predicate KeptAbove(g: Forest, q: Rank, u: Flags, v: Flags, m: Con) {
    && Sane(g.par, g.nodes, q, u) && Sane(g.par, g.nodes, q, v)
    && forall c {:trigger Cached(g.par, g.nodes, q, c)} ::
         c in g.par && Cached(g.par, g.nodes, q, c) && m in g.par && m != c && Within(g.par, q, m, c) ==>
           v[c] == u[c] && HasUrgent(g.nodes, q, v, c)
  }

  lemma AncestorsKept(f: Forest, r: Rank, t: Course, a: Con, b: Con, g: Forest, q: Rank, restore: Con?, focused: Con,
                      m: Con, n: Con)
    requires Exchange(f, r, t.start, a, b, g, q) && Pair(a, b, m, n) && UrgentSplit(f, t.start, m)
    requires Trail(g, q, t, a, b, restore, focused) && Early(t, a, b, focused, m) && Urgent(g, q, t.focus, m)
    ensures KeptAbove(g, q, t.start, t.last, m)
  {
    forall c {:trigger Cached(g.par, g.nodes, q, c)} |
      c in g.par && Cached(g.par, g.nodes, q, c) && m in g.par && m != c && Within(g.par, q, m, c)
      ensures t.last[c] == t.start[c] && HasUrgent(g.nodes, q, t.last, c)
    {
      AncestorKept(f, r, t, a, b, g, q, restore, focused, m, n, c);
    }
  }

  // ---- which swaps leave a wrong flag ------------------------------------------------------------

  /** m, urgent and split, takes the place of n under a parent that was not urgent. */
  ghost predicate MissedBy(f: Forest, r: Rank, u: Flags, m: Con, n: Con)
    requires Ranked(f.par, r) && n in f.par && u.Keys == f.par.Keys
  {
    && UrgentSplit(f, u, m)
    && f.par[n] != null && BelowWorkspace(f.par, r, f.par[n]) && !u[f.par[n]]
  }

  /** The new parent is below a workspace exactly if m is. */
  lemma PlaceBelow(f: Forest, r: Rank, a: Con, b: Con, m: Con, n: Con)
    requires Ranked(f.par, r) && Swappable(f, r, a, b) && Pair(a, b, m, n)
    requires f.par[n].kind != CtWorkspace
    ensures Ranked(Swapped(f, a, b).par, Lifted(f.par, r, a, b)) && f.par[n] in f.par
    ensures Swapped(f, a, b).par[m] == f.par[n] && m != f.par[n]
    ensures Within(Swapped(f, a, b).par, Lifted(f.par, r, a, b), m, f.par[n])
    ensures BelowWorkspace(Swapped(f, a, b).par, Lifted(f.par, r, a, b), m) <==> BelowWorkspace(f.par, r, f.par[n])
    ensures BelowWorkspace(Swapped(f, a, b).par, Lifted(f.par, r, a, b), f.par[n]) <==>
            BelowWorkspace(f.par, r, f.par[n])
  {
    SwapRanked(f, r, a, b);
    ParentOutside(f.par, r, m, n);
    OutsideBelow(f, r, a, b, f.par[n]);
    assert Within(Swapped(f, a, b).par, Lifted(f.par, r, a, b), f.par[n], f.par[n]);
  }

  lemma ParentSplit(f: Forest, r: Rank, m: Con)
    requires Shaped(f, {}, r) && m in f.par && f.par[m] != null && m.kind == CtCon
    ensures f.par[m] in f.par && f.nodes[f.par[m]] != []
  {
    assert Linked(f, {}, f.par[m]) && ChildOf(f.par, {}, m, f.par[m]);
  }

  lemma PlaceCached(f: Forest, r: Rank, a: Con, b: Con, g: Forest, q: Rank, m: Con, n: Con)
    requires Ranked(f.par, r) && Swappable(f, r, a, b) && Pair(a, b, m, n) && Shaped(g, {}, q)
    requires g == Swapped(f, a, b) && q == Lifted(f.par, r, a, b) && BelowWorkspace(f.par, r, f.par[n])
    ensures f.par[n] in g.par && Cached(g.par, g.nodes, q, f.par[n])
    ensures m in g.par && m != f.par[n] && Within(g.par, q, m, f.par[n])
  {
    PlaceBelow(f, r, a, b, m, n);
    ParentSplit(g, q, m);
  }

  lemma ParentMissed(g: Forest, q: Rank, u: Flags, v: Flags, m: Con, p: Con)
    requires KeptAbove(g, q, u, v, m) && p in g.par && Cached(g.par, g.nodes, q, p)
    requires m in g.par && m != p && Within(g.par, q, m, p) && !u[p]
    ensures !Consistent(g.par, g.nodes, q, v)
  {
  }

  /** Otherwise all the new ancestors of m were urgent. */
  lemma AncestorWasSet(f: Forest, r: Rank, u: Flags, a: Con, b: Con, m: Con, n: Con, c: Con)
    requires WellFormed(f, {}, r) && Sane(f.par, f.nodes, r, u) && Consistent(f.par, f.nodes, r, u)
    requires Swappable(f, r, a, b) && BothCovered(f, r, a, b) && Pair(a, b, m, n)
    requires UrgentSplit(f, u, m) && !MissedBy(f, r, u, m, n)
    requires Ranked(Swapped(f, a, b).par, Lifted(f.par, r, a, b))
    requires c in f.par && Cached(Swapped(f, a, b).par, Swapped(f, a, b).nodes, Lifted(f.par, r, a, b), c)
    requires m != c && Within(Swapped(f, a, b).par, Lifted(f.par, r, a, b), m, c)
    ensures u[c]
  {
    var p := f.par[n];
    AncestorsTraded(f, r, a, b, m, n, c);
    CachedBefore(f, r, a, b, c);
    BelowWithin(f, r, p, c);
    ParentSplit(f, r, n);
    assert Cached(f.par, f.nodes, r, p);
    UrgentWithin(f, r, u, p, c);
  }

  /** A cache with nothing left out below it is right. */
  lemma NotAboveRight(f: Forest, r: Rank, u: Flags, out: set<Con>, c: Con)
    requires WellFormed(f, {}, r) && Sane(f.par, f.nodes, r, u) && Almost(f.par, f.nodes, r, u, out)
    requires c in f.par && Cached(f.par, f.nodes, r, c) && !Above(f.par, r, out, c)
    ensures u[c] <==> HasUrgent(f.nodes, r, u, c)
  {
    assert AlmostAt(f.par, f.nodes, r, u, out, c);
    if HasUrgent(f.nodes, r, u, c) { ApartOrAbove(f, r, u, out, c); }
  }

  lemma OneNotAbove(par: Parents, r: Rank, m: Con, c: Con)
    requires Ranked(par, r) && m in par && (m == c || !Within(par, r, m, c))
    ensures !Above(par, r, {m}, c)
  {
  }

  lemma NotMissed(f: Forest, r: Rank, a: Con, b: Con, g: Forest, q: Rank, u: Flags, v: Flags, m: Con, n: Con)
    requires Exchange(f, r, u, a, b, g, q) && Pair(a, b, m, n) && UrgentSplit(f, u, m)
    requires KeptAbove(g, q, u, v, m) && Almost(g.par, g.nodes, q, v, {m}) && !MissedBy(f, r, u, m, n)
    ensures Consistent(g.par, g.nodes, q, v)
  {
    forall c | c in g.par && Cached(g.par, g.nodes, q, c) ensures v[c] <==> HasUrgent(g.nodes, q, v, c) {
      if m != c && Within(g.par, q, m, c) {
        AncestorWasSet(f, r, u, a, b, m, n, c);
      } else {
        OneNotAbove(g.par, q, m, c);
        NotAboveRight(g, q, v, {m}, c);
      }
    }
  }

  // ---- when the focus is on one of the two -------------------------------------------------------

  lemma LeafStep(f: Forest, r: Rank, w: Flags, x: Flags, m: Con, focused: Con, c: Con)
    requires WellFormed(f, {}, r) && Sane(f.par, f.nodes, r, w) && Sane(f.par, f.nodes, r, x)
    requires m in f.par && m.kind == CtCon && c in f.par && f.nodes[c] == [] && c.kind != CtWorkspace
    requires Stepped(f, r, w, x, m, focused)
    ensures x[c] == w[c]
  {
    assert w[m := w[m]] == w;
    LeavesKept(f, r, w, m, w[m], c);
  }

  /** The first con_set_urgency leaves the flag of the other container. */
  lemma OtherKept(f: Forest, r: Rank, w: Flags, x: Flags, a: Con, b: Con, focused: Con)
    requires WellFormed(f, {}, r) && Sane(f.par, f.nodes, r, w) && Sane(f.par, f.nodes, r, x) && Apart(f.par, r, a, b)
    requires Stepped(f, r, w, x, a, focused) && BelowWorkspace(f.par, r, b)
    ensures x[b] == w[b]
  {
    if f.nodes[b] == [] { LeafStep(f, r, w, x, a, focused, b); } else { StepAt(f, r, w, x, a, focused, b); }
  }

  lemma FocusedFlag(f: Forest, r: Rank, u: Flags, w: Flags, out: set<Con>, m: Con)
    requires WellFormed(f, {}, r) && Sane(f.par, f.nodes, r, u) && Sane(f.par, f.nodes, r, w)
    requires m in f.par && m.kind == CtCon && BelowWorkspace(f.par, r, m) && !Above(f.par, r, out, m)
    requires Cleared(f.par, f.nodes, r, u, w, m) && Almost(f.par, f.nodes, r, u, out)
    ensures w[m] <==> f.nodes[m] != [] && u[m]
    ensures w[m] ==> HasUrgent(f.nodes, r, w, m)
  {
    if f.nodes[m] != [] {
      OwnFlag(f, r, u, out, m);
      assert Cached(f.par, f.nodes, r, m) && Trimmed(f.nodes, r, u, w, m);
      if u[m] { SplitStays(f, r, u, w, m); }
    }
  }

  /** con_set_urgency returns early for the focused container exactly if that is split and urgent. */
  lemma EarlySplit(f: Forest, r: Rank, t: Course, a: Con, b: Con, m: Con)
    requires WellFormed(f, {}, r) && Apart(f.par, r, a, b) && Trail(f, r, t, a, b, m, m) && (m == a || m == b)
    requires Almost(f.par, f.nodes, r, t.start, {b} + {a}) && BelowWorkspace(f.par, r, m)
    ensures Early(t, a, b, m, m) <==> UrgentSplit(f, t.start, m)
    ensures Early(t, a, b, m, m) ==> Urgent(f, r, t.focus, m)
  {
    ApartNotAbove(f.par, r, a, b, {b} + {a});
    FocusedFlag(f, r, t.start, t.focus, {b} + {a}, m);
    if m == b { OtherKept(f, r, t.focus, t.first, a, b, m); }
  }

  lemma SkippedOne(t: Course, a: Con, b: Con, m: Con)
    requires a in t.focus && b in t.first && (m == a || m == b) && a != b
    ensures Skipped(t.focus, a, m) + Skipped(t.first, b, m) == if Early(t, a, b, m, m) then {m} else {}
  {
  }

  lemma OutcomeBelow(f: Forest, r: Rank, t: Course, a: Con, b: Con, g: Forest, q: Rank, m: Con, n: Con)
    requires Exchange(f, r, t.start, a, b, g, q) && Pair(a, b, m, n) && UrgentSplit(f, t.start, m)
    requires Trail(g, q, t, a, b, m, m) && Early(t, a, b, m, m) && Urgent(g, q, t.focus, m)
    requires Almost(g.par, g.nodes, q, t.last, {m})
    ensures Consistent(g.par, g.nodes, q, t.last) <==> !MissedBy(f, r, t.start, m, n)
  {
    AncestorsKept(f, r, t, a, b, g, q, m, m, m, n);
    Outcome(f, r, a, b, g, q, t.start, t.last, m, n);
  }

  lemma Outcome(f: Forest, r: Rank, a: Con, b: Con, g: Forest, q: Rank, u: Flags, v: Flags, m: Con, n: Con)
    requires Exchange(f, r, u, a, b, g, q) && Pair(a, b, m, n) && UrgentSplit(f, u, m)
    requires KeptAbove(g, q, u, v, m) && Almost(g.par, g.nodes, q, v, {m})
    ensures Consistent(g.par, g.nodes, q, v) <==> !MissedBy(f, r, u, m, n)
  {
    if MissedBy(f, r, u, m, n) {
      PlaceCached(f, r, a, b, g, q, m, n);
      ParentMissed(g, q, u, v, m, f.par[n]);
    } else {
      NotMissed(f, r, a, b, g, q, u, v, m, n);
    }
  }

  /** Away from the workspaces no cache is above m. */
  lemma OutcomeAway(f: Forest, r: Rank, v: Flags, m: Con, out: set<Con>)
    requires WellFormed(f, {}, r) && Sane(f.par, f.nodes, r, v) && Almost(f.par, f.nodes, r, v, out) && out <= {m}
    requires m in f.par && !BelowWorkspace(f.par, r, m)
    ensures Consistent(f.par, f.nodes, r, v)
  {
    forall c | c in f.par && Cached(f.par, f.nodes, r, c) ensures v[c] <==> HasUrgent(f.nodes, r, v, c) {
      if Within(f.par, r, m, c) { BelowWithin(f, r, m, c); }
      NotAboveRight(f, r, v, out, c);
    }
  }

  lemma FocusedOutcome(f: Forest, r: Rank, t: Course, a: Con, b: Con, g: Forest, q: Rank, m: Con, n: Con)
    requires Exchange(f, r, t.start, a, b, g, q) && Pair(a, b, m, n) && Trail(g, q, t, a, b, m, m)
    requires Almost(g.par, g.nodes, q, t.start, {b} + {a})
    ensures Consistent(g.par, g.nodes, q, t.last) <==> !MissedBy(f, r, t.start, m, n)
  {
    TrailAlmost(g, q, t, a, b, m, m);
    SkippedOne(t, a, b, m);
    if !BelowWorkspace(g.par, q, m) {
      OutcomeAway(g, q, t.last, m, Skipped(t.focus, a, m) + Skipped(t.first, b, m));
      if MissedBy(f, r, t.start, m, n) { PlaceBelow(f, r, a, b, m, n); }
    } else {
      EarlySplit(g, q, t, a, b, m);
      assert |g.nodes[m]| == |f.nodes[m]|;
      if Early(t, a, b, m, m) {
        OutcomeBelow(f, r, t, a, b, g, q, m, n);
      } else {
        AlmostNone(g, q, t.last);
      }
    }
  }

  lemma SkippedNone(t: Course, a: Con, b: Con, focused: Con)
    requires a in t.focus && b in t.first && focused != a && focused != b
    ensures Skipped(t.focus, a, focused) + Skipped(t.first, b, focused) == {}
  {
  }

  /** The focus is on neither of the two: both calls are carried out. */
  lemma ElsewhereOutcome(f: Forest, r: Rank, t: Course, a: Con, b: Con, restore: Con?, focused: Con)
    requires WellFormed(f, {}, r) && Apart(f.par, r, a, b) && Trail(f, r, t, a, b, restore, focused)
    requires Almost(f.par, f.nodes, r, t.start, {b} + {a}) && focused != a && focused != b
    ensures Consistent(f.par, f.nodes, r, t.last)
  {
    TrailAlmost(f, r, t, a, b, restore, focused);
    SkippedNone(t, a, b, focused);
    AlmostNone(f, r, t.last);
  }

  lemma CoveredKeepsPlaces(f: Forest, r: Rank, a: Con, b: Con)
    requires WellFormed(f, {}, r) && Swappable(f, r, a, b) && BothCovered(f, r, a, b)
    ensures KeepsPlaces(f.par, a, b)
  {
    forall x, c | x in f.par && x.kind == CtWorkspace && (c == a || c == b) && f.par[x] == c
      ensures f.par[c].kind != CtOutput
    {
      assert Linked(f, {}, c) && ChildOf(f.par, {}, x, c);
      AboveWorkspaces(f, {}, r, c);
    }
  }

  lemma Exchanging(f: Forest, r: Rank, u: Flags, a: Con, b: Con)
    requires WellFormed(f, {}, r) && Sane(f.par, f.nodes, r, u) && Consistent(f.par, f.nodes, r, u)
    requires Swappable(f, r, a, b) && BothCovered(f, r, a, b)
    ensures Exchange(f, r, u, a, b, Swapped(f, a, b), Lifted(f.par, r, a, b))
  {
    CoveredKeepsPlaces(f, r, a, b);
    SwapTyped(f, r, a, b);
    ListsGoDown(Swapped(f, a, b), {}, Lifted(f.par, r, a, b));
    StillApart(f, r, a, b);
    StillApart(f, r, b, a);
    SwapSymmetric(f, r, a, b);
  }

  /** The container to be focused again is one of the two, and the flags above its new place are missed. */
  ghost predicate Missed(f: Forest, r: Rank, u: Flags, a: Con, b: Con, restore: Con?)
    requires Ranked(f.par, r) && a in f.par && b in f.par && u.Keys == f.par.Keys
  {
    (restore == a && MissedBy(f, r, u, a, b)) || (restore == b && MissedBy(f, r, u, b, a))
  }

  /** con_swap keeps every cached flag right unless it focuses one of the two again, that one is split and
      urgent, and its new parent below the workspace was not urgent. */
  lemma SwapKeepsUrgency(f: Forest, r: Rank, t: Course, a: Con, b: Con, g: Forest, q: Rank, focused: Con)
    requires Exchange(f, r, t.start, a, b, g, q) && focused in f.par
    requires Trail(g, q, t, a, b, FocusTarget(f.par, r, a, b, focused), FocusAfter(f.par, r, a, b, focused))
    ensures Consistent(g.par, g.nodes, q, t.last)
       <==> !Missed(f, r, t.start, a, b, FocusTarget(f.par, r, a, b, focused))
  {
    SwapAlmost(f, r, t.start, a, b);
    var restore, after := FocusTarget(f.par, r, a, b, focused), FocusAfter(f.par, r, a, b, focused);
    if restore == a {
      FocusedOutcome(f, r, t, a, b, g, q, a, b);
    } else if restore == b {
      FocusedOutcome(f, r, t, a, b, g, q, b, a);
    } else {
      ElsewhereOutcome(g, q, t, a, b, restore, after);
    }
  }

  /** The same where the tree after the exchange need not be well formed. */
  ghost predicate Traced(f: Forest, r: Rank, t: Course, a: Con, b: Con, restore: Con?, focused: Con) {
    && Sane(f.par, f.nodes, r, t.start) && Sane(f.par, f.nodes, r, t.focus)
    && Sane(f.par, f.nodes, r, t.first) && Sane(f.par, f.nodes, r, t.last) && a in f.par && b in f.par
    && (WellFormed(f, {}, r) ==> Cleared(f.par, f.nodes, r, t.start, t.focus, restore))
    && Stepped(f, r, t.focus, t.first, a, focused) && Stepped(f, r, t.first, t.last, b, focused)
  }

  /** What con_swap promises of the caches v if those before it, u, were right. */
  ghost predicate UrgencyKept(f: Forest, r: Rank, u: Flags, a: Con, b: Con, g: Forest, q: Rank, v: Flags, focused: Con)
    requires Ranked(f.par, r) && SameKeys(f) && Swappable(f, r, a, b) && focused in f.par && u.Keys == f.par.Keys
  {
    && Sane(g.par, g.nodes, q, v)
    && (Consistent(g.par, g.nodes, q, v) <==> !Missed(f, r, u, a, b, FocusTarget(f.par, r, a, b, focused)))
  }

  lemma TracedKeeps(f: Forest, r: Rank, t: Course, a: Con, b: Con, g: Forest, q: Rank, focused: Con)
    requires WellFormed(f, {}, r) && Sane(f.par, f.nodes, r, t.start) && Consistent(f.par, f.nodes, r, t.start)
    requires Swappable(f, r, a, b) && BothCovered(f, r, a, b) && focused in f.par
    requires g == Swapped(f, a, b) && q == Lifted(f.par, r, a, b)
    requires Traced(g, q, t, a, b, FocusTarget(f.par, r, a, b, focused), FocusAfter(f.par, r, a, b, focused))
    ensures UrgencyKept(f, r, t.start, a, b, g, q, t.last, focused)
  {
    Exchanging(f, r, t.start, a, b);
    SwapKeepsUrgency(f, r, t, a, b, g, q, focused);
  }
}
