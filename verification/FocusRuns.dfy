/** The code of input focus run in sequence: what the separate theorems say of the walks that follow. */
module FocusRuns {
  import opened Lists
  import opened Tree
  import opened Urgency
  import opened Focus
  import opened FocusOps
  import opened NextFocused
  import opened Attach

  lemma {:induction false} FocusRunShaped(f: Forest, r: Rank, xs: seq<Con>)
    requires Shaped(f, {}, r) && Focusable(f.par, xs)
    ensures Shaped(f.(focus := FocusRun(f.par, r, f.focus, xs)), {}, r)
  {
    if xs != [] {
      var ys := xs[..|xs| - 1];
      FocusRunShaped(f, r, ys);
      FocusUpShaped(f.(focus := FocusRun(f.par, r, f.focus, ys)), r, xs[|xs| - 1]);
    }
  }

  /** Only parents and tiled children matter to the flags. */
  lemma UpheldKeeps(f: Forest, g: Forest, r: Rank, u: Flags, v: Flags)
    requires WellFormed(f, {}, r) && Sane(f.par, f.nodes, r, u)
    requires g.par == f.par && g.nodes == f.nodes && Shaped(g, {}, r) && Upheld(g, r, u, v)
    ensures KeepsFlags(f, r, u, v)
  {
    UpheldSame(f, g, r, u, v);
  }

  method FocusNext(wm: Wm, x: Con, ghost ys: seq<Con>, ghost s: set<Con>, ghost f: Forest, ghost r: Rank,
                   ghost u: Flags)
    returns (ghost v: Flags)
    requires Focusable(f.par, ys) && Focusable(f.par, ys + [x]) && WellFormed(f, {}, r)
    requires LinksAre(s, f.(focus := FocusRun(f.par, r, f.focus, ys))) && FlagsAre(s, u) && Sane(f.par, f.nodes, r, u)
    modifies wm`focused, s`focus, s`urgent
    ensures LinksAre(s, f.(focus := FocusRun(f.par, r, f.focus, ys + [x]))) && wm.focused == x
    ensures FlagsAre(s, v) && KeepsFlags(f, r, u, v)
  {
    assert x in ys + [x];
    assert (ys + [x])[..|ys|] == ys;
    FocusRunShaped(f, r, ys);
    ghost var g := f.(focus := FocusRun(f.par, r, f.focus, ys));
    v := ConFocus(wm, x, s, g, r, u);
    UpheldKeeps(f, g, r, u, v);
  }

  /** con_focus on each of xs in turn. */
  method FocusEach(wm: Wm, xs: seq<Con>, ghost s: set<Con>, ghost f: Forest, ghost r: Rank, ghost u: Flags)
    returns (ghost v: Flags)
    requires Focusable(f.par, xs) && WellFormed(f, {}, r) && LinksAre(s, f) && FlagsAre(s, u)
    requires Sane(f.par, f.nodes, r, u)
    modifies wm`focused, s`focus, s`urgent
    ensures LinksAre(s, f.(focus := FocusRun(f.par, r, f.focus, xs))) && (xs != [] ==> wm.focused == xs[|xs| - 1])
    ensures FlagsAre(s, v) && KeepsFlags(f, r, u, v)
  {
    v := u;
    for i := 0 to |xs|
      invariant Focusable(f.par, xs[..i])
      invariant LinksAre(s, f.(focus := FocusRun(f.par, r, f.focus, xs[..i]))) && (i > 0 ==> wm.focused == xs[i - 1])
      invariant FlagsAre(s, v) && KeepsFlags(f, r, u, v)
    {
      TakeOne(xs, i);
      v := FocusNext(wm, xs[i], xs[..i], s, f, r, v);
    }
    assert xs[..|xs|] == xs;
  }

  /** Every focus list of g is that of `focus`, ordered by recency after the run xs. */
  ghost predicate Recent(par: Parents, r: Rank, focus: Kids, xs: seq<Con>, g: Kids) {
    && Ranked(par, r) && Focusable(par, xs) && focus.Keys == par.Keys == g.Keys
    && forall c {:trigger ByRecency(par, r, xs, focus[c], g[c])} :: c in par ==> ByRecency(par, r, xs, focus[c], g[c])
  }

  lemma AllByRecency(par: Parents, r: Rank, focus: Kids, xs: seq<Con>, stacking: set<Con>, a: Con, g: Kids)
    requires Ranked(par, r) && Stacked(par, focus) && Focusable(par, xs) && xs != []
    requires a in par && Within(par, r, xs[|xs| - 1], a) && g == FocusRun(par, r, focus, xs)
    ensures Recent(par, r, focus, xs, g) && Down(g, r) && Descend(g, r, xs[|xs| - 1], a) == xs[|xs| - 1]
    ensures xs[|xs| - 1] in par && !Hidden(par, r, g, stacking, xs[|xs| - 1])
  {
    forall c {:trigger ByRecency(par, r, xs, focus[c], g[c])} | c in par ensures ByRecency(par, r, xs, focus[c], g[c]) {
      RecencyOrder(par, r, focus, xs, c);
    }
    FocusedIsFound(par, r, focus, xs, stacking, a);
  }

  /** con_descend_focused and con_is_hidden one after the other. */
  method FindFocused(wm: Wm, a: Con, ghost s: set<Con>, ghost f: Forest, ghost r: Rank, ghost g: Kids,
                     ghost stacking: set<Con>)
    returns (found: Con, hidden: bool)
    requires LinksAre(s, f.(focus := g)) && Ranked(f.par, r) && Down(g, r) && StackingIs(s, stacking)
    requires a in s && wm.focused in s
    ensures found == Descend(g, r, wm.focused, a) && hidden == Hidden(f.par, r, g, stacking, wm.focused)
  {
    found := ConDescendFocused(wm, a, s, g, r);
    hidden := ConIsHidden(wm.focused, s, f.par, g, r, stacking);
  }

  /** After any run in any tree: from every ancestor the walk leads to the focused container, which is not
      hidden, the lists are in order of recency, and all flags are still right. */
  method FocusAndFind(wm: Wm, xs: seq<Con>, a: Con, ghost s: set<Con>, ghost f: Forest, ghost r: Rank, ghost u: Flags,
                      ghost stacking: set<Con>)
    returns (found: Con, hidden: bool, ghost g: Kids, ghost v: Flags)
    requires Focusable(f.par, xs) && xs != [] && WellFormed(f, {}, r) && LinksAre(s, f) && FlagsAre(s, u)
    requires Sane(f.par, f.nodes, r, u) && StackingIs(s, stacking) && a in s && Within(f.par, r, xs[|xs| - 1], a)
    modifies wm`focused, s`focus, s`urgent
    ensures wm.focused == xs[|xs| - 1] && found == wm.focused && !hidden
    ensures LinksAre(s, f.(focus := g)) && Recent(f.par, r, f.focus, xs, g)
    ensures FlagsAre(s, v) && KeepsFlags(f, r, u, v)
  {
    TreeStacked(f, r);
    g := FocusRun(f.par, r, f.focus, xs);
    AllByRecency(f.par, r, f.focus, xs, stacking, a, g);
    v := FocusEach(wm, xs, s, f, r, u);
    found, hidden := FindFocused(wm, a, s, f, r, g, stacking);
  }

  /** con_next_focused, con_detach and con_descend_focused: the prediction comes true.  What is detached is
      con or, if con floats, its floating wrapper c; the focus is on it or inside it. */
  method PredictAndDetach(wm: Wm, con: Con, ghost c: Con, ghost s: set<Con>, ghost f: Forest,
                          ghost r: Rank)
    returns (next: Con, found: Con)
    requires con in s && wm.focused in s && LinksAre(s, f) && WellFormed(f, {}, r)
    requires con.parent != null && con.parent.kind != CtDockarea && (IsFloating(con) ==> con.parent.parent != null)
    requires c == (if IsFloating(con) then con.parent else con) && Within(f.par, r, wm.focused, c)
    modifies s`nodes, s`floats, s`focus
    ensures LinksAre(s, Detach(f, c))
    ensures found == next
  {
    TreeStacked(f, r);
    next := ConNextFocused(wm, con, s, f.par, f.focus, r);
    NextIsPredicted(f.par, f.focus, r, c, wm.focused);
    if IsFloating(con) {
      found := DetachAndDescend(wm, con.parent, s, f, r);
    } else {
      found := DetachAndDescend(wm, con, s, f, r);
    }
  }

  method DetachAndDescend(wm: Wm, con: Con, ghost s: set<Con>, ghost f: Forest, ghost r: Rank) returns (found: Con)
    requires con in s && LinksAre(s, f) && Ranked(f.par, r) && SameKeys(f) && f.par[con] != null
    requires Down(Without(f.par, f.focus, con), r)
    modifies s`nodes, s`floats, s`focus
    ensures LinksAre(s, Detach(f, con))
    ensures found == Descend(Without(f.par, f.focus, con), r, wm.focused, f.par[con])
  {
    var p: Con := con.parent;
    DetachFocus(f, con);
    ConDetach(con, s, f);
    found := ConDescendFocused(wm, p, s, Without(f.par, f.focus, con), r);
  }

  // ---- what the changes of the tree leave of the caches -------------------------------------------

  /** con_set_urgency on one leaf after another. */
  method MarkEach(wm: Wm, leaves: seq<Con>, marks: seq<bool>, ghost s: set<Con>, ghost f: Forest, ghost r: Rank,
                  ghost u: Flags)
    returns (ghost v: Flags)
    requires LinksAre(s, f) && FlagsAre(s, u) && WellFormed(f, {}, r) && Sane(f.par, f.nodes, r, u) && Down(f.floats, r)
    requires |leaves| == |marks| && forall x :: x in leaves ==> x in s && f.nodes[x] == []
    modifies s`urgent
    ensures LinksAre(s, f) && FlagsAre(s, v) && KeepsFlags(f, r, u, v)
  {
    v := u;
    for i := 0 to |leaves|
      invariant LinksAre(s, f) && FlagsAre(s, v) && KeepsFlags(f, r, u, v)
    {
      ghost var w := AfterSetUrgency(f, r, v, leaves[i], marks[i], wm.focused);
      SetLeafKeeps(f, r, v, leaves[i], marks[i], wm.focused);
      ConSetUrgency(wm, leaves[i], marks[i], s, f, r, v);
      v := w;
    }
  }

  /** con_detach followed by con_on_remove_child keeps the caches right. */
  lemma RemovalConsistent(f: Forest, r: Rank, u: Flags, con: Con)
    requires WellFormed(f, {}, r) && Sane(f.par, f.nodes, r, u) && con in f.par && f.par[con] != null
    requires Consistent(f.par, f.nodes, r, u) && Sane(f.par, Detach(f, con).nodes, r, u)
    ensures var less := Detach(f, con).nodes; Consistent(f.par, less, r, AfterRemoval(f.par, less, r, u, f.par[con]))
  {
    DetachThinner(f, r, con);
    RemoveChildConsistent(f, Detach(f, con).nodes, r, u, f.par[con]);
  }

  lemma DetachedLinked(f: Forest, r: Rank, con: Con)
    requires WellFormed(f, {}, r) && con in f.par && f.par[con] != null
    ensures Shaped(Detach(f, con), {con}, r) && Linked(Detach(f, con), {con}, f.par[con])
  {
    DetachWellFormed(f, {}, r, con);
    assert {} + {con} == {con};
  }

  /** A parent without focus list has no tiled child left either. */
  lemma DetachedDown(f: Forest, r: Rank, con: Con)
    requires WellFormed(f, {}, r) && con in f.par && f.par[con] != null
    ensures Down(Detach(f, con).nodes, r)
    ensures Detach(f, con).focus[f.par[con]] == [] ==> Detach(f, con).nodes[f.par[con]] == []
  {
    var g, p := Detach(f, con), f.par[con];
    DetachedLinked(f, r, con);
    ListsGoDown(g, {con}, r);
    if g.nodes[p] != [] {
      assert g.nodes[p][0] in g.nodes[p];
      assert ChildOf(g.par, {con}, g.nodes[p][0], p);
    }
  }

  /** con_detach and con_on_remove_child; an emptied parent has the flag of a leaf until it is closed. */
  method RemoveChild(con: Con, visible: bool, ghost s: set<Con>, ghost f: Forest, ghost r: Rank, ghost u: Flags)
    returns (close: bool, ghost v: Flags)
    requires con in s && LinksAre(s, f) && FlagsAre(s, u) && WellFormed(f, {}, r) && Sane(f.par, f.nodes, r, u)
    requires f.par[con] != null
    modifies s`nodes, s`floats, s`focus, s`urgent
    ensures LinksAre(s, Detach(f, con)) && FlagsAre(s, v) && Sane(f.par, Detach(f, con).nodes, r, v)
    ensures close ==> Detach(f, con).nodes[f.par[con]] == []
    ensures Consistent(f.par, f.nodes, r, u) ==> Consistent(f.par, Detach(f, con).nodes, r, v)
  {
    var p: Con := con.parent;
    ghost var g := Detach(f, con);
    DetachedDown(f, r, con);
    if Consistent(f.par, f.nodes, r, u) { RemovalConsistent(f, r, u, con); }
    ConDetach(con, s, f);
    assert FlagsAre(s, u);
    close := ConOnRemoveChild(p, visible, s, g, r, u);
    v := AfterRemoval(g.par, g.nodes, r, u, p);
  }
}
