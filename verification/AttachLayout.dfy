/** _con_attach on a workspace for which the configuration has a layout: the window goes into a new split container. */
module AttachLayout {
  import opened Lists
  import opened Tree
  import opened Attach
  import opened Percent

  /** A window, attached directly to a workspace, takes its layout. */
  predicate TakesLayout(con: Con, parent: Con, layout: Layout)
    reads con
  {
    && con.window != null && con.kind != CtWorkspace && con.kind != CtFloatingCon
    && parent.kind == CtWorkspace && layout != LDefault
  }

  /** What con_new makes. */
  ghost predicate Fresh(split: Con, f: Forest) {
    && split.kind == CtCon && SameKeys(f) && split in f.par
    && f.nodes[split] == [] && f.floats[split] == [] && f.focus[split] == []
  }

  /** The links afterwards: the window is the only child of the split container, which is at place i. */
  ghost function Wrapped(f: Forest, con: Con, ws: Con, split: Con, i: nat): (g: Forest)
    requires SameKeys(f) && con in f.par && ws in f.par && Fresh(split, f) && split != ws && i <= |f.nodes[ws]|
    ensures SameKeys(g) && g.par.Keys == f.par.Keys
  {
    AttachAt(AttachAt(f, split, ws, i), con, split, 0)
  }

  lemma {:induction false} WithinAnyRank(par: map<Con, Con?>, r: Rank, q: Rank, x: Con, a: Con)
    requires Ranked(par, r) && Ranked(par, q) && x in par
    ensures Within(par, r, x, a) <==> Within(par, q, x, a)
    decreases r.top - r.h[x]
  {
    if par[x] != null { WithinAnyRank(par, r, q, par[x], a); }
  }

  /** The tree stays a tree, with nothing but the two containers attached. */
  lemma WrappedWellFormed(f: Forest, loose: set<Con>, r: Rank, con: Con, ws: Con, split: Con, i: nat)
    returns (q: Rank)
    requires WellFormed(f, loose, r) && con in f.par && ws in f.par && Fresh(split, f) && con != split
    requires con in loose && split in loose && f.par[split] == ws && ws.kind == CtWorkspace && con.kind == CtCon
    requires f.par[con] != null && f.par[con].kind != CtOutput && !Within(f.par, r, ws, con) && i <= |f.nodes[ws]|
    ensures split != ws
    ensures WellFormed(Wrapped(f, con, ws, split, i), loose - {split} - {con}, q)
  {
    var g := AttachAt(f, split, ws, i);
    q := Raised(f.par, r, split);
    if Within(f.par, r, ws, split) { WithinRank(f.par, r, ws, split); }
    assert g.par == f.par;
    AttachWellFormed(f, loose, r, split, ws, i);
    WithinAnyRank(f.par, r, q, split, con);
    assert Typed(f.par, con);
    AttachWellFormed(g, loose - {split}, q, con, split, 0);
    q := Raised(g.par, q, con);
  }

  method SetLayout(con: Con, layout: Layout, ghost ws: Con, ghost s: set<Con>, ghost f: Forest, ghost ps: seq<real>)
    requires LinksAre(s, f) && Attachable(con, ws, null, false) && SharesAre(ws.nodes, ps)
    modifies con`layout
    ensures con.layout == layout
    ensures LinksAre(s, f) && Attachable(con, ws, null, false) && SharesAre(ws.nodes, ps)
  {
    con.layout := layout;
  }

  /** The shares of the children once one without a share stands at place i. */
  function WithGap(ps: seq<real>, i: nat): seq<real>
    requires i <= |ps|
  {
    ps[..i] + [0.0] + ps[i..]
  }

  lemma GapShares(l: seq<Con>, ps: seq<real>, x: Con, i: nat)
    requires SharesAre(l, ps) && i <= |l| && x.percent == 0.0
    ensures SharesAre(InsertAt(l, i, x), WithGap(ps, i))
  {
  }

  method AttachSplit(ws: Con, split: Con, ghost s: set<Con>, ghost f: Forest, ghost ps: seq<real>)
    returns (ghost i: nat)
    requires ws in s && split in s && LinksAre(s, f) && Fresh(split, f) && split.percent == 0.0
    requires ws.kind == CtWorkspace && split !in ws.nodes && Attachable(split, ws, null, false)
    requires SharesAre(ws.nodes, ps)
    modifies split`parent, ws`nodes, ws`floats, ws`focus
    ensures i == TilingPlace(f.nodes[ws], FirstTiling(f.focus[ws]), CtWorkspace)
    ensures LinksAre(s, AttachAt(f, split, ws, i)) && ws.nodes == InsertAt(f.nodes[ws], i, split)
    ensures NoDup(ws.nodes) && i <= |ps| && SharesAre(ws.nodes, WithGap(ps, i))
    ensures forall c :: c in ws.nodes ==> c == split || c in f.nodes[ws]
  {
    i := ConAttach(split, ws, null, false, s, f);
    GapShares(f.nodes[ws], ps, split, i);
    InsertAtFacts(f.nodes[ws], i, split);
  }

  method FixShares(ws: Con, split: Con, ghost l: seq<Con>, ghost ps: seq<real>, ghost s: set<Con>, ghost g: Forest)
    requires LinksAre(s, g) && NoDup(ws.nodes) && SharesAre(ws.nodes, ps)
    requires forall c :: c in ws.nodes ==> c == split || c in l
    modifies split`percent, (set c | c in l)`percent
    ensures LinksAre(s, g) && SharesAre(ws.nodes, Fixed(ps))
  {
    ConFixPercent(ws, ps);
  }

  method AttachAndFix(ws: Con, split: Con, ghost s: set<Con>, ghost f: Forest, ghost ps: seq<real>)
    returns (ghost i: nat)
    requires ws in s && split in s && LinksAre(s, f) && Fresh(split, f) && split.percent == 0.0
    requires ws.kind == CtWorkspace && split !in ws.nodes && Attachable(split, ws, null, false)
    requires SharesAre(ws.nodes, ps)
    modifies split`parent, split`percent, ws`nodes, ws`floats, ws`focus, (set c | c in ws.nodes)`percent
    ensures i == TilingPlace(f.nodes[ws], FirstTiling(f.focus[ws]), CtWorkspace)
    ensures LinksAre(s, AttachAt(f, split, ws, i))
    ensures i <= |ps| && SharesAre(ws.nodes, Fixed(WithGap(ps, i)))
  {
    ghost var l := ws.nodes;
    i := AttachSplit(ws, split, s, f, ps);
    FixShares(ws, split, l, WithGap(ps, i), s, AttachAt(f, split, ws, i));
  }

  /** workspace_attach_to for a workspace with a layout. */
  method WorkspaceAttachTo(ws: Con, split: Con, layout: Layout, ghost s: set<Con>, ghost f: Forest, ghost ps: seq<real>)
    returns (ghost i: nat)
    requires ws in s && split in s && LinksAre(s, f) && Fresh(split, f) && split.percent == 0.0
    requires ws.kind == CtWorkspace && split !in ws.nodes && Attachable(split, ws, null, false)
    requires SharesAre(ws.nodes, ps)
    modifies split`parent, split`layout, split`percent, ws`nodes, ws`floats, ws`focus, (set c | c in ws.nodes)`percent
    ensures i == TilingPlace(f.nodes[ws], FirstTiling(f.focus[ws]), CtWorkspace) && split.layout == layout
    ensures LinksAre(s, AttachAt(f, split, ws, i))
    ensures i <= |ps| && SharesAre(ws.nodes, Fixed(WithGap(ps, i)))
  {
    SetLayout(split, layout, ws, s, f, ps);
    i := AttachAndFix(ws, split, s, f, ps);
  }

  /** The window goes into the split container instead. */
  method AttachInside(con: Con, ws: Con, split: Con, ghost i: nat, ghost qs: seq<real>, ghost s: set<Con>,
                      ghost f: Forest)
    requires con in s && ws in s && f.par.Keys == s && Fresh(split, f) && split != ws && i <= |f.nodes[ws]|
    requires LinksAre(s, AttachAt(f, split, ws, i)) && SharesAre(ws.nodes, qs)
    modifies con`parent, split`nodes, split`floats, split`focus
    ensures LinksAre(s, Wrapped(f, con, ws, split, i)) && SharesAre(ws.nodes, qs) && con.parent == split
  {
    Link(con, split, 0, s, AttachAt(f, split, ws, i));
  }

  /** The two attachments of a window to a workspace with a layout. */
  method AttachBoth(con: Con, ws: Con, layout: Layout, split: Con, ghost s: set<Con>, ghost f: Forest,
                    ghost ps: seq<real>)
    returns (ghost i: nat)
    requires con in s && ws in s && split in s && LinksAre(s, f) && ws.kind == CtWorkspace
    requires Fresh(split, f) && split.percent == 0.0 && split !in ws.nodes && split != con
    requires Attachable(split, ws, null, false) && SharesAre(ws.nodes, ps)
    modifies con`parent, ws`nodes, ws`floats, ws`focus, (set c | c in ws.nodes)`percent
    modifies split`parent, split`layout, split`percent, split`nodes, split`floats, split`focus
    ensures i <= |f.nodes[ws]| && i <= |ps| && con.parent == split && split.layout == layout
    ensures LinksAre(s, Wrapped(f, con, ws, split, i)) && SharesAre(ws.nodes, Fixed(WithGap(ps, i)))
    ensures i == TilingPlace(f.nodes[ws], FirstTiling(f.focus[ws]), CtWorkspace)
  {
    i := WorkspaceAttachTo(ws, split, layout, s, f, ps);
    AttachInside(con, ws, split, i, Fixed(WithGap(ps, i)), s, f);
  }

  /** _con_attach, where workspaces have this layout. */
  method ConAttachLayout(con: Con, parent: Con, previous: Con?, ignoreFocus: bool, layout: Layout, split: Con,
                         ghost s: set<Con>, ghost f: Forest, ghost ps: seq<real>)
    returns (ghost i: nat)
    requires con in s && parent in s && split in s && LinksAre(s, f) && Attachable(con, parent, previous, ignoreFocus)
    requires TakesLayout(con, parent, layout) ==>
               && Fresh(split, f) && split.percent == 0.0 && split !in parent.nodes && split != con
               && Attachable(split, parent, null, false) && SharesAre(parent.nodes, ps)
    modifies con`parent, parent`nodes, parent`floats, parent`focus
    modifies split`parent, split`layout, split`percent, split`nodes, split`floats, split`focus
    modifies (set c | c in parent.nodes)`percent
    ensures i <= |f.nodes[parent]|
    ensures con.kind == CtCon && parent.kind == CtWorkspace && con.window != null ==>
              con.parent == if layout == LDefault then parent else split
    ensures old(TakesLayout(con, parent, layout)) ==>
              && LinksAre(s, Wrapped(f, con, parent, split, i)) && split.layout == layout
              && i == TilingPlace(f.nodes[parent], FirstTiling(f.focus[parent]), CtWorkspace) && i <= |ps|
              && SharesAre(parent.nodes, Fixed(WithGap(ps, i)))
    ensures !old(TakesLayout(con, parent, layout)) ==>
              && LinksAre(s, AttachAt(f, con, parent, i))
              && i == old(Chosen(parent.nodes, parent.focus, con, parent, previous, ignoreFocus))
  {
    if TakesLayout(con, parent, layout) {
      i := AttachBoth(con, parent, layout, split, s, f, ps);
    } else {
      i := ConAttach(con, parent, previous, ignoreFocus, s, f);
    }
  }
}
