/** con_focus and the walks over the focus lists, as the code performs them. */
module FocusOps {
  import opened Lists
  import opened Tree
  import opened Urgency
  import opened Focus

  // ---- workspace flags do not reach the caches --------------------------------------------------

  lemma {:induction false} BelowIgnoresWorkspaces(f: Forest, r: Rank, u: Flags, v: Flags, c: Con)
    requires WellFormed(f, {}, r) && Sane(f.par, f.nodes, r, u) && SameOffWorkspaces(u, v)
    requires c in f.par && BelowWorkspace(f.par, r, c) && HasUrgent(f.nodes, r, u, c)
    ensures HasUrgent(f.nodes, r, v, c)
    decreases r.h[c]
  {
    if f.nodes[c] != [] {
      var x :| x in f.nodes[c] && HasUrgent(f.nodes, r, u, x);
      ChildBelow(f, r, c, x);
      BelowIgnoresWorkspaces(f, r, u, v, x);
    }
  }

  lemma BelowSameOffWorkspaces(f: Forest, r: Rank, u: Flags, v: Flags, c: Con)
    requires WellFormed(f, {}, r) && Sane(f.par, f.nodes, r, u) && SameOffWorkspaces(u, v)
    requires c in f.par && BelowWorkspace(f.par, r, c)
    ensures HasUrgent(f.nodes, r, u, c) <==> HasUrgent(f.nodes, r, v, c)
  {
    if HasUrgent(f.nodes, r, u, c) { BelowIgnoresWorkspaces(f, r, u, v, c); }
    if HasUrgent(f.nodes, r, v, c) { BelowIgnoresWorkspaces(f, r, v, u, c); }
  }

  /** The upward pass touches no leaf. */
  lemma LeavesKept(f: Forest, r: Rank, u: Flags, con: Con, value: bool, x: Con)
    requires WellFormed(f, {}, r) && Sane(f.par, f.nodes, r, u) && con in f.par
    requires x in f.par && f.nodes[x] == []
    ensures UpdateParents(f.par, f.nodes, r, u, f.par[con], value)[x] == u[x]
  {
    TreePathListed(f, r, con);
    forall y | y in f.par && Visited(f.par, r, f.par[con], y) ensures f.nodes[y] != [] {
      UrgentUp(f.par, f.nodes, r, u, con, y);
    }
    UpdateParentsAt(f.par, f.nodes, r, u, f.par[con], value, x);
  }

  lemma MovedShaped(f: Forest, r: Rank, x: Con) returns (g: Forest)
    requires Shaped(f, {}, r) && x in f.par && f.par[x] != null
    ensures g == f.(focus := f.focus[f.par[x] := ToFront(f.focus[f.par[x]], x)])
    ensures Shaped(g, {}, r)
  {
    var p: Con := f.par[x];
    g := f.(focus := f.focus[p := ToFront(f.focus[p], x)]);
    forall c {:trigger Linked(g, {}, c)} | c in g.par ensures Linked(g, {}, c) {
      assert Linked(f, {}, c);
      if c == p {
        assert ChildOf(f.par, {}, x, p);
        ToFrontFacts(f.focus[p], x);
      }
    }
  }

  lemma {:induction false} FocusUpShaped(f: Forest, r: Rank, x: Con)
    requires Shaped(f, {}, r) && x in f.par && f.par[x] != null
    ensures Shaped(f.(focus := FocusUp(f.par, r, f.focus, x)), {}, r)
    decreases r.top - r.h[x]
  {
    var p: Con := f.par[x];
    var g := MovedShaped(f, r, x);
    if f.par[p] != null { FocusUpShaped(g, r, p); }
  }

  // ---- con_focus -------------------------------------------------------------------------------

  /** No leaf under c becomes urgent, and its flag is kept while the leaves keep it, or reset unless one of them is
      urgent. */
  ghost predicate Trimmed(nodes: Kids, r: Rank, u: Flags, v: Flags, c: Con)
    requires Down(nodes, r) && c in nodes && u.Keys == nodes.Keys == v.Keys && nodes.Keys <= r.h.Keys
  {
    && (HasUrgent(nodes, r, v, c) ==> HasUrgent(nodes, r, u, c))
    && ((v[c] == u[c] && (HasUrgent(nodes, r, u, c) ==> HasUrgent(nodes, r, v, c)))
        || (v[c] <==> u[c] && HasUrgent(nodes, r, v, c)))
  }

  /** Caches follow their leaves, and of the leaves (workspaces aside) at most con changes, to false. */
  ghost predicate Cleared(par: Parents, nodes: Kids, r: Rank, u: Flags, v: Flags, con: Con?)
    requires Sane(par, nodes, r, u) && Sane(par, nodes, r, v)
  {
    && (forall c {:trigger Cached(par, nodes, r, c)} :: c in par && Cached(par, nodes, r, c) ==>
        Trimmed(nodes, r, u, v, c))
    && (forall c {:trigger v[c]} :: c in par && nodes[c] == [] && c.kind != CtWorkspace ==>
        (v[c] <==> u[c] && c != con))
  }

  /** So right caches stay right. */
  lemma ClearedConsistent(par: Parents, nodes: Kids, r: Rank, u: Flags, v: Flags, con: Con?)
    requires Sane(par, nodes, r, u) && Sane(par, nodes, r, v) && Cleared(par, nodes, r, u, v, con)
    requires Consistent(par, nodes, r, u)
    ensures Consistent(par, nodes, r, v)
  {
  }

  lemma ClearedThen(par: Parents, nodes: Kids, r: Rank, u: Flags, w: Flags, v: Flags, c1: Con?, c2: Con?, con: Con?)
    requires Sane(par, nodes, r, u) && Sane(par, nodes, r, w) && Sane(par, nodes, r, v)
    requires Cleared(par, nodes, r, u, w, c1) && Cleared(par, nodes, r, w, v, c2)
    requires (c1 == con || c2 == con) && (c1 == con || c1 == null) && (c2 == con || c2 == null)
    ensures Cleared(par, nodes, r, u, v, con)
  {
    forall c {:trigger Cached(par, nodes, r, c)} | c in par && Cached(par, nodes, r, c)
      ensures Trimmed(nodes, r, u, v, c)
    {
    }
  }

  lemma ClearedOffWorkspaces(f: Forest, r: Rank, u: Flags, v: Flags)
    requires WellFormed(f, {}, r) && Sane(f.par, f.nodes, r, u) && SameOffWorkspaces(u, v)
    ensures Sane(f.par, f.nodes, r, v) && Cleared(f.par, f.nodes, r, u, v, null)
  {
    forall c | c in f.par && Cached(f.par, f.nodes, r, c) ensures Trimmed(f.nodes, r, u, v, c) {
      BelowSameOffWorkspaces(f, r, u, v, c);
    }
  }

  /** What con_focus(con) leaves of the flags of a tree. */
  ghost predicate Settled(f: Forest, r: Rank, u: Flags, v: Flags, con: Con?)
    requires Sane(f.par, f.nodes, r, u)
  {
    Sane(f.par, f.nodes, r, v) && (WellFormed(f, {}, r) ==> Cleared(f.par, f.nodes, r, u, v, con))
  }

  /** The flag of a leaf is reset, and the reset is propagated upwards. */
  lemma ResetTrims(f: Forest, r: Rank, u: Flags, con: Con, c: Con)
    requires WellFormed(f, {}, r) && Sane(f.par, f.nodes, r, u) && con in f.par && f.nodes[con] == []
    requires c in f.par && Cached(f.par, f.nodes, r, c)
    ensures Trimmed(f.nodes, r, u, UpdateParents(f.par, f.nodes, r, u[con := false], f.par[con], false), c)
  {
    var w := u[con := false];
    var v := UpdateParents(f.par, f.nodes, r, w, f.par[con], false);
    forall x | x in f.par && f.nodes[x] == [] ensures v[x] == w[x] { LeavesKept(f, r, w, con, false, x); }
    LeavesDecide(f.nodes, r, w, v, c);
    LeavesDecide(f.nodes, r, v, w, c);
    LeavesDecide(f.nodes, r, w, u, c);
    ResetWalk(f, r, w, con, c);
    if Within(f.par, r, con, c) { VisitedFromBelow(f, {}, r, con, c); } else { ElsewhereSame(f, r, u, con, false, c); }
  }

  lemma ResetWalk(f: Forest, r: Rank, w: Flags, con: Con, c: Con)
    requires WellFormed(f, {}, r) && Sane(f.par, f.nodes, r, w) && con in f.par && c in f.par
    ensures UpdateParents(f.par, f.nodes, r, w, f.par[con], false)[c]
         == (w[c] && (Visited(f.par, r, f.par[con], c) ==> HasUrgent(f.nodes, r, w, c)))
  {
    TreePathListed(f, r, con);
    forall y | y in f.par && Visited(f.par, r, f.par[con], y) ensures f.nodes[y] != [] {
      UrgentUp(f.par, f.nodes, r, w, con, y);
    }
    UpdateParentsAt(f.par, f.nodes, r, w, f.par[con], false, c);
  }

  lemma ResetClears(f: Forest, r: Rank, u: Flags, con: Con)
    requires WellFormed(f, {}, r) && Sane(f.par, f.nodes, r, u) && con in f.par && f.nodes[con] == []
    ensures Cleared(f.par, f.nodes, r, u, UpdateParents(f.par, f.nodes, r, u[con := false], f.par[con], false), con)
  {
    forall c | c in f.par && Cached(f.par, f.nodes, r, c)
      ensures Trimmed(f.nodes, r, u, UpdateParents(f.par, f.nodes, r, u[con := false], f.par[con], false), c)
    {
      ResetTrims(f, r, u, con, c);
    }
    forall c | c in f.par && f.nodes[c] == []
      ensures UpdateParents(f.par, f.nodes, r, u[con := false], f.par[con], false)[c] == u[con := false][c]
    {
      LeavesKept(f, r, u[con := false], con, false, c);
    }
  }

  lemma FirstReset(f: Forest, r: Rank, u: Flags, con: Con, focused: Con, w: Flags)
    requires WellFormed(f, {}, r) && Sane(f.par, f.nodes, r, u) && con in f.par && f.nodes[con] == []
    requires SameOffWorkspaces(SetUrgency(f.par, f.nodes, r, u, con, false, focused), w)
    ensures Sane(f.par, f.nodes, r, w) && Cleared(f.par, f.nodes, r, u, w, con)
  {
    var v := SetUrgency(f.par, f.nodes, r, u, con, false, focused);
    ClearedOffWorkspaces(f, r, v, w);
    if con.kind == CtWorkspace {
      ClearedOffWorkspaces(f, r, u, w);
    } else {
      ResetClears(f, r, u, con);
      ClearedThen(f.par, f.nodes, r, u, v, w, con, null, con);
    }
  }

  lemma SecondReset(f: Forest, r: Rank, u: Flags, con: Con, w: Flags)
    requires WellFormed(f, {}, r) && Sane(f.par, f.nodes, r, u) && con in f.par && f.nodes[con] == []
    requires Sane(f.par, f.nodes, r, w) && Cleared(f.par, f.nodes, r, u, w, con) && con.kind != CtWorkspace
    ensures Cleared(f.par, f.nodes, r, u, UpdateParents(f.par, f.nodes, r, w, f.par[con], w[con]), con)
  {
    assert w[con := false] == w;
    ResetClears(f, r, w, con);
    ClearedThen(f.par, f.nodes, r, u, w, UpdateParents(f.par, f.nodes, r, w, f.par[con], false), con, con, con);
  }

  lemma BothResets(f: Forest, r: Rank, u: Flags, con: Con, focused: Con, w: Flags)
    requires Sane(f.par, f.nodes, r, u) && con in f.par && f.nodes[con] == []
    requires SameOffWorkspaces(SetUrgency(f.par, f.nodes, r, u, con, false, focused), w)
    ensures Sane(f.par, f.nodes, r, w)
    ensures Settled(f, r, u, if con.kind == CtWorkspace then w
                    else UpdateParents(f.par, f.nodes, r, w, f.par[con], w[con]), con)
  {
    if WellFormed(f, {}, r) {
      FirstReset(f, r, u, con, focused, w);
      if con.kind != CtWorkspace { SecondReset(f, r, u, con, w); }
    }
  }

  /** con_set_urgency on a leaf keeps every cache right, the flag of its workspace included in the change. */
  lemma SetLeafConsistent(f: Forest, r: Rank, u: Flags, con: Con, value: bool, focused: Con)
    requires WellFormed(f, {}, r) && Sane(f.par, f.nodes, r, u) && Down(f.floats, r) && Consistent(f.par, f.nodes, r, u)
    requires con in f.par && f.nodes[con] == []
    ensures Consistent(f.par, f.nodes, r, AfterSetUrgency(f, r, u, con, value, focused))
  {
    var t, v := SetUrgency(f.par, f.nodes, r, u, con, value, focused), AfterSetUrgency(f, r, u, con, value, focused);
    if con.kind == CtWorkspace {
      ClearedOffWorkspaces(f, r, u, v);
      ClearedConsistent(f.par, f.nodes, r, u, v, null);
    } else {
      LeafChangeConsistent(f, r, u, con, value);
      ClearedOffWorkspaces(f, r, t, v);
      ClearedConsistent(f.par, f.nodes, r, t, v, null);
    }
  }

  /** Flags of workspaces do not matter to this. */
  lemma SettledOffWorkspaces(f: Forest, r: Rank, u: Flags, x: Flags, v: Flags, con: Con)
    requires Sane(f.par, f.nodes, r, u) && Settled(f, r, u, x, con) && SameOffWorkspaces(x, v)
    ensures Settled(f, r, u, v, con)
  {
    if WellFormed(f, {}, r) {
      ClearedOffWorkspaces(f, r, x, v);
      ClearedThen(f.par, f.nodes, r, u, x, v, con, null, con);
    }
  }

  // ---- the flags of workspaces -----------------------------------------------------------------

  /** A workspace carries the flag exactly if some urgent leaf is on it, floating or not. */
  ghost predicate FlagRight(f: Forest, r: Rank, u: Flags, ws: Con)
    requires Sane(f.par, f.nodes, r, u) && ws in f.par
  {
    u[ws] <==> exists x :: x in f.par && x != ws && Within(f.par, r, x, ws) && f.nodes[x] == [] && u[x]
  }

  ghost predicate WorkspacesRight(f: Forest, r: Rank, u: Flags)
    requires Sane(f.par, f.nodes, r, u)
  {
    forall ws :: ws in f.par && ws.kind == CtWorkspace ==> FlagRight(f, r, u, ws)
  }

  lemma {:induction false} OnWorkspace(f: Forest, r: Rank, x: Con, ws: Con)
    requires WellFormed(f, {}, r) && ws.kind == CtWorkspace && x in f.par && Within(f.par, r, x, ws)
    ensures WorkspaceOf(f.par, r, x) == ws
    decreases r.top - r.h[x]
  {
    if x != ws {
      InsideBelowWorkspace(f, r, x, ws);
      OnWorkspace(f, r, f.par[x], ws);
    }
  }

  /** The flag of the workspace and of the leaves on it is the same. */
  ghost predicate SameOn(f: Forest, r: Rank, u: Flags, v: Flags, ws: Con)
    requires Sane(f.par, f.nodes, r, u) && v.Keys == u.Keys && ws in f.par
  {
    v[ws] == u[ws] &&
    forall x :: x in f.par && x != ws && Within(f.par, r, x, ws) && f.nodes[x] == [] ==> v[x] == u[x]
  }

  /** workspace_update_urgent_flag makes the flag right, if the caches are. */
  lemma RefreshedRight(f: Forest, r: Rank, u: Flags, con: Con)
    requires WellFormed(f, {}, r) && Sane(f.par, f.nodes, r, u) && Down(f.floats, r) && Consistent(f.par, f.nodes, r, u)
    requires con in f.par && WorkspaceOf(f.par, r, con) != null
    ensures FlagRight(f, r, WorkspaceRefreshed(f, r, u, con), WorkspaceOf(f.par, r, con))
  {
    var ws := WorkspaceOf(f.par, r, con);
    WorkspaceFlag(f, r, u, ws);
  }

  /** ... and leaves the other workspaces alone. */
  lemma RefreshedOthers(f: Forest, r: Rank, u: Flags, con: Con, ws: Con)
    requires WellFormed(f, {}, r) && Sane(f.par, f.nodes, r, u) && Down(f.floats, r) && con in f.par
    requires ws in f.par && ws.kind == CtWorkspace && ws != WorkspaceOf(f.par, r, con)
    ensures SameOn(f, r, u, WorkspaceRefreshed(f, r, u, con), ws)
  {
    forall x | x in f.par && x != ws && Within(f.par, r, x, ws) ensures x.kind != CtWorkspace {
      InsideBelowWorkspace(f, r, x, ws);
    }
  }

  lemma {:induction false} WalkSparesWorkspaces(par: Parents, nodes: Kids, r: Rank, u: Flags, start: Con?, value: bool,
                                                ws: Con)
    requires Sane(par, nodes, r, u) && (start != null ==> start in par) && ws in par && ws.kind == CtWorkspace
    ensures UpdateParents(par, nodes, r, u, start, value)[ws] == u[ws]
    decreases if start == null then 0 else r.top - r.h[start] + 1
  {
    if start != null && start.kind != CtWorkspace && start.kind != CtDockarea {
      WalkSparesWorkspaces(par, nodes, r, UpdateOne(nodes, r, u, start, value), par[start], value, ws);
    }
  }

  /** Changing a leaf, and the upward pass, matter to no workspace but that of the leaf. */
  lemma LeafChangeOthers(f: Forest, r: Rank, u: Flags, con: Con, value: bool, ws: Con)
    requires WellFormed(f, {}, r) && Sane(f.par, f.nodes, r, u) && con in f.par && f.nodes[con] == []
    requires ws in f.par && ws.kind == CtWorkspace && ws != con
    requires u[con] == value || ws != WorkspaceOf(f.par, r, con)
    ensures SameOn(f, r, u, UpdateParents(f.par, f.nodes, r, u[con := value], f.par[con], value), ws)
  {
    WalkSparesWorkspaces(f.par, f.nodes, r, u[con := value], f.par[con], value, ws);
    forall x | x in f.par && x != ws && Within(f.par, r, x, ws) && f.nodes[x] == []
      ensures UpdateParents(f.par, f.nodes, r, u[con := value], f.par[con], value)[x] == u[x]
    {
      OnWorkspace(f, r, x, ws);
      LeavesKept(f, r, u[con := value], con, value, x);
    }
  }

  lemma SameOnRight(f: Forest, r: Rank, u: Flags, v: Flags, ws: Con)
    requires Sane(f.par, f.nodes, r, u) && v.Keys == u.Keys && ws in f.par && SameOn(f, r, u, v, ws)
    ensures FlagRight(f, r, u, ws) ==> FlagRight(f, r, v, ws)
  {
  }

  lemma SameOnThen(f: Forest, r: Rank, u: Flags, w: Flags, v: Flags, ws: Con)
    requires Sane(f.par, f.nodes, r, u) && w.Keys == v.Keys == u.Keys && ws in f.par
    requires SameOn(f, r, u, w, ws) && SameOn(f, r, w, v, ws)
    ensures SameOn(f, r, u, v, ws)
  {
  }

  lemma SetUrgencyConsistent(f: Forest, r: Rank, u: Flags, con: Con, value: bool, focused: Con)
    requires WellFormed(f, {}, r) && Sane(f.par, f.nodes, r, u) && Consistent(f.par, f.nodes, r, u)
    requires con in f.par && f.nodes[con] == []
    ensures Consistent(f.par, f.nodes, r, SetUrgency(f.par, f.nodes, r, u, con, value, focused))
  {
    var t := SetUrgency(f.par, f.nodes, r, u, con, value, focused);
    if con.kind == CtWorkspace {
      ClearedOffWorkspaces(f, r, u, t);
      ClearedConsistent(f.par, f.nodes, r, u, t, null);
    } else {
      LeafChangeConsistent(f, r, u, con, value);
    }
  }

  /** con_set_urgency changes of all leaves, workspaces aside, only this one, and that unless it is focused. */
  lemma SetLeafFlags(f: Forest, r: Rank, u: Flags, con: Con, value: bool, focused: Con, x: Con)
    requires WellFormed(f, {}, r) && Sane(f.par, f.nodes, r, u) && Down(f.floats, r) && con in f.par
    requires f.nodes[con] == [] && x in f.par && f.nodes[x] == [] && x.kind != CtWorkspace
    ensures AfterSetUrgency(f, r, u, con, value, focused)[x] == if x != con || (value && focused == con) then u[x]
            else value
  {
    if con.kind != CtWorkspace { LeavesKept(f, r, u[con := value], con, value, x); }
  }

  /** After con_set_urgency on a leaf the flag of its workspace is right, unless nothing was done. */
  lemma SetLeafMarksWorkspace(f: Forest, r: Rank, u: Flags, con: Con, value: bool, focused: Con)
    requires WellFormed(f, {}, r) && Sane(f.par, f.nodes, r, u) && Down(f.floats, r) && Consistent(f.par, f.nodes, r, u)
    requires con in f.par && f.nodes[con] == [] && WorkspaceOf(f.par, r, con) != null && !(value && focused == con)
    ensures FlagRight(f, r, AfterSetUrgency(f, r, u, con, value, focused), WorkspaceOf(f.par, r, con))
  {
    SetUrgencyConsistent(f, r, u, con, value, focused);
    RefreshedRight(f, r, SetUrgency(f.par, f.nodes, r, u, con, value, focused), con);
  }

  lemma SetLeafOthers(f: Forest, r: Rank, u: Flags, con: Con, value: bool, focused: Con, ws: Con)
    requires WellFormed(f, {}, r) && Sane(f.par, f.nodes, r, u) && Down(f.floats, r)
    requires con in f.par && f.nodes[con] == []
    requires ws in f.par && ws.kind == CtWorkspace && ws != WorkspaceOf(f.par, r, con)
    ensures SameOn(f, r, u, AfterSetUrgency(f, r, u, con, value, focused), ws)
  {
    var t := SetUrgency(f.par, f.nodes, r, u, con, value, focused);
    if con.kind == CtWorkspace {
      forall x | x in f.par && x != ws && Within(f.par, r, x, ws)
        ensures x != con
      {
        InsideBelowWorkspace(f, r, x, ws);
      }
    } else {
      LeafChangeOthers(f, r, u, con, value, ws);
    }
    RefreshedOthers(f, r, t, con, ws);
    SameOnThen(f, r, u, t, WorkspaceRefreshed(f, r, t, con), ws);
  }

  /** Right caches stay right, and with them right flags of workspaces. */
  ghost predicate KeepsFlags(f: Forest, r: Rank, u: Flags, v: Flags)
    requires Sane(f.par, f.nodes, r, u)
  {
    && Sane(f.par, f.nodes, r, v)
    && (Consistent(f.par, f.nodes, r, u) ==> Consistent(f.par, f.nodes, r, v))
    && (Consistent(f.par, f.nodes, r, u) && WorkspacesRight(f, r, u) ==> WorkspacesRight(f, r, v))
  }

  /** con_set_urgency on a leaf keeps all flags right. */
  lemma SetLeafKeeps(f: Forest, r: Rank, u: Flags, con: Con, value: bool, focused: Con)
    requires WellFormed(f, {}, r) && Sane(f.par, f.nodes, r, u) && Down(f.floats, r)
    requires con in f.par && f.nodes[con] == []
    ensures KeepsFlags(f, r, u, AfterSetUrgency(f, r, u, con, value, focused))
  {
    var v := AfterSetUrgency(f, r, u, con, value, focused);
    if Consistent(f.par, f.nodes, r, u) {
      SetLeafConsistent(f, r, u, con, value, focused);
      if WorkspacesRight(f, r, u) && !(value && focused == con) {
        forall ws | ws in f.par && ws.kind == CtWorkspace ensures FlagRight(f, r, v, ws) {
          if ws == WorkspaceOf(f.par, r, con) {
            SetLeafMarksWorkspace(f, r, u, con, value, focused);
          } else {
            SetLeafOthers(f, r, u, con, value, focused, ws);
            SameOnRight(f, r, u, v, ws);
          }
        }
      }
    }
  }

  /** con_update_parents_urgency from a leaf and workspace_update_urgent_flag keep all flags right. */
  lemma WalkKeeps(f: Forest, r: Rank, u: Flags, con: Con)
    requires WellFormed(f, {}, r) && Sane(f.par, f.nodes, r, u) && con in f.par && f.nodes[con] == []
    requires con.kind != CtWorkspace
    ensures KeepsFlags(f, r, u, UpdateParents(f.par, f.nodes, r, u, f.par[con], u[con]))
  {
    assert u[con := u[con]] == u;
    var v := UpdateParents(f.par, f.nodes, r, u, f.par[con], u[con]);
    if Consistent(f.par, f.nodes, r, u) { LeafChangeConsistent(f, r, u, con, u[con]); }
    forall ws | ws in f.par && ws.kind == CtWorkspace
      ensures FlagRight(f, r, u, ws) ==> FlagRight(f, r, v, ws)
    {
      LeafChangeOthers(f, r, u, con, u[con], ws);
      SameOnRight(f, r, u, v, ws);
    }
  }

  lemma RefreshKeeps(f: Forest, r: Rank, u: Flags, con: Con)
    requires WellFormed(f, {}, r) && Sane(f.par, f.nodes, r, u) && Down(f.floats, r) && con in f.par
    ensures KeepsFlags(f, r, u, WorkspaceRefreshed(f, r, u, con))
  {
    var v := WorkspaceRefreshed(f, r, u, con);
    ClearedOffWorkspaces(f, r, u, v);
    if Consistent(f.par, f.nodes, r, u) {
      ClearedConsistent(f.par, f.nodes, r, u, v, null);
      forall ws | ws in f.par && ws.kind == CtWorkspace
        ensures FlagRight(f, r, u, ws) ==> FlagRight(f, r, v, ws)
      {
        if ws == WorkspaceOf(f.par, r, con) {
          RefreshedRight(f, r, u, con);
        } else {
          RefreshedOthers(f, r, u, con, ws);
          SameOnRight(f, r, u, v, ws);
        }
      }
    }
  }

  /** In a tree all flags stay right. */
  ghost predicate Upheld(f: Forest, r: Rank, u: Flags, v: Flags)
    requires Sane(f.par, f.nodes, r, u)
  {
    Sane(f.par, f.nodes, r, v) && (WellFormed(f, {}, r) ==> KeepsFlags(f, r, u, v))
  }

  lemma UpheldThen(f: Forest, r: Rank, u: Flags, w: Flags, v: Flags)
    requires Sane(f.par, f.nodes, r, u) && Upheld(f, r, u, w) && Upheld(f, r, w, v)
    ensures Upheld(f, r, u, v)
  {
  }

  /** When an urgent leaf has been reset, the flag of its workspace is right. */
  ghost predicate MarksWorkspace(f: Forest, r: Rank, u: Flags, v: Flags, con: Con)
    requires Sane(f.par, f.nodes, r, u) && Sane(f.par, f.nodes, r, v) && con in f.par
  {
    WellFormed(f, {}, r) && Consistent(f.par, f.nodes, r, u) && u[con] && f.nodes[con] == [] &&
    con.kind != CtWorkspace && WorkspaceOf(f.par, r, con) != null ==>
      FlagRight(f, r, v, WorkspaceOf(f.par, r, con))
  }

  /** The flags after the step at the end of con_focus: the reset, and the walk and the refresh once more. */
  ghost function AfterReset(f: Forest, r: Rank, u: Flags, con: Con, focused: Con): (x: Flags)
    requires SameKeys(f) && Sane(f.par, f.nodes, r, u) && Down(f.floats, r) && con in f.par
    ensures x.Keys == u.Keys
  {
    var w := AfterSetUrgency(f, r, u, con, false, focused);
    if con.kind == CtWorkspace then w else UpdateParents(f.par, f.nodes, r, w, f.par[con], w[con])
  }

  lemma ResetUpheld(f: Forest, r: Rank, u: Flags, con: Con, focused: Con)
    requires SameKeys(f) && Sane(f.par, f.nodes, r, u) && Down(f.floats, r) && con in f.par && f.nodes[con] == []
    ensures var v := WorkspaceRefreshed(f, r, AfterReset(f, r, u, con, focused), con);
            Upheld(f, r, u, v) && MarksWorkspace(f, r, u, v, con)
  {
    if WellFormed(f, {}, r) {
      var w, x := AfterSetUrgency(f, r, u, con, false, focused), AfterReset(f, r, u, con, focused);
      SetLeafKeeps(f, r, u, con, false, focused);
      if con.kind != CtWorkspace { WalkKeeps(f, r, w, con); }
      RefreshKeeps(f, r, x, con);
      if Consistent(f.par, f.nodes, r, u) && WorkspaceOf(f.par, r, con) != null { RefreshedRight(f, r, x, con); }
    }
  }

  lemma ResetSettled(f: Forest, r: Rank, u: Flags, con: Con, focused: Con)
    requires SameKeys(f) && Sane(f.par, f.nodes, r, u) && Down(f.floats, r) && con in f.par && f.nodes[con] == []
    ensures Settled(f, r, u, WorkspaceRefreshed(f, r, AfterReset(f, r, u, con, focused), con), con)
  {
    var x := AfterReset(f, r, u, con, focused);
    BothResets(f, r, u, con, focused, AfterSetUrgency(f, r, u, con, false, focused));
    SettledOffWorkspaces(f, r, u, x, WorkspaceRefreshed(f, r, x, con), con);
  }

  /** The step at the end of con_focus. */
  method ResetUrgency(wm: Wm, con: Con, ghost s: set<Con>, ghost f: Forest, ghost r: Rank, ghost u: Flags)
    returns (ghost v: Flags)
    requires con in s && LinksAre(s, f) && FlagsAre(s, u) && Sane(f.par, f.nodes, r, u) && Down(f.floats, r)
    requires f.nodes[con] == []
    modifies s`urgent
    ensures LinksAre(s, f)
    ensures FlagsAre(s, v) && Settled(f, r, u, v, con) && Upheld(f, r, u, v) && MarksWorkspace(f, r, u, v, con)
  {
    ghost var x := AfterReset(f, r, u, con, wm.focused);
    v := WorkspaceRefreshed(f, r, x, con);
    ResetSettled(f, r, u, con, wm.focused);
    ResetUpheld(f, r, u, con, wm.focused);
    ConSetUrgency(wm, con, false, s, f, r, u);
    ConUpdateParentsUrgency(con, s, f, r, AfterSetUrgency(f, r, u, con, false, wm.focused));
    UpdateWorkspaceOf(con, s, f, r, x);
  }

  method MoveToHead(p: Con, con: Con, ghost s: set<Con>, ghost f: Forest)
    requires p in s && LinksAre(s, f)
    modifies p`focus
    ensures LinksAre(s, f.(focus := f.focus[p := ToFront(f.focus[p], con)]))
  {
    p.focus := Remove(p.focus, con);
    p.focus := [con] + p.focus;
  }

  method SetFocused(wm: Wm, con: Con)
    modifies wm`focused
    ensures wm.focused == con
  {
    wm.focused := con;
  }

  lemma SettledThen(f: Forest, r: Rank, u: Flags, w: Flags, v: Flags, con: Con)
    requires Sane(f.par, f.nodes, r, u) && Settled(f, r, u, w, null) && Settled(f, r, w, v, con)
    ensures Settled(f, r, u, v, con)
  {
    if WellFormed(f, {}, r) { ClearedThen(f.par, f.nodes, r, u, w, v, null, con, con); }
  }

  lemma NoLeafAbove(f: Forest, r: Rank, con: Con)
    requires WellFormed(f, {}, r) && con in f.par && f.par[con] != null
    ensures f.nodes[f.par[con]] == [] ==> f.par[con].kind == CtWorkspace
  {
    assert Typed(f.par, con) && Linked(f, {}, f.par[con]) && ChildOf(f.par, {}, con, f.par[con]);
  }

  lemma ClearedParent(par: Parents, nodes: Kids, r: Rank, u: Flags, w: Flags, p: Con)
    requires Sane(par, nodes, r, u) && Sane(par, nodes, r, w) && p in par
    requires Cleared(par, nodes, r, u, w, p) && (nodes[p] == [] ==> p.kind == CtWorkspace)
    ensures Cleared(par, nodes, r, u, w, null)
  {
  }

  lemma SameTypes(f: Forest, g: Forest, r: Rank)
    requires WellFormed(f, {}, r) && Shaped(g, {}, r) && g.par == f.par
    ensures WellFormed(g, {}, r)
  {
  }

  /** Only a workspace has children without being split, so focusing a parent resets no leaf. */
  lemma SettledParent(f: Forest, g: Forest, r: Rank, u: Flags, w: Flags, con: Con)
    requires con in f.par && f.par[con] != null && f.par[con] in f.par && Shaped(g, {}, r) && Sane(f.par, f.nodes, r, u)
    requires g.par == f.par && g.nodes == f.nodes && Settled(g, r, u, w, f.par[con])
    ensures Settled(f, r, u, w, null)
  {
    if WellFormed(f, {}, r) {
      SameTypes(f, g, r);
      NoLeafAbove(f, r, con);
      ClearedParent(f.par, f.nodes, r, u, w, f.par[con]);
    }
  }

  /** Only parents and tiled children matter to the flags. */
  lemma SettledSame(f: Forest, g: Forest, r: Rank, u: Flags, v: Flags, con: Con?)
    requires Sane(f.par, f.nodes, r, u) && g.par == f.par && g.nodes == f.nodes && Shaped(g, {}, r)
    requires Settled(g, r, u, v, con)
    ensures Settled(f, r, u, v, con)
  {
    if WellFormed(f, {}, r) { SameTypes(f, g, r); }
  }

  lemma UpheldSame(f: Forest, g: Forest, r: Rank, u: Flags, v: Flags)
    requires Sane(f.par, f.nodes, r, u) && g.par == f.par && g.nodes == f.nodes && Shaped(g, {}, r)
    requires Upheld(g, r, u, v)
    ensures Upheld(f, r, u, v)
  {
    if WellFormed(f, {}, r) {
      SameTypes(f, g, r);
      FlagsSame(f, g, r, u);
      FlagsSame(f, g, r, v);
    }
  }

  lemma FlagsSame(f: Forest, g: Forest, r: Rank, u: Flags)
    requires Sane(f.par, f.nodes, r, u) && g.par == f.par && g.nodes == f.nodes
    ensures WorkspacesRight(g, r, u) <==> WorkspacesRight(f, r, u)
  {
    forall ws | ws in f.par ensures FlagRight(g, r, u, ws) <==> FlagRight(f, r, u, ws) {
    }
  }

  /** The parents first, then con itself: the whole of con_focus. */
  lemma FocusUpheld(f: Forest, g: Forest, r: Rank, u: Flags, w: Flags, v: Flags, con: Con)
    requires Sane(f.par, f.nodes, r, u) && g.par == f.par && g.nodes == f.nodes && Shaped(g, {}, r) && con in f.par
    requires Settled(f, r, u, w, null) && Upheld(f, r, u, w) && Upheld(g, r, w, v) && MarksWorkspace(g, r, w, v, con)
    ensures Upheld(f, r, u, v) && MarksWorkspace(f, r, u, v, con)
  {
    UpheldSame(f, g, r, w, v);
    UpheldThen(f, r, u, w, v);
    if WellFormed(f, {}, r) {
      SameTypes(f, g, r);
      if WorkspaceOf(f.par, r, con) != null {
        assert FlagRight(g, r, v, WorkspaceOf(f.par, r, con)) <==> FlagRight(f, r, v, WorkspaceOf(f.par, r, con));
      }
    }
  }

  method FinishFocus(wm: Wm, con: Con, ghost s: set<Con>, ghost f: Forest, ghost r: Rank, ghost u: Flags)
    returns (ghost v: Flags)
    requires con in s && LinksAre(s, f) && FlagsAre(s, u) && Sane(f.par, f.nodes, r, u) && Down(f.floats, r)
    modifies wm`focused, s`urgent
    ensures wm.focused == con
    ensures LinksAre(s, f)
    ensures FlagsAre(s, v) && Settled(f, r, u, v, con) && Upheld(f, r, u, v) && MarksWorkspace(f, r, u, v, con)
  {
    SetFocused(wm, con);
    v := u;
    if con.urgent && con.nodes == [] {
      v := ResetUrgency(wm, con, s, f, r, u);
    }
  }

  method ConFocus(wm: Wm, con: Con, ghost s: set<Con>, ghost f: Forest, ghost r: Rank, ghost u: Flags)
    returns (ghost v: Flags)
    requires con in s && LinksAre(s, f) && FlagsAre(s, u) && Shaped(f, {}, r) && Sane(f.par, f.nodes, r, u)
    requires con.parent != null
    modifies wm`focused, s`focus, s`urgent
    ensures wm.focused == con
    ensures LinksAre(s, f.(focus := FocusUp(f.par, r, f.focus, con)))
    ensures FlagsAre(s, v) && Settled(f, r, u, v, con) && Upheld(f, r, u, v) && MarksWorkspace(f, r, u, v, con)
    decreases r.top - r.h[con], 1
  {
    ghost var g := f.(focus := FocusUp(f.par, r, f.focus, con));
    FocusUpShaped(f, r, con);
    ListsGoDown(g, {}, r);
    ghost var w := RaiseInStacks(wm, con, s, f, r, u);
    v := FinishFocus(wm, con, s, g, r, w);
    SettledSame(f, g, r, w, v, con);
    SettledThen(f, r, u, w, v, con);
    FocusUpheld(f, g, r, u, w, v, con);
  }

  /** To the front of the parent's list, and the same for the parent unless it is the root. */
  method RaiseInStacks(wm: Wm, con: Con, ghost s: set<Con>, ghost f: Forest, ghost r: Rank, ghost u: Flags)
    returns (ghost v: Flags)
    requires con in s && LinksAre(s, f) && FlagsAre(s, u) && Shaped(f, {}, r) && Sane(f.par, f.nodes, r, u)
    requires con.parent != null
    modifies wm`focused, s`focus, s`urgent
    ensures LinksAre(s, f.(focus := FocusUp(f.par, r, f.focus, con)))
    ensures FlagsAre(s, v) && Settled(f, r, u, v, null) && Upheld(f, r, u, v)
    decreases r.top - r.h[con], 0
  {
    var p: Con := con.parent;
    ghost var g := MovedShaped(f, r, con);
    MoveToHead(p, con, s, f);
    v := u;
    if p.parent != null {
      v := ConFocus(wm, p, s, g, r, u);
      SettledParent(f, g, r, u, v, con);
      UpheldSame(f, g, r, u, v);
    }
  }
}
