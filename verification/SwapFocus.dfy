/** Where the input focus is after con_swap: on the workspace it was on. */
module SwapFocus {
  import opened Tree
  import opened Urgency
  import opened Swap

  /** The ancestors of a container outside both subtrees stay as they are, and so does its workspace. */
  lemma {:induction false} OutsideWorkspace(f: Forest, r: Rank, a: Con, b: Con, x: Con)
    requires Ranked(f.par, r) && Swappable(f, r, a, b) && x in f.par
    requires !Within(f.par, r, x, a) && !Within(f.par, r, x, b)
    ensures Ranked(Swapped(f, a, b).par, Lifted(f.par, r, a, b))
    ensures WorkspaceOf(Swapped(f, a, b).par, Lifted(f.par, r, a, b), x) == WorkspaceOf(f.par, r, x)
    decreases r.top - r.h[x]
  {
    SwapRanked(f, r, a, b);
    if f.par[x] != null {
      assert Swapped(f, a, b).par[x] == f.par[x];
      OutsideWorkspace(f, r, a, b, f.par[x]);
    }
  }

  lemma ContentHasNoWorkspace(f: Forest, r: Rank, c: Con)
    requires WellFormed(f, {}, r) && c in f.par && c.kind == CtCon && f.par[c] != null && f.par[c].kind == CtOutput
    ensures WorkspaceOf(f.par, r, c) == null
  {
    var output := f.par[c];
    assert Typed(f.par, output) && Typed(f.par, f.par[output]);
    assert WorkspaceOf(f.par, r, output) == null;
  }

  /** A workspace is not inside a container that is on a workspace. */
  lemma WorkspaceOutside(f: Forest, r: Rank, a: Con, ws: Con)
    requires WellFormed(f, {}, r) && a in f.par && a.kind == CtCon && WorkspaceOf(f.par, r, a) != null
    requires ws in f.par && ws.kind == CtWorkspace
    ensures !Within(f.par, r, ws, a)
  {
    assert Typed(f.par, ws);
    var content := f.par[ws];
    ContentHasNoWorkspace(f, r, content);
    var output := f.par[content];
    assert Typed(f.par, output) && Typed(f.par, f.par[output]);
    assert !Within(f.par, r, f.par[output], a);
    assert !Within(f.par, r, output, a);
  }

  /** What is inside a container on a workspace is on that workspace. */
  lemma {:induction false} InsideWorkspace(f: Forest, r: Rank, a: Con, x: Con)
    requires WellFormed(f, {}, r) && a in f.par && a.kind == CtCon && WorkspaceOf(f.par, r, a) != null
    requires x in f.par && Within(f.par, r, x, a)
    ensures WorkspaceOf(f.par, r, x) == WorkspaceOf(f.par, r, a)
    decreases r.top - r.h[x]
  {
    if x != a {
      if x.kind == CtWorkspace { WorkspaceOutside(f, r, a, x); }
      InsideWorkspace(f, r, a, f.par[x]);
    }
  }

  /** The container a ends on the workspace of b. */
  lemma MovedWorkspace(f: Forest, r: Rank, a: Con, b: Con)
    requires Ranked(f.par, r) && Swappable(f, r, a, b)
    ensures Ranked(Swapped(f, a, b).par, Lifted(f.par, r, a, b))
    ensures WorkspaceOf(Swapped(f, a, b).par, Lifted(f.par, r, a, b), a) == WorkspaceOf(f.par, r, b)
  {
    SwapRanked(f, r, a, b);
    ParentOutside(f.par, r, a, b);
    OutsideWorkspace(f, r, a, b, f.par[b]);
  }

  /** ... and everything inside it too. */
  lemma {:induction false} InsideMoved(f: Forest, r: Rank, a: Con, b: Con, x: Con)
    requires WellFormed(f, {}, r) && Swappable(f, r, a, b) && WorkspaceOf(f.par, r, a) != null
    requires x in f.par && Within(f.par, r, x, a)
    ensures Ranked(Swapped(f, a, b).par, Lifted(f.par, r, a, b))
    ensures WorkspaceOf(Swapped(f, a, b).par, Lifted(f.par, r, a, b), x) == WorkspaceOf(f.par, r, b)
    decreases r.top - r.h[x]
  {
    SwapRanked(f, r, a, b);
    if x == a {
      MovedWorkspace(f, r, a, b);
    } else {
      if x.kind == CtWorkspace { WorkspaceOutside(f, r, a, x); }
      assert x != b && Swapped(f, a, b).par[x] == f.par[x];
      InsideMoved(f, r, a, b, f.par[x]);
    }
  }

  /** Focus outside both stays, and so does focus on the workspace of both; focus inside one of them passes to the
      other if that is on another workspace. */
  ghost predicate FocusPasses(par: Parents, r: Rank, a: Con, b: Con, before: Con, after: Con)
    requires Ranked(par, r) && a in par && b in par && before in par
  {
    var ws1, ws2, ws := WorkspaceOf(par, r, a), WorkspaceOf(par, r, b), WorkspaceOf(par, r, before);
    && (!Within(par, r, before, a) && !Within(par, r, before, b) ==> after == before)
    && (ws1 == ws2 == ws ==> after == before)
    && (ws1 != ws2 && Within(par, r, before, a) ==> after == b)
    && (ws1 != ws2 && Within(par, r, before, b) ==> after == a)
  }

  /** If both containers are on workspaces, the focus is on the workspace that it was on. */
  ghost predicate FocusKept(f: Forest, r: Rank, a: Con, b: Con, before: Con, par: Parents, after: Con)
    requires Ranked(f.par, r) && a in f.par && b in f.par && before in f.par
  {
    && FocusPasses(f.par, r, a, b, before, after)
    && (WellFormed(f, {}, r) && WorkspaceOf(f.par, r, a) != null && WorkspaceOf(f.par, r, b) != null ==>
          var q := Lifted(f.par, r, a, b);
          Ranked(par, q) && after in par && WorkspaceOf(par, q, after) == WorkspaceOf(f.par, r, before))
  }

  lemma NotInBoth(par: Parents, r: Rank, a: Con, b: Con, x: Con)
    requires Ranked(par, r) && x in par && Within(par, r, x, a) && Within(par, r, x, b)
    ensures a in par && b in par && (Within(par, r, a, b) || Within(par, r, b, a))
  {
    WithinLinear(par, r, x, a, b);
  }

  lemma SwapPassesFocus(f: Forest, r: Rank, a: Con, b: Con, focused: Con)
    requires Ranked(f.par, r) && Swappable(f, r, a, b) && focused in f.par
    ensures FocusPasses(f.par, r, a, b, focused, FocusAfter(f.par, r, a, b, focused))
  {
    if Within(f.par, r, focused, a) && Within(f.par, r, focused, b) { NotInBoth(f.par, r, a, b, focused); }
  }

  /** From inside a the focus stays on the workspace, where b is then, or where a is too. */
  lemma FocusFromInside(f: Forest, r: Rank, a: Con, b: Con, focused: Con, after: Con)
    requires WellFormed(f, {}, r) && Swappable(f, r, a, b) && focused in f.par && Within(f.par, r, focused, a)
    requires WorkspaceOf(f.par, r, a) != null && WorkspaceOf(f.par, r, b) != null
    requires FocusPasses(f.par, r, a, b, focused, after)
    ensures var par, q := Swapped(f, a, b).par, Lifted(f.par, r, a, b);
            Ranked(par, q) && after in par && WorkspaceOf(par, q, after) == WorkspaceOf(f.par, r, focused)
  {
    InsideWorkspace(f, r, a, focused);
    if WorkspaceOf(f.par, r, a) == WorkspaceOf(f.par, r, b) {
      InsideMoved(f, r, a, b, focused);
    } else {
      SwapSymmetric(f, r, a, b);
      MovedWorkspace(f, r, b, a);
    }
  }

  lemma PassesSymmetric(par: Parents, r: Rank, a: Con, b: Con, before: Con, after: Con)
    requires Ranked(par, r) && a in par && b in par && before in par && FocusPasses(par, r, a, b, before, after)
    ensures FocusPasses(par, r, b, a, before, after)
  {
  }

  /** The focus does not change the workspace. */
  lemma SwapKeepsWorkspace(f: Forest, r: Rank, a: Con, b: Con, focused: Con, after: Con)
    requires WellFormed(f, {}, r) && Swappable(f, r, a, b) && focused in f.par
    requires WorkspaceOf(f.par, r, a) != null && WorkspaceOf(f.par, r, b) != null
    requires FocusPasses(f.par, r, a, b, focused, after)
    ensures var par, q := Swapped(f, a, b).par, Lifted(f.par, r, a, b);
            Ranked(par, q) && after in par && WorkspaceOf(par, q, after) == WorkspaceOf(f.par, r, focused)
  {
    if Within(f.par, r, focused, a) {
      FocusFromInside(f, r, a, b, focused, after);
    } else if Within(f.par, r, focused, b) {
      SwapSymmetric(f, r, a, b);
      PassesSymmetric(f.par, r, a, b, focused, after);
      FocusFromInside(f, r, b, a, focused, after);
    } else {
      OutsideWorkspace(f, r, a, b, focused);
    }
  }

  lemma SwapKeepsFocus(f: Forest, r: Rank, a: Con, b: Con, focused: Con)
    requires Shaped(f, {}, r) && Swappable(f, r, a, b) && focused in f.par
    ensures FocusKept(f, r, a, b, focused, Swapped(f, a, b).par, FocusAfter(f.par, r, a, b, focused))
  {
    SwapPassesFocus(f, r, a, b, focused);
    if WellFormed(f, {}, r) && WorkspaceOf(f.par, r, a) != null && WorkspaceOf(f.par, r, b) != null {
      SwapKeepsWorkspace(f, r, a, b, focused, FocusAfter(f.par, r, a, b, focused));
    }
  }
}
