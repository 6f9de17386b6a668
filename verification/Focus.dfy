/**
 Input focus: con_focus, the order it gives the focus lists, and the functions that follow those lists
 down the tree.
 */
module Focus {
  import opened Lists
  import opened Tree
  import opened Urgency

  function First(s: seq<Con>): Con? {
    if s == [] then null else s[0]
  }

  /** Each focus list holds exactly the children, each once. */
  ghost predicate Stacked(par: Parents, focus: Kids) {
    && focus.Keys == par.Keys
    && (forall a :: a in par ==> NoDup(focus[a]))
    && (forall a, x {:trigger x in focus[a]} :: a in par && x in focus[a] ==> x in par && par[x] == a)
    && (forall x :: x in par && par[x] != null && par[x] in par ==> x in focus[par[x]])
  }

  lemma TreeStacked(f: Forest, r: Rank)
    requires WellFormed(f, {}, r)
    ensures Stacked(f.par, f.focus) && Down(f.focus, r)
  {
    ListsGoDown(f, {}, r);
    forall a | a in f.par
      ensures NoDup(f.focus[a]) && forall x :: x in f.focus[a] ==> x in f.par && f.par[x] == a
    {
      assert Linked(f, {}, a);
    }
    forall x | x in f.par && f.par[x] != null ensures x in f.focus[f.par[x]] {
      assert Linked(f, {}, f.par[x]) && ChildOf(f.par, {}, x, f.par[x]);
    }
  }

  /** con_focus on the focus lists: to the front of its parent's list, and so on upwards. */
  ghost function FocusUp(par: Parents, r: Rank, focus: Kids, x: Con): (g: Kids)
    requires Ranked(par, r) && focus.Keys == par.Keys && x in par && par[x] != null
    ensures g.Keys == focus.Keys
    decreases r.top - r.h[x]
  {
    var p: Con := par[x];
    var g := focus[p := ToFront(focus[p], x)];
    if par[p] != null then FocusUp(par, r, g, p) else g
  }

  /** Only the lists of the ancestors change, and each puts the child on the way to x first. */
  lemma {:induction false} FocusUpAt(par: Parents, r: Rank, focus: Kids, x: Con, a: Con)
    requires Ranked(par, r) && focus.Keys == par.Keys && x in par && par[x] != null && a in par
    ensures FocusUp(par, r, focus, x)[a]
         == if a != x && Within(par, r, x, a) then ToFront(focus[a], Toward(par, r, x, a)) else focus[a]
    decreases r.top - r.h[x]
  {
    var p: Con := par[x];
    var g := focus[p := ToFront(focus[p], x)];
    if par[p] != null { FocusUpAt(par, r, g, p, a); }
    if Within(par, r, x, a) { WithinRank(par, r, x, a); }
    if Within(par, r, p, a) { WithinRank(par, r, p, a); }
  }

  /** The list of each container is rearranged at most. */
  lemma FocusUpMembers(par: Parents, r: Rank, focus: Kids, x: Con, a: Con)
    requires Ranked(par, r) && Stacked(par, focus) && x in par && par[x] != null && a in par
    ensures var g := FocusUp(par, r, focus, x); NoDup(g[a]) && forall y :: y in g[a] <==> y in focus[a]
  {
    FocusUpAt(par, r, focus, x, a);
    if a != x && Within(par, r, x, a) { ToFrontFacts(focus[a], Toward(par, r, x, a)); }
  }

  lemma FocusUpStacked(par: Parents, r: Rank, focus: Kids, x: Con)
    requires Ranked(par, r) && Stacked(par, focus) && x in par && par[x] != null
    ensures Stacked(par, FocusUp(par, r, focus, x))
  {
    SameMembersStacked(par, focus, FocusUp(par, r, focus, x)) by {
      forall a | a in par
        ensures NoDup(FocusUp(par, r, focus, x)[a]) && forall y :: y in FocusUp(par, r, focus, x)[a] <==> y in focus[a]
      {
        FocusUpMembers(par, r, focus, x, a);
      }
    }
  }

  lemma SameMembersStacked(par: Parents, focus: Kids, g: Kids)
    requires Stacked(par, focus) && g.Keys == par.Keys
    requires forall a :: a in par ==> NoDup(g[a]) && forall y :: y in g[a] <==> y in focus[a]
    ensures Stacked(par, g)
  {
  }

  // ---- a run of con_focus calls ----------------------------------------------------------------

  ghost predicate Focusable(par: Parents, xs: seq<Con>) {
    forall x :: x in xs ==> x in par && par[x] != null
  }

  ghost function FocusRun(par: Parents, r: Rank, focus: Kids, xs: seq<Con>): (g: Kids)
    requires Ranked(par, r) && focus.Keys == par.Keys && Focusable(par, xs)
    ensures g.Keys == focus.Keys
  {
    if xs == [] then focus
    else FocusUp(par, r, FocusRun(par, r, focus, xs[..|xs| - 1]), xs[|xs| - 1])
  }

  /** When c or something inside it was last focused; -1 for never. */
  ghost function LastTouched(par: Parents, r: Rank, xs: seq<Con>, c: Con): (t: int)
    requires Ranked(par, r) && Focusable(par, xs)
    ensures -1 <= t < |xs|
  {
    if xs == [] then -1
    else if Within(par, r, xs[|xs| - 1], c) then |xs| - 1
    else LastTouched(par, r, xs[..|xs| - 1], c)
  }

  ghost predicate MoreRecent(par: Parents, r: Rank, xs: seq<Con>, original: seq<Con>, c: Con, d: Con)
    requires Ranked(par, r) && Focusable(par, xs) && c in original && d in original
  {
    var tc, td := LastTouched(par, r, xs, c), LastTouched(par, r, xs, d);
    tc > td || (tc == td == -1 && Index(original, c) < Index(original, d))
  }

  ghost predicate ByRecency(par: Parents, r: Rank, xs: seq<Con>, original: seq<Con>, s: seq<Con>)
    requires Ranked(par, r) && Focusable(par, xs)
  {
    && (forall x :: x in original ==> x in s)
    && (forall x :: x in s ==> x in original)
    && (forall i, j :: 0 <= i < j < |s| ==> MoreRecent(par, r, xs, original, s[i], s[j]))
  }

  lemma NeverFocused(par: Parents, r: Rank, s: seq<Con>)
    requires Ranked(par, r) && NoDup(s)
    ensures ByRecency(par, r, [], s, s)
  {
    forall i, j | 0 <= i < j < |s| ensures MoreRecent(par, r, [], s, s[i], s[j]) {
      IndexUnique(s, i);
      IndexUnique(s, j);
    }
  }

  /** After any run every focus list is in order of most recent focus, the never-focused children last
      and in their original order. */
  lemma {:induction false} RecencyOrder(par: Parents, r: Rank, focus: Kids, xs: seq<Con>, a: Con)
    requires Ranked(par, r) && Stacked(par, focus) && Focusable(par, xs) && a in par
    ensures Stacked(par, FocusRun(par, r, focus, xs)) && ByRecency(par, r, xs, focus[a], FocusRun(par, r, focus, xs)[a])
  {
    if xs == [] {
      NeverFocused(par, r, focus[a]);
    } else {
      var ys, x := xs[..|xs| - 1], xs[|xs| - 1];
      assert ys + [x] == xs;
      RecencyOrder(par, r, focus, ys, a);
      FocusUpStacked(par, r, FocusRun(par, r, focus, ys), x);
      RecencyStep(par, r, focus[a], FocusRun(par, r, focus, ys), ys, x, a);
    }
  }

  /** The list after focusing x: unchanged, or with the child on the way to x in front. */
  lemma RecencyStep(par: Parents, r: Rank, original: seq<Con>, focus: Kids, xs: seq<Con>, x: Con, a: Con)
    requires Ranked(par, r) && Stacked(par, focus) && Focusable(par, xs + [x]) && Focusable(par, xs) && a in par
    requires x in par && par[x] != null
    requires ByRecency(par, r, xs, original, focus[a])
    ensures ByRecency(par, r, xs + [x], original, FocusUp(par, r, focus, x)[a])
  {
    ListAfter(par, r, focus, x, a);
    StepList(par, r, original, focus[a], FocusUp(par, r, focus, x)[a], xs, x, a);
  }

  lemma ListAfter(par: Parents, r: Rank, focus: Kids, x: Con, a: Con)
    requires Ranked(par, r) && Stacked(par, focus) && x in par && par[x] != null && a in par
    ensures ChildrenOf(par, focus[a], a)
    ensures MovedIn(par, r, focus[a], FocusUp(par, r, focus, x)[a], x, a)
  {
    FocusUpAt(par, r, focus, x, a);
  }

  ghost predicate ChildrenOf(par: Parents, s: seq<Con>, a: Con) {
    NoDup(s) && forall y :: y in s ==> y in par && par[y] == a
  }

  /** t is s with the child on the way from a to x, if there is one, in front. */
  ghost predicate MovedIn(par: Parents, r: Rank, s: seq<Con>, t: seq<Con>, x: Con, a: Con)
    requires Ranked(par, r) && x in par
  {
    if OnPath(par, r, x, a) then Toward(par, r, x, a) in s && t == ToFront(s, Toward(par, r, x, a)) else t == s
  }

  lemma StepList(par: Parents, r: Rank, original: seq<Con>, s: seq<Con>, t: seq<Con>, xs: seq<Con>, x: Con, a: Con)
    requires Ranked(par, r) && Focusable(par, xs + [x]) && Focusable(par, xs) && x in par && a in par
    requires ChildrenOf(par, s, a) && MovedIn(par, r, s, t, x, a) && ByRecency(par, r, xs, original, s)
    ensures ByRecency(par, r, xs + [x], original, t)
  {
    if OnPath(par, r, x, a) {
      TouchOnPath(par, r, s, xs, x, a);
      FrontByRecency(par, r, original, s, xs, x, Toward(par, r, x, a));
    } else {
      TouchOffPath(par, r, s, xs, x, a);
      StillByRecency(par, r, original, s, xs, x);
    }
  }

  /** a is a proper ancestor of x. */
  ghost predicate OnPath(par: Parents, r: Rank, x: Con, a: Con)
    requires Ranked(par, r) && x in par
  {
    a != x && Within(par, r, x, a)
  }

  lemma TouchOnPath(par: Parents, r: Rank, s: seq<Con>, xs: seq<Con>, x: Con, a: Con)
    requires Ranked(par, r) && Focusable(par, xs + [x]) && Focusable(par, xs) && x in par && a in par
    requires forall y :: y in s ==> y in par && par[y] == a
    requires OnPath(par, r, x, a)
    ensures forall y :: y in s ==>
            LastTouched(par, r, xs + [x], y) == if y == Toward(par, r, x, a) then |xs| else LastTouched(par, r, xs, y)
  {
    forall y | y in s
      ensures LastTouched(par, r, xs + [x], y) == if y == Toward(par, r, x, a) then |xs| else LastTouched(par, r, xs, y)
    {
      TouchStep(par, r, xs, x, a, y);
    }
  }

  lemma TouchOffPath(par: Parents, r: Rank, s: seq<Con>, xs: seq<Con>, x: Con, a: Con)
    requires Ranked(par, r) && Focusable(par, xs + [x]) && Focusable(par, xs) && x in par && a in par
    requires forall y :: y in s ==> y in par && par[y] == a
    requires !OnPath(par, r, x, a)
    ensures forall y :: y in s ==> LastTouched(par, r, xs + [x], y) == LastTouched(par, r, xs, y)
  {
    forall y | y in s ensures LastTouched(par, r, xs + [x], y) == LastTouched(par, r, xs, y) {
      TouchStep(par, r, xs, x, a, y);
    }
  }

  lemma StillByRecency(par: Parents, r: Rank, original: seq<Con>, s: seq<Con>, xs: seq<Con>, x: Con)
    requires Ranked(par, r) && Focusable(par, xs + [x]) && Focusable(par, xs) && ByRecency(par, r, xs, original, s)
    requires forall y :: y in s ==> LastTouched(par, r, xs + [x], y) == LastTouched(par, r, xs, y)
    ensures ByRecency(par, r, xs + [x], original, s)
  {
    forall i, j | 0 <= i < j < |s| ensures MoreRecent(par, r, xs + [x], original, s[i], s[j]) {
      assert MoreRecent(par, r, xs, original, s[i], s[j]);
    }
  }

  lemma FrontByRecency(par: Parents, r: Rank, original: seq<Con>, s: seq<Con>, xs: seq<Con>, x: Con, c: Con)
    requires Ranked(par, r) && Focusable(par, xs + [x]) && Focusable(par, xs) && ByRecency(par, r, xs, original, s)
    requires NoDup(s) && c in s
    requires forall y :: y in s ==>
             LastTouched(par, r, xs + [x], y) == if y == c then |xs| else LastTouched(par, r, xs, y)
    ensures ByRecency(par, r, xs + [x], original, ToFront(s, c))
  {
    ToFrontFacts(s, c);
    var t := ToFront(s, c);
    forall i, j | 0 <= i < j < |t| ensures MoreRecent(par, r, xs + [x], original, t[i], t[j]) {
      var p, q := FrontPair(s, c, i, j);
      if i > 0 { assert MoreRecent(par, r, xs, original, s[p], s[q]); } else { assert t[0] == c; }
    }
  }

  /** Two entries behind the front stood in the same order before. */
  lemma FrontPair(s: seq<Con>, c: Con, i: nat, j: nat) returns (p: nat, q: nat)
    requires NoDup(s) && c in s && i < j < |ToFront(s, c)|
    ensures ToFront(s, c)[j] in s && ToFront(s, c)[j] != c
    ensures i > 0 ==> p < q < |s| && ToFront(s, c)[i] == s[p] && ToFront(s, c)[j] == s[q] && s[p] != c
  {
    var k := Index(s, c);
    p := if i == 0 then 0 else if i - 1 < k then i - 1 else i;
    q := if j - 1 < k then j - 1 else j;
    assert ToFront(s, c)[j] == s[q];
  }

  lemma TouchStep(par: Parents, r: Rank, xs: seq<Con>, x: Con, a: Con, y: Con)
    requires Ranked(par, r) && Focusable(par, xs + [x]) && Focusable(par, xs) && x in par
    requires a in par && y in par && par[y] == a
    ensures LastTouched(par, r, xs + [x], y) ==
            if a != x && Within(par, r, x, a) && y == Toward(par, r, x, a) then |xs| else LastTouched(par, r, xs, y)
  {
    assert (xs + [x])[..|xs|] == xs;
    if Within(par, r, x, y) {
      assert Within(par, r, y, a);
      WithinTrans(par, r, x, y, a);
      WithinRank(par, r, x, y);
      SiblingsApart(par, r, x, y, Toward(par, r, x, a));
    }
  }

  // ---- what follows the focus lists ------------------------------------------------------------

  /** x and all its ancestors are first in their parents' lists. */
  ghost predicate OnTop(par: Parents, r: Rank, focus: Kids, x: Con)
    requires Ranked(par, r) && focus.Keys == par.Keys && x in par
    decreases r.top - r.h[x]
  {
    par[x] != null ==> First(focus[par[x]]) == x && OnTop(par, r, focus, par[x])
  }

  lemma {:induction false} FocusPutsOnTop(par: Parents, r: Rank, focus: Kids, x: Con, y: Con)
    requires Ranked(par, r) && focus.Keys == par.Keys && x in par && par[x] != null
    requires y in par && Within(par, r, x, y)
    ensures OnTop(par, r, FocusUp(par, r, focus, x), y)
    decreases r.top - r.h[y]
  {
    if par[y] != null {
      var p: Con := par[y];
      WithinRank(par, r, x, y);
      assert Within(par, r, y, p);
      WithinTrans(par, r, x, y, p);
      FocusUpAt(par, r, focus, x, p);
      SiblingsApart(par, r, x, y, Toward(par, r, x, p));
      FocusPutsOnTop(par, r, focus, x, p);
    }
  }

  /** con_descend_focused */
  ghost function Descend(focus: Kids, r: Rank, focused: Con?, c: Con): Con
    requires Down(focus, r) && c in focus && focus.Keys <= r.h.Keys
    decreases r.h[c]
  {
    if c == focused || focus[c] == [] then c
    else assert focus[c][0] in focus[c]; Descend(focus, r, focused, focus[c][0])
  }

  /** con_is_hidden */
  ghost predicate Hidden(par: Parents, r: Rank, focus: Kids, stacking: set<Con>, c: Con)
    requires Ranked(par, r) && focus.Keys == par.Keys && c in par
    decreases r.top - r.h[c]
  {
    && c.kind != CtWorkspace && par[c] != null
    && ((par[c] in stacking && First(focus[par[c]]) != c) || Hidden(par, r, focus, stacking, par[c]))
  }

  /** No workspace stands from c up to x. */
  ghost predicate NoWorkspaceTo(par: Parents, r: Rank, c: Con, x: Con)
    requires Ranked(par, r) && c in par
  {
    forall y :: y in par && Within(par, r, c, y) && Within(par, r, y, x) ==> y.kind != CtWorkspace
  }

  /** The parent of x is stacked or tabbed, and its focus list does not begin with x. */
  ghost predicate Covered(par: Parents, focus: Kids, stacking: set<Con>, x: Con)
    requires focus.Keys == par.Keys && x in par && (par[x] != null ==> par[x] in par)
  {
    par[x] != null && par[x] in stacking && (focus[par[x]] == [] || focus[par[x]][0] != x)
  }

  lemma {:induction false} HiddenCovered(par: Parents, r: Rank, focus: Kids, stacking: set<Con>, c: Con)
    returns (x: Con)
    requires Ranked(par, r) && focus.Keys == par.Keys && c in par && Hidden(par, r, focus, stacking, c)
    ensures x in par && Within(par, r, c, x) && NoWorkspaceTo(par, r, c, x) && Covered(par, focus, stacking, x)
    decreases r.top - r.h[c]
  {
    if Covered(par, focus, stacking, c) {
      x := c;
      forall y | y in par && Within(par, r, c, y) && Within(par, r, y, c) ensures y == c {
        WithinRank(par, r, c, y);
        WithinRank(par, r, y, c);
      }
    } else {
      x := HiddenCovered(par, r, focus, stacking, par[c]);
    }
  }

  lemma {:induction false} CoveredHides(par: Parents, r: Rank, focus: Kids, stacking: set<Con>, c: Con, x: Con)
    requires Ranked(par, r) && focus.Keys == par.Keys && c in par && x in par && Within(par, r, c, x)
    requires NoWorkspaceTo(par, r, c, x) && Covered(par, focus, stacking, x)
    ensures Hidden(par, r, focus, stacking, c)
    decreases r.top - r.h[c]
  {
    assert Within(par, r, c, c);
    if c != x { CoveredHides(par, r, focus, stacking, par[c], x); }
  }

  /** con_is_hidden: the container or one around it, below the workspace, is covered by a sibling. */
  lemma HiddenMeans(par: Parents, r: Rank, focus: Kids, stacking: set<Con>, c: Con)
    requires Ranked(par, r) && focus.Keys == par.Keys && c in par
    ensures Hidden(par, r, focus, stacking, c) <==>
            exists x :: x in par && Within(par, r, c, x) && NoWorkspaceTo(par, r, c, x) &&
                        Covered(par, focus, stacking, x)
  {
    if Hidden(par, r, focus, stacking, c) { var x := HiddenCovered(par, r, focus, stacking, c); }
    forall x | x in par && Within(par, r, c, x) && NoWorkspaceTo(par, r, c, x) && Covered(par, focus, stacking, x)
      ensures Hidden(par, r, focus, stacking, c)
    {
      CoveredHides(par, r, focus, stacking, c, x);
    }
  }

  lemma {:induction false} OnTopVisible(par: Parents, r: Rank, focus: Kids, stacking: set<Con>, x: Con)
    requires Ranked(par, r) && focus.Keys == par.Keys && x in par && OnTop(par, r, focus, x)
    ensures !Hidden(par, r, focus, stacking, x)
    decreases r.top - r.h[x]
  {
    if par[x] != null { OnTopVisible(par, r, focus, stacking, par[x]); }
  }

  lemma {:induction false} OnTopAncestor(par: Parents, r: Rank, focus: Kids, x: Con, a: Con)
    requires Ranked(par, r) && focus.Keys == par.Keys && x in par && OnTop(par, r, focus, x) && Within(par, r, x, a)
    ensures a in par && OnTop(par, r, focus, a)
    decreases r.top - r.h[x]
  {
    if x != a { OnTopAncestor(par, r, focus, par[x], a); }
  }

  lemma {:induction false} OnTopFound(par: Parents, r: Rank, focus: Kids, x: Con, a: Con)
    requires Ranked(par, r) && Down(focus, r) && focus.Keys == par.Keys && x in par
    requires OnTop(par, r, focus, x) && a in par && Within(par, r, x, a)
    ensures Descend(focus, r, x, a) == x
    decreases r.h[a]
  {
    if a != x {
      var c := Toward(par, r, x, a);
      OnTopAncestor(par, r, focus, x, c);
      OnTopFound(par, r, focus, x, c);
    }
  }

  lemma StackedDown(par: Parents, r: Rank, focus: Kids)
    requires Ranked(par, r) && Stacked(par, focus)
    ensures Down(focus, r)
  {
    forall c, x | c in focus && x in focus[c] ensures x in focus && c in r.h && x in r.h && r.h[x] < r.h[c] {
      assert x in par && par[x] == c;
    }
  }

  /** After any run that ends with x: every ancestor of x leads to x, and x is not hidden. */
  lemma FocusedIsFound(par: Parents, r: Rank, focus: Kids, xs: seq<Con>, stacking: set<Con>, a: Con)
    requires Ranked(par, r) && Stacked(par, focus) && Focusable(par, xs) && xs != []
    requires a in par && Within(par, r, xs[|xs| - 1], a)
    ensures var g, x := FocusRun(par, r, focus, xs), xs[|xs| - 1];
            Down(g, r) && Descend(g, r, x, a) == x && !Hidden(par, r, g, stacking, x)
  {
    var ys, x := xs[..|xs| - 1], xs[|xs| - 1];
    var g := FocusRun(par, r, focus, xs);
    RecencyOrder(par, r, focus, xs, a);
    StackedDown(par, r, g);
    FocusPutsOnTop(par, r, FocusRun(par, r, focus, ys), x, x);
    OnTopVisible(par, r, g, stacking, x);
    OnTopFound(par, r, g, x, a);
  }

  /** ... while below a stacked or tabbed parent the siblings of everything on the way up from x are hidden. */
  lemma SiblingsHidden(par: Parents, r: Rank, focus: Kids, xs: seq<Con>, stacking: set<Con>, y: Con, z: Con)
    requires Ranked(par, r) && Stacked(par, focus) && Focusable(par, xs) && xs != []
    requires y in par && Within(par, r, xs[|xs| - 1], y) && par[y] != null && par[y] in stacking
    requires z in par && z != y && par[z] == par[y] && z.kind != CtWorkspace
    ensures Hidden(par, r, FocusRun(par, r, focus, xs), stacking, z)
  {
    var ys, x := xs[..|xs| - 1], xs[|xs| - 1];
    RecencyOrder(par, r, focus, xs, y);
    FocusPutsOnTop(par, r, FocusRun(par, r, focus, ys), x, y);
  }

  /** y is the first entry of the focus list of x. */
  ghost predicate Leads(focus: Kids, x: Con, y: Con) {
    x in focus && focus[x] != [] && focus[x][0] == y
  }

  /** A walk down the first entries. */
  ghost predicate FirstPath(focus: Kids, path: seq<Con>) {
    forall i, j :: 0 <= i && j == i + 1 && j < |path| ==> Leads(focus, path[i], path[j])
  }

  /** con_descend_focused ends at the focused container or at a container without children, and passes neither. */
  lemma {:induction false} DescendPath(focus: Kids, r: Rank, focused: Con?, c: Con) returns (path: seq<Con>)
    requires Down(focus, r) && c in focus && focus.Keys <= r.h.Keys
    ensures |path| > 0 && FirstPath(focus, path) && path[0] == c
    ensures path[|path| - 1] == Descend(focus, r, focused, c) && path[|path| - 1] in focus
    ensures path[|path| - 1] == focused || focus[path[|path| - 1]] == []
    ensures forall i :: 0 <= i < |path| - 1 ==> path[i] != focused
    decreases r.h[c]
  {
    if c == focused || focus[c] == [] {
      path := [c];
    } else {
      assert focus[c][0] in focus[c];
      var rest := DescendPath(focus, r, focused, focus[c][0]);
      path := [c] + rest;
    }
  }
}
