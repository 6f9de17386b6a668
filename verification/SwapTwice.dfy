/** con_swap undoes itself. */
module SwapTwice {
  import opened Lists
  import opened Tree
  import opened Urgency
  import opened Percent
  import opened Swap
  import opened SwapOps

  /** Whatever was focused in between, the second swap is allowed, */
  lemma SwappableAgain(f: Forest, r: Rank, a: Con, b: Con, once: Con?)
    requires Shaped(f, {}, r) && Swappable(f, r, a, b) && (once != null ==> once in f.par && f.par[once] != null)
    ensures var g, q := Result(f, r, a, b, once), Lifted(f.par, r, a, b); Shaped(g, {}, q) && Swappable(g, q, a, b)
  {
    ResultShaped(f, r, a, b, once);
    StillApart(f, r, a, b);
    StillApart(f, r, b, a);
    SwapSymmetric(f, r, a, b);
  }

  /** ... and it restores all parents and `nodes` lists, */
  lemma SwapBack(f: Forest, r: Rank, a: Con, b: Con, once: Con?, twice: Con?)
    requires Shaped(f, {}, r) && Swappable(f, r, a, b)
    requires once != null ==> once in f.par && f.par[once] != null
    requires twice != null ==> twice in f.par && f.par[twice] != null
    ensures var g, q := Result(f, r, a, b, once), Lifted(f.par, r, a, b);
            && Shaped(g, {}, q) && Swappable(g, q, a, b)
            && (twice != null ==> g.par[twice] != null)
            && var h := Result(g, q, a, b, twice); h.par == f.par && h.nodes == f.nodes && h.floats == f.floats
  {
    SwappableAgain(f, r, a, b, once);
    SecondResult(f, a, b, Result(f, r, a, b, once), Lifted(f.par, r, a, b), twice);
  }

  lemma SecondResult(f: Forest, a: Con, b: Con, g: Forest, q: Rank, twice: Con?)
    requires SameKeys(f) && a in f.par && b in f.par && a != b
    requires g.par == Swapped(f, a, b).par && g.nodes == Trades(f.nodes, a, b) && g.floats == f.floats
    requires Shaped(g, {}, q) && Swappable(g, q, a, b)
    requires Placed(f, twice) && f.par[a] != null && f.par[b] != null
    ensures Placed(g, twice)
    ensures var h := Result(g, q, a, b, twice); h.par == f.par && h.nodes == f.nodes && h.floats == f.floats
  {
    PlacedAfter(f, a, b, g, twice);
    BackAgain(f, a, b, g);
  }

  lemma PlacedAfter(f: Forest, a: Con, b: Con, g: Forest, c: Con?)
    requires a in f.par && b in f.par && f.par[a] != null && f.par[b] != null && g.par == Swapped(f, a, b).par
    ensures Placed(f, c) ==> Placed(g, c)
  {
  }

  lemma BackAgain(f: Forest, a: Con, b: Con, g: Forest)
    requires SameKeys(f) && a in f.par && b in f.par && a != b
    requires g.par == Swapped(f, a, b).par && g.nodes == Trades(f.nodes, a, b) && g.floats == f.floats
    ensures Swapped(g, a, b).par == f.par && Trades(g.nodes, a, b) == f.nodes
  {
    forall c | c in f.par ensures Trades(g.nodes, a, b)[c] == f.nodes[c] { TradeTwice(f.nodes[c], a, b); }
  }

  ghost predicate Normalised(pct: Shares, l: seq<Con>) {
    (forall x :: x in l ==> x in pct) && AllPositive(Along(pct, l)) && Sum(Along(pct, l)) == 1.0
  }

  /** ... and the percentage of every tiled child, when the shares under both parents were normalised. */
  lemma SharesBack(f: Forest, r: Rank, a: Con, b: Con, once: Con?, p0: Shares, p1: Shares, p2: Shares)
    requires Shaped(f, {}, r) && Swappable(f, r, a, b) && (once != null ==> once in f.par && f.par[once] != null)
    requires Normalised(p0, f.nodes[f.par[a]]) && Normalised(p0, f.nodes[f.par[b]])
    requires SharesKept(f, p0, p1, a, b) && SharesKept(Result(f, r, a, b, once), p1, p2, a, b)
    ensures forall c, x {:trigger x in f.nodes[c]} :: c in f.nodes && x in f.nodes[c] ==>
              x in p0 && x in p2 && p2[x] == p0[x]
  {
    var g := Result(f, r, a, b, once);
    BackAgain(f, a, b, g);
    forall c, x {:trigger x in f.nodes[c]} | c in f.nodes && x in f.nodes[c]
      ensures x in p0 && x in p2 && p2[x] == p0[x]
    {
      SharesBackAt(f, a, b, g, p0, p1, p2, c);
      var i := Index(f.nodes[c], x);
      assert Along(p2, f.nodes[c])[i] == Along(p0, f.nodes[c])[i];
    }
  }

  lemma SharesBackAt(f: Forest, a: Con, b: Con, g: Forest, p0: Shares, p1: Shares, p2: Shares, c: Con)
    requires SameKeys(f) && SameKeys(g) && a in f.par && b in f.par && a != b && f.par[a] in f.par && f.par[b] in f.par
    requires g.par == Swapped(f, a, b).par && g.nodes == Trades(f.nodes, a, b) && Trades(g.nodes, a, b) == f.nodes
    requires Normalised(p0, f.nodes[f.par[a]]) && Normalised(p0, f.nodes[f.par[b]])
    requires SharesKept(f, p0, p1, a, b) && SharesKept(g, p1, p2, a, b) && c in f.nodes
    ensures Listed(f.nodes, p0) && Listed(f.nodes, p2) && Along(p2, f.nodes[c]) == Along(p0, f.nodes[c])
  {
    assert g.nodes[c] == Trade(f.nodes[c], a, b);
    assert Trade(g.nodes[c], a, b) == f.nodes[c];
    if c == f.par[a] || c == f.par[b] { FixedNormalised(Along(p0, f.nodes[c])); }
  }

  // ---- the code, twice ---------------------------------------------------------------------------

  /** The same parents, tiled and floating children. */
  ghost predicate SamePlaces(f: Forest, h: Forest) {
    h.par == f.par && h.nodes == f.nodes && h.floats == f.floats
  }

  /** All tiled children have the percentages they had, if those under the parents of a and b were normalised. */
  ghost predicate SharesRestored(f: Forest, pct: Shares, after: Shares, a: Con, b: Con) {
    a in f.par && b in f.par && f.par[a] in f.nodes && f.par[b] in f.nodes &&
    (Normalised(pct, f.nodes[f.par[a]]) && Normalised(pct, f.nodes[f.par[b]]) ==>
       forall c, x {:trigger x in f.nodes[c]} :: c in f.nodes && x in f.nodes[c] ==>
           x in pct && x in after && after[x] == pct[x])
  }

  /** The links and percentages after one con_swap; `once` is focused again. */
  ghost predicate Moved(f: Forest, r: Rank, pct: Shares, a: Con, b: Con, once: Con?, h: Forest, after: Shares) {
    && Shaped(f, {}, r) && Swappable(f, r, a, b) && Placed(f, once)
    && h == Result(f, r, a, b, once) && SharesKept(f, pct, after, a, b)
  }

  lemma MovedOnce(f: Forest, r: Rank, pct: Shares, u: Flags, a: Con, b: Con, focused: Con, h: Forest, after: Shares,
                  v: Flags)
    requires Shaped(f, {}, r) && Swappable(f, r, a, b) && focused in f.par && f.par[focused] != null
    requires pct.Keys == f.par.Keys == u.Keys && SwapDone(f, r, pct, u, a, b, focused, h, after, v)
    ensures Moved(f, r, pct, a, b, FocusTarget(f.par, r, a, b, focused), h, after)
    ensures Placed(h, FocusAfter(f.par, r, a, b, focused)) && FocusAfter(f.par, r, a, b, focused) in h.par
    ensures Shaped(h, {}, Lifted(f.par, r, a, b)) && Swappable(h, Lifted(f.par, r, a, b), a, b)
  {
    SwappableAgain(f, r, a, b, FocusTarget(f.par, r, a, b, focused));
  }

  lemma MovedTwice(f: Forest, r: Rank, a: Con, b: Con, p0: Shares, once: Con?, h1: Forest, p1: Shares, q: Rank,
                   twice: Con?, h2: Forest, p2: Shares)
    requires Moved(f, r, p0, a, b, once, h1, p1) && q == Lifted(f.par, r, a, b) && Moved(h1, q, p1, a, b, twice, h2, p2)
    ensures SamePlaces(f, h2) && SharesRestored(f, p0, p2, a, b)
  {
    PlacedBefore(f, a, b, h1, twice);
    SwapBack(f, r, a, b, once, twice);
    assert Linked(f, {}, f.par[a]);
    if Normalised(p0, f.nodes[f.par[a]]) && Normalised(p0, f.nodes[f.par[b]]) {
      SharesBack(f, r, a, b, once, p0, p1, p2);
    }
  }

  lemma PlacedBefore(f: Forest, a: Con, b: Con, h: Forest, c: Con?)
    requires a in f.par && b in f.par && f.par[a] != null && f.par[b] != null && h.par == Swapped(f, a, b).par
    ensures Placed(h, c) ==> Placed(f, c)
  {
  }

  method SwapThere(wm: Wm, first: Con, second: Con, ghost s: set<Con>, ghost f: Forest, ghost r: Rank,
                   ghost pct: Shares, ghost u: Flags, ghost one: Placement, ghost two: Placement, ghost focused: Con)
    returns (ghost h: Forest, ghost after: Shares, ghost v: Flags)
    requires wm.focused == focused && focused in s && LinksAre(s, f) && Shaped(f, {}, r)
    requires PercentsAre(s, pct) && FlagsAre(s, u) && f.par[focused] != null && Swappable(f, r, first, second)
    requires first.fullscreen == second.fullscreen
    requires Geometry(first) == one && Geometry(second) == two
    modifies wm`focused, s`parent, s`nodes, s`focus, s`urgent, s`percent
    modifies {first, second}`floating, {first, second}`rect, {first, second}`windowRect
    ensures LinksAre(s, h) && PercentsAre(s, after) && FlagsAre(s, v)
    ensures SwapDone(f, r, pct, u, first, second, focused, h, after, v)
    ensures wm.focused == FocusAfter(f.par, r, first, second, focused)
    ensures Geometry(first) == two && Geometry(second) == one
    ensures first.fullscreen == second.fullscreen
  {
    var ok;
    ok, h, after, v := ConSwap(wm, first, second, s, f, r, pct, u);
  }

  method SwapOnce(wm: Wm, first: Con, second: Con, ghost s: set<Con>, ghost f: Forest, ghost r: Rank, ghost q: Rank,
                  ghost pct: Shares, ghost u: Flags, ghost one: Placement, ghost two: Placement)
    returns (ghost once: Con?, ghost h: Forest, ghost after: Shares, ghost v: Flags)
    requires wm.focused in s && LinksAre(s, f) && Shaped(f, {}, r) && PercentsAre(s, pct) && FlagsAre(s, u)
    requires Placed(f, wm.focused) && Swappable(f, r, first, second) && q == Lifted(f.par, r, first, second)
    requires first.fullscreen == second.fullscreen
    requires Geometry(first) == one && Geometry(second) == two
    modifies wm`focused, s`parent, s`nodes, s`focus, s`urgent, s`percent
    modifies {first, second}`floating, {first, second}`rect, {first, second}`windowRect
    ensures LinksAre(s, h) && PercentsAre(s, after) && FlagsAre(s, v) && Moved(f, r, pct, first, second, once, h, after)
    ensures Shaped(h, {}, q) && Swappable(h, q, first, second) && wm.focused in s && Placed(h, wm.focused)
    ensures Geometry(first) == two && Geometry(second) == one
    ensures first.fullscreen == second.fullscreen
  {
    ghost var focused := wm.focused;
    once := FocusTarget(f.par, r, first, second, focused);
    h, after, v := SwapThere(wm, first, second, s, f, r, pct, u, one, two, focused);
    MovedOnce(f, r, pct, u, first, second, focused, h, after, v);
  }

  /** con_swap twice: links, rects and floating flags are restored, and so are the percentages. */
  method SwapAndBack(wm: Wm, first: Con, second: Con, ghost s: set<Con>, ghost f: Forest, ghost r: Rank,
                     ghost pct: Shares, ghost u: Flags)
    returns (ghost h: Forest, ghost after: Shares)
    requires wm.focused in s && LinksAre(s, f) && Shaped(f, {}, r) && PercentsAre(s, pct) && FlagsAre(s, u)
    requires Placed(f, wm.focused) && Swappable(f, r, first, second)
    requires first.fullscreen == second.fullscreen
    modifies wm`focused, s`parent, s`nodes, s`focus, s`urgent, s`percent
    modifies {first, second}`floating, {first, second}`rect, {first, second}`windowRect
    ensures LinksAre(s, h) && SamePlaces(f, h)
    ensures PercentsAre(s, after) && SharesRestored(f, pct, after, first, second)
    ensures Geometry(first) == old(Geometry(first)) && Geometry(second) == old(Geometry(second))
  {
    ghost var q, one, two := Lifted(f.par, r, first, second), Geometry(first), Geometry(second);
    var once, g, moved, w := SwapOnce(wm, first, second, s, f, r, q, pct, u, one, two);
    ghost var p := Lifted(g.par, q, first, second);
    var twice, h2, after2, v := SwapOnce(wm, first, second, s, g, q, p, moved, w, two, one);
    MovedTwice(f, r, first, second, pct, once, g, moved, q, twice, h2, after2);
    h, after := h2, after2;
  }
}
