/** con_swap as the code performs it. */
module SwapOps {
  import opened Lists
  import opened Tree
  import opened Urgency
  import opened Focus
  import opened FocusOps
  import opened Percent
  import opened Swap
  import opened SwapFocus
  import opened SwapUrgency

  // ---- SWAP_CONS_IN_TREE -----------------------------------------------------------------------

  /** What the macro demands of the two lists; p and q may be the same container. */
  predicate Tradable(s1: seq<Con>, s2: seq<Con>, first: Con, second: Con, same: bool) {
    first in s1 && second in s2 && first != second && if same then s1 == s2 else second !in s1 && first !in s2
  }

  /** SWAP_CONS_IN_TREE(nodes_head, nodes) */
  method SwapInNodes(p: Con, q: Con, first: Con, second: Con)
    requires NoDup(p.nodes) && NoDup(q.nodes) && Tradable(p.nodes, q.nodes, first, second, p == q)
    modifies p`nodes, q`nodes
    ensures p.nodes == Trade(old(p.nodes), first, second) && q.nodes == Trade(old(q.nodes), first, second)
  {
    var firstPrev, secondPrev := PrevOf(p.nodes, first), PrevOf(q.nodes, second);
    if secondPrev == Some(first) {
      SwapNextTrades(p.nodes, first, second);
      p.nodes := SwapNext(p.nodes, first);
    } else if firstPrev == Some(second) {
      SwapNextTrades(p.nodes, second, first);
      p.nodes := SwapNext(p.nodes, second);
    } else {
      if p == q {
        StepsTrade(p.nodes, first, second);
      } else {
        PutAcross(p.nodes, first, second);
        PutAcross(q.nodes, second, first);
      }
      p.nodes := Remove(p.nodes, first);
      q.nodes := Remove(q.nodes, second);
      q.nodes := Put(q.nodes, secondPrev, first);
      p.nodes := Put(p.nodes, firstPrev, second);
    }
  }

  /** SWAP_CONS_IN_TREE(focus_head, focused) */
  method SwapInFocus(p: Con, q: Con, first: Con, second: Con)
    requires NoDup(p.focus) && NoDup(q.focus) && Tradable(p.focus, q.focus, first, second, p == q)
    modifies p`focus, q`focus
    ensures p.focus == Trade(old(p.focus), first, second) && q.focus == Trade(old(q.focus), first, second)
  {
    var firstPrev, secondPrev := PrevOf(p.focus, first), PrevOf(q.focus, second);
    if secondPrev == Some(first) {
      SwapNextTrades(p.focus, first, second);
      p.focus := SwapNext(p.focus, first);
    } else if firstPrev == Some(second) {
      SwapNextTrades(p.focus, second, first);
      p.focus := SwapNext(p.focus, second);
    } else {
      if p == q {
        StepsTrade(p.focus, first, second);
      } else {
        PutAcross(p.focus, first, second);
        PutAcross(q.focus, second, first);
      }
      p.focus := Remove(p.focus, first);
      q.focus := Remove(q.focus, second);
      q.focus := Put(q.focus, secondPrev, first);
      p.focus := Put(p.focus, firstPrev, second);
    }
  }

  // ---- the tree as a whole ---------------------------------------------------------------------

  lemma ListsTradable(f: Forest, r: Rank, a: Con, b: Con)
    requires Shaped(f, {}, r) && Swappable(f, r, a, b) && a.kind != CtFloatingCon
    ensures var p, q := f.par[a], f.par[b];
            && p in f.par && q in f.par
            && NoDup(f.nodes[p]) && NoDup(f.nodes[q]) && Tradable(f.nodes[p], f.nodes[q], a, b, p == q)
            && NoDup(f.focus[p]) && NoDup(f.focus[q]) && Tradable(f.focus[p], f.focus[q], a, b, p == q)
  {
    var p, q := f.par[a], f.par[b];
    assert Linked(f, {}, p) && Linked(f, {}, q);
    assert ChildOf(f.par, {}, a, p) && ChildOf(f.par, {}, b, q);
    assert p != q ==> !ChildOf(f.par, {}, a, q) && !ChildOf(f.par, {}, b, p);
  }

  /** Only the two parents' lists change. */
  lemma TradesElsewhere(f: Forest, r: Rank, a: Con, b: Con, c: Con)
    requires Shaped(f, {}, r) && Swappable(f, r, a, b) && c in f.par && c != f.par[a] && c != f.par[b]
    ensures Trade(f.nodes[c], a, b) == f.nodes[c] && Trade(f.focus[c], a, b) == f.focus[c]
  {
    assert Linked(f, {}, c);
    assert !ChildOf(f.par, {}, a, c) && !ChildOf(f.par, {}, b, c);
    TradeTwice(f.nodes[c], a, b);
    TradeTwice(f.focus[c], a, b);
  }

  method SwapAllNodes(first: Con, second: Con, ghost s: set<Con>, ghost f: Forest, ghost r: Rank)
    requires LinksAre(s, f) && Shaped(f, {}, r) && Swappable(f, r, first, second)
    modifies s`nodes
    ensures LinksAre(s, f.(nodes := Trades(f.nodes, first, second)))
  {
    ListsTradable(f, r, first, second);
    SwapInNodes(first.parent, second.parent, first, second);
    forall c | c in s && c != first.parent && c != second.parent
      ensures Trade(f.nodes[c], first, second) == f.nodes[c]
    {
      TradesElsewhere(f, r, first, second, c);
    }
  }

  method SwapAllFocus(first: Con, second: Con, ghost s: set<Con>, ghost f: Forest, ghost r: Rank, ghost g: Forest)
    requires LinksAre(s, g) && Shaped(f, {}, r) && Swappable(f, r, first, second) && g.par == f.par &&
             g.focus == f.focus
    modifies s`focus
    ensures LinksAre(s, g.(focus := Trades(f.focus, first, second)))
  {
    var p: Con, q: Con := first.parent, second.parent;
    ListsTradable(f, r, first, second);
    FocusElsewhere(f, r, first, second, g);
    SwapInFocus(p, q, first, second);
  }

  lemma FocusElsewhere(f: Forest, r: Rank, a: Con, b: Con, g: Forest)
    requires Shaped(f, {}, r) && Swappable(f, r, a, b) && g.focus == f.focus
    ensures forall c :: c in f.focus && c != f.par[a] && c != f.par[b] ==> Trades(g.focus, a, b)[c] == g.focus[c]
  {
    forall c | c in f.focus && c != f.par[a] && c != f.par[b] ensures Trade(f.focus[c], a, b) == f.focus[c] {
      TradesElsewhere(f, r, a, b, c);
    }
  }

  method SwapParents(first: Con, second: Con, ghost s: set<Con>, ghost f: Forest)
    requires first in s && second in s && first != second && LinksAre(s, f)
    modifies s`parent
    ensures LinksAre(s, f.(par := f.par[first := f.par[second]][second := f.par[first]]))
  {
    ExchangeParents(first, second);
  }

  method ExchangeParents(first: Con, second: Con)
    modifies first`parent, second`parent
    ensures first.parent == old(second.parent) && second.parent == old(first.parent)
  {
    first.parent, second.parent := second.parent, first.parent;
  }

  /** The two SWAP_CONS_IN_TREE and the exchange of the parent pointers. */
  method SwapLinks(first: Con, second: Con, ghost s: set<Con>, ghost f: Forest, ghost r: Rank)
    requires LinksAre(s, f) && Shaped(f, {}, r) && Swappable(f, r, first, second)
    modifies s`parent, s`nodes, s`focus
    ensures LinksAre(s, Swapped(f, first, second))
  {
    ghost var g := f.(nodes := Trades(f.nodes, first, second));
    SwapAllNodes(first, second, s, f, r);
    SwapAllFocus(first, second, s, f, r, g);
    SwapParents(first, second, s, g.(focus := Trades(f.focus, first, second)));
  }

  /** con_has_parent */
  method ConHasParent(con: Con, parent: Con, ghost s: set<Con>, ghost f: Forest, ghost r: Rank) returns (b: bool)
    requires con in s && LinksAre(s, f) && Ranked(f.par, r)
    ensures b == (con != parent && Within(f.par, r, con, parent))
    decreases r.top - r.h[con]
  {
    var current := con.parent;
    if current == null {
      return false;
    }
    if current == parent {
      return true;
    }
    b := ConHasParent(current, parent, s, f, r);
    if Within(f.par, r, current, parent) { WithinRank(f.par, r, current, parent); }
  }

  method RestoreFocus(first: Con, second: Con, focused: Con, ghost s: set<Con>, ghost f: Forest,
                      ghost r: Rank) returns (restore: Con?)
    requires first in s && second in s && focused in s && LinksAre(s, f) && Ranked(f.par, r)
    ensures restore == FocusTarget(f.par, r, first, second, focused)
  {
    var ws1 := ConGetWorkspace(first, s, f, r);
    var ws2 := ConGetWorkspace(second, s, f, r);
    var ws := ConGetWorkspace(focused, s, f, r);
    if ws1 == ws2 && ws1 == ws {
      return focused;
    }
    var inFirst := ConHasParent(focused, first, s, f, r);
    if first == focused || inFirst {
      return second;
    }
    var inSecond := ConHasParent(focused, second, s, f, r);
    if second == focused || inSecond {
      return first;
    }
    restore := null;
  }

  // ---- percentages -----------------------------------------------------------------------------

  type Shares = map<Con, real>

  ghost predicate PercentsAre(s: set<Con>, pct: Shares)
    reads s`percent
  {
    pct.Keys == s && forall c {:trigger c.percent} :: c in s ==> c.percent == pct[c]
  }

  /** The shares along a list of children. */
  ghost function Along(pct: Shares, l: seq<Con>): (ps: seq<real>)
    requires forall x :: x in l ==> x in pct
    ensures |ps| == |l| && forall i :: 0 <= i < |l| ==> ps[i] == pct[l[i]]
  {
    seq(|l|, i requires 0 <= i < |l| => assert l[i] in l; pct[l[i]])
  }

  ghost function Exchanged(pct: Shares, a: Con, b: Con): (after: Shares)
    requires a in pct && b in pct
    ensures after.Keys == pct.Keys
  {
    pct[a := pct[b]][b := pct[a]]
  }

  ghost predicate Listed(nodes: Kids, pct: Shares) {
    forall c, x {:trigger x in nodes[c]} :: c in nodes && x in nodes[c] ==> x in pct
  }

  lemma ShapedListed(f: Forest, r: Rank, pct: Shares)
    requires Shaped(f, {}, r) && pct.Keys == f.par.Keys
    ensures Listed(f.nodes, pct)
  {
    forall c, x | c in f.nodes && x in f.nodes[c] ensures x in pct {
      assert Linked(f, {}, c);
      assert ChildOf(f.par, {}, x, c);
    }
  }

  /** Exchanging the percentages along with the places leaves the shares of every list as they were. */
  lemma SharesStay(f: Forest, r: Rank, a: Con, b: Con, pct: Shares, c: Con)
    requires Shaped(f, {}, r) && Swappable(f, r, a, b) && pct.Keys == f.par.Keys && c in f.par
    ensures var after := Exchanged(pct, a, b);
            && (forall x :: x in Trade(f.nodes[c], a, b) ==> x in after) && (forall x :: x in f.nodes[c] ==> x in pct)
            && Along(after, Trade(f.nodes[c], a, b)) == Along(pct, f.nodes[c])
  {
    var after := Exchanged(pct, a, b);
    var l, t := f.nodes[c], Trade(f.nodes[c], a, b);
    ShapedListed(f, r, pct);
    assert Linked(f, {}, c);
    TradeFacts(l, a, b);
    forall i | 0 <= i < |l| ensures l[i] in pct && t[i] in after && after[t[i]] == pct[l[i]] {
      assert l[i] in l;
    }
  }

  /** The shares after con_fix_percent on p and q. */
  ghost predicate FixedAt(nodes: Kids, pct: Shares, after: Shares, p: Con, q: Con) {
    && Listed(nodes, pct) && Listed(nodes, after)
    && forall c {:trigger Along(after, nodes[c])} :: c in nodes ==>
         Along(after, nodes[c]) == if c == p || c == q then Fixed(Along(pct, nodes[c])) else Along(pct, nodes[c])
  }

  lemma AlongSame(pct: Shares, after: Shares, l: seq<Con>)
    requires forall x :: x in l ==> x in pct && x in after && after[x] == pct[x]
    ensures Along(after, l) == Along(pct, l)
  {
    forall i | 0 <= i < |l| ensures Along(after, l)[i] == Along(pct, l)[i] {
      assert l[i] in l;
    }
  }

  lemma ChildrenElsewhere(f: Forest, r: Rank, con: Con, c: Con)
    requires Shaped(f, {}, r) && con in f.par && c in f.par && c != con
    ensures forall x :: x in f.nodes[c] ==> x in f.par && x !in f.nodes[con]
  {
    assert Linked(f, {}, con) && Linked(f, {}, c);
    forall x | x in f.nodes[c] ensures x in f.par && x !in f.nodes[con] {
      assert ChildOf(f.par, {}, x, c);
    }
  }

  /** con_fix_percent on one container of the tree: the shares of no other container's children change. */
  method FixPercentOf(con: Con, ghost s: set<Con>, ghost f: Forest, ghost r: Rank, ghost pct: Shares)
    returns (ghost after: Shares)
    requires con in s && LinksAre(s, f) && Shaped(f, {}, r) && PercentsAre(s, pct) && Listed(f.nodes, pct)
    modifies s`percent
    ensures LinksAre(s, f) && PercentsAre(s, after) && FixedAt(f.nodes, pct, after, con, con)
  {
    after := FixPercentIn(con, s, f, r, pct);
    forall c | c in s && c != con ensures Along(after, f.nodes[c]) == Along(pct, f.nodes[c]) {
      ChildrenElsewhere(f, r, con, c);
      AlongSame(pct, after, f.nodes[c]);
    }
  }

  method FixPercentIn(con: Con, ghost s: set<Con>, ghost f: Forest, ghost r: Rank, ghost pct: Shares)
    returns (ghost after: Shares)
    requires con in s && LinksAre(s, f) && Shaped(f, {}, r) && PercentsAre(s, pct) && Listed(f.nodes, pct)
    modifies s`percent
    ensures LinksAre(s, f) && PercentsAre(s, after) && Listed(f.nodes, after)
    ensures Along(after, f.nodes[con]) == Fixed(Along(pct, f.nodes[con]))
    ensures forall x :: x in s && x !in f.nodes[con] ==> after[x] == pct[x]
  {
    assert Linked(f, {}, con);
    ConFixPercent(con, Along(pct, f.nodes[con]));
    after := map c | c in s :: c.percent;
  }

  /** What else a container gives to the other one. */
  datatype Placement = Placement(floating: Floating, rect: Rect, windowRect: Rect)

  function Geometry(con: Con): Placement
    reads con`floating, con`rect, con`windowRect
  {
    Placement(con.floating, con.rect, con.windowRect)
  }

  method SwapFields(first: Con, second: Con, ghost s: set<Con>, ghost pct: Shares, ghost one: Placement,
                    ghost two: Placement)
    requires first in s && second in s && first != second && PercentsAre(s, pct)
    requires Geometry(first) == one && Geometry(second) == two
    modifies {first, second}`floating, {first, second}`rect, {first, second}`windowRect, {first, second}`percent
    ensures Geometry(first) == two && Geometry(second) == one && PercentsAre(s, Exchanged(pct, first, second))
  {
    first.floating, second.floating := second.floating, first.floating;
    first.rect, second.rect := second.rect, first.rect;
    first.windowRect, second.windowRect := second.windowRect, first.windowRect;
    first.percent, second.percent := second.percent, first.percent;
  }

  // ---- con_swap --------------------------------------------------------------------------------

  ghost predicate Placed(g: Forest, c: Con?) {
    c != null ==> c in g.par && g.par[c] != null
  }

  ghost function Refocused(g: Forest, q: Rank, restore: Con?): (h: Forest)
    requires SameKeys(g) && Ranked(g.par, q) && Placed(g, restore)
    ensures h.par == g.par && h.nodes == g.nodes && h.floats == g.floats
  {
    if restore == null then g else g.(focus := FocusUp(g.par, q, g.focus, restore))
  }

  lemma RefocusedShaped(g: Forest, q: Rank, restore: Con?)
    requires Shaped(g, {}, q) && Placed(g, restore)
    ensures Shaped(Refocused(g, q, restore), {}, q)
  {
    if restore != null { FocusUpShaped(g, q, restore); }
  }

  lemma ShapedSane(g: Forest, q: Rank, u: Flags)
    requires Shaped(g, {}, q) && u.Keys == g.par.Keys
    ensures Sane(g.par, g.nodes, q, u)
  {
    ListsGoDown(g, {}, q);
  }

  lemma NothingCleared(g: Forest, q: Rank, u: Flags)
    requires Sane(g.par, g.nodes, q, u)
    ensures Settled(g, q, u, u, null)
  {
  }

  method RestoreStep(wm: Wm, restore: Con?, ghost s: set<Con>, ghost g: Forest, ghost q: Rank, ghost h: Forest,
                     ghost pct: Shares, ghost u: Flags)
    returns (ghost w: Flags)
    requires LinksAre(s, g) && Shaped(g, {}, q) && FlagsAre(s, u) && Sane(g.par, g.nodes, q, u)
    requires Placed(g, restore) && h == Refocused(g, q, restore) && PercentsAre(s, pct)
    modifies wm`focused, s`focus, s`urgent
    ensures wm.focused == if restore == null then old(wm.focused) else restore
    ensures LinksAre(s, h) && FlagsAre(s, w) && PercentsAre(s, pct) && Settled(g, q, u, w, restore)
  {
    if restore != null {
      w := ConFocus(wm, restore, s, g, q, u);
    } else {
      w := u;
      NothingCleared(g, q, u);
    }
  }

  /** con_set_urgency(con, con->urgent); only the parents and tiled children of h matter, which are those of g. */
  method RefreshUrgency(wm: Wm, con: Con, ghost s: set<Con>, ghost g: Forest, ghost q: Rank, ghost h: Forest,
                        ghost w: Flags)
    returns (ghost x: Flags)
    requires con in s && LinksAre(s, h) && FlagsAre(s, w) && Sane(g.par, g.nodes, q, w)
    requires h.par == g.par && h.nodes == g.nodes && Down(h.floats, q)
    modifies s`urgent
    ensures LinksAre(s, h) && FlagsAre(s, x) && Sane(g.par, g.nodes, q, x) && Stepped(g, q, w, x, con, wm.focused)
  {
    x := AfterSetUrgency(h, q, w, con, con.urgent, wm.focused);
    ConSetUrgency(wm, con, con.urgent, s, h, q, w);
  }

  method RefreshBoth(wm: Wm, first: Con, second: Con, ghost s: set<Con>, ghost g: Forest, ghost q: Rank,
                     ghost h: Forest, ghost pct: Shares, ghost w: Flags)
    returns (ghost x: Flags, ghost v: Flags)
    requires first in s && second in s && LinksAre(s, h) && FlagsAre(s, w) && Sane(g.par, g.nodes, q, w)
    requires h.par == g.par && h.nodes == g.nodes && Down(h.floats, q) && PercentsAre(s, pct)
    modifies s`urgent
    ensures LinksAre(s, h) && FlagsAre(s, v) && PercentsAre(s, pct)
    ensures Sane(g.par, g.nodes, q, x) && Sane(g.par, g.nodes, q, v)
    ensures Stepped(g, q, w, x, first, wm.focused) && Stepped(g, q, x, v, second, wm.focused)
  {
    x := RefreshUrgency(wm, first, s, g, q, h, w);
    v := RefreshUrgency(wm, second, s, g, q, h, x);
  }

  method FocusStep(wm: Wm, first: Con, second: Con, restore: Con?, ghost s: set<Con>, ghost g: Forest, ghost q: Rank,
                   ghost h: Forest, ghost pct: Shares, ghost u: Flags)
    returns (ghost t: Course)
    requires first in s && second in s && LinksAre(s, g) && Shaped(g, {}, q) && FlagsAre(s, u) &&
             Sane(g.par, g.nodes, q, u)
    requires Placed(g, restore) && h == Refocused(g, q, restore) && PercentsAre(s, pct)
    modifies wm`focused, s`focus, s`urgent
    ensures wm.focused == if restore == null then old(wm.focused) else restore
    ensures LinksAre(s, h) && PercentsAre(s, pct) && FlagsAre(s, t.last)
    ensures t.start == u && Traced(g, q, t, first, second, restore, wm.focused)
  {
    ListsGoDown(g, {}, q);
    ghost var w := RestoreStep(wm, restore, s, g, q, h, pct, u);
    ghost var x, v := RefreshBoth(wm, first, second, s, g, q, h, pct, w);
    t := Course(u, w, x, v);
  }

  lemma FixedAtBoth(nodes: Kids, pct: Shares, mid: Shares, after: Shares, p: Con, q: Con)
    requires FixedAt(nodes, pct, mid, p, p) && FixedAt(nodes, mid, after, q, q) && p in nodes
    ensures FixedAt(nodes, pct, after, p, q)
  {
    FixedIdempotent(Along(pct, nodes[p]));
  }

  method PercentStep(wm: Wm, p: Con, q: Con, ghost s: set<Con>, ghost f: Forest, ghost r: Rank, ghost pct: Shares,
                     ghost v: Flags, ghost focused: Con)
    returns (ghost after: Shares)
    requires p in s && q in s && LinksAre(s, f) && Shaped(f, {}, r) && PercentsAre(s, pct) && Listed(f.nodes, pct)
    requires FlagsAre(s, v) && wm.focused == focused
    modifies s`percent
    ensures LinksAre(s, f) && PercentsAre(s, after) && FixedAt(f.nodes, pct, after, p, q)
    ensures FlagsAre(s, v) && wm.focused == focused
  {
    ghost var mid := FixPercentOf(p, s, f, r, pct);
    after := FixPercentOf(q, s, f, r, mid);
    FixedAtBoth(f.nodes, pct, mid, after, p, q);
  }

  /** The code after the exchange of links and fields; h has the focus restored, p and q are the parents. */
  method FinishSwap(wm: Wm, first: Con, second: Con, restore: Con?, ghost s: set<Con>, ghost g: Forest, ghost q: Rank,
                    ghost h: Forest, ghost pct: Shares, ghost u: Flags)
    returns (ghost after: Shares, ghost t: Course)
    requires first in s && second in s && LinksAre(s, g) && Shaped(g, {}, q) && Placed(g, restore)
    requires PercentsAre(s, pct) && Listed(g.nodes, pct) && FlagsAre(s, u) && Sane(g.par, g.nodes, q, u)
    requires g.par[first] != null && g.par[second] != null && h == Refocused(g, q, restore) && Shaped(h, {}, q)
    modifies wm`focused, s`focus, s`urgent, s`percent
    ensures wm.focused == if restore == null then old(wm.focused) else restore
    ensures LinksAre(s, h) && PercentsAre(s, after) && FlagsAre(s, t.last)
    ensures FixedAt(g.nodes, pct, after, g.par[first], g.par[second])
    ensures t.start == u && Traced(g, q, t, first, second, restore, wm.focused)
  {
    t := FocusStep(wm, first, second, restore, s, g, q, h, pct, u);
    after := PercentStep(wm, first.parent, second.parent, s, h, q, pct, t.last, wm.focused);
  }

  method FinishFramed(wm: Wm, first: Con, second: Con, restore: Con?, ghost s: set<Con>, ghost g: Forest, ghost q: Rank,
                      ghost h: Forest, ghost pct: Shares, ghost u: Flags, ghost one: Placement, ghost two: Placement)
    returns (ghost after: Shares, ghost t: Course)
    requires first in s && second in s && LinksAre(s, g) && Shaped(g, {}, q) && Placed(g, restore)
    requires PercentsAre(s, pct) && Listed(g.nodes, pct) && FlagsAre(s, u) && Sane(g.par, g.nodes, q, u)
    requires g.par[first] != null && g.par[second] != null && h == Refocused(g, q, restore) && Shaped(h, {}, q)
    requires Geometry(first) == two && Geometry(second) == one
    modifies wm`focused, s`focus, s`urgent, s`percent
    ensures wm.focused == if restore == null then old(wm.focused) else restore
    ensures LinksAre(s, h) && PercentsAre(s, after) && FlagsAre(s, t.last)
    ensures FixedAt(g.nodes, pct, after, g.par[first], g.par[second])
    ensures t.start == u && Traced(g, q, t, first, second, restore, wm.focused)
    ensures Geometry(first) == two && Geometry(second) == one
  {
    after, t := FinishSwap(wm, first, second, restore, s, g, q, h, pct, u);
  }

  /** The links after con_swap: those of the exchange, with `restore` focused again. */
  ghost function Result(f: Forest, r: Rank, first: Con, second: Con, restore: Con?): (g: Forest)
    requires Shaped(f, {}, r) && Swappable(f, r, first, second) &&
             (restore != null ==> restore in f.par && f.par[restore] != null)
    ensures g.par == Swapped(f, first, second).par && g.nodes == Trades(f.nodes, first, second) && g.floats == f.floats
  {
    SwapRanked(f, r, first, second);
    Refocused(Swapped(f, first, second), Lifted(f.par, r, first, second), restore)
  }

  /** ... form a tree again. */
  lemma ResultShaped(f: Forest, r: Rank, first: Con, second: Con, restore: Con?)
    requires Shaped(f, {}, r) && Swappable(f, r, first, second) &&
             (restore != null ==> restore in f.par && f.par[restore] != null)
    ensures Shaped(Result(f, r, first, second, restore), {}, Lifted(f.par, r, first, second))
  {
    SwapShaped(f, r, first, second);
    RefocusedShaped(Swapped(f, first, second), Lifted(f.par, r, first, second), restore);
  }

  method LinksStep(first: Con, second: Con, ghost s: set<Con>, ghost f: Forest, ghost r: Rank, ghost g: Forest)
    requires LinksAre(s, f) && Shaped(f, {}, r) && Swappable(f, r, first, second) && g == Swapped(f, first, second)
    modifies s`parent, s`nodes, s`focus
    ensures LinksAre(s, g)
  {
    SwapLinks(first, second, s, f, r);
  }

  method ExchangeStep(first: Con, second: Con, ghost s: set<Con>, ghost f: Forest, ghost r: Rank, ghost g: Forest,
                      ghost pct: Shares, ghost moved: Shares, ghost one: Placement, ghost two: Placement)
    requires LinksAre(s, f) && Shaped(f, {}, r) && Swappable(f, r, first, second) && PercentsAre(s, pct)
    requires g == Swapped(f, first, second) && moved == Exchanged(pct, first, second)
    requires Geometry(first) == one && Geometry(second) == two
    modifies s`parent, s`nodes, s`focus
    modifies {first, second}`floating, {first, second}`rect, {first, second}`windowRect, {first, second}`percent
    ensures LinksAre(s, g) && PercentsAre(s, moved)
    ensures Geometry(first) == two && Geometry(second) == one
  {
    LinksStep(first, second, s, f, r, g);
    SwapFields(first, second, s, pct, one, two);
  }

  /** The shares along every list after con_swap: as before, and fixed for the two parents. */
  ghost predicate SharesKept(f: Forest, pct: Shares, after: Shares, a: Con, b: Con)
    requires a in f.par && b in f.par
  {
    && Listed(f.nodes, pct) && Listed(Trades(f.nodes, a, b), after)
    && forall c {:trigger Along(after, Trade(f.nodes[c], a, b))} :: c in f.nodes ==>
         Along(after, Trade(f.nodes[c], a, b)) ==
         if c == f.par[a] || c == f.par[b] then Fixed(Along(pct, f.nodes[c])) else Along(pct, f.nodes[c])
  }

  lemma FixedKept(f: Forest, r: Rank, a: Con, b: Con, pct: Shares, moved: Shares, after: Shares)
    requires Shaped(f, {}, r) && Swappable(f, r, a, b) && pct.Keys == f.par.Keys
    requires moved == Exchanged(pct, a, b)
    requires FixedAt(Trades(f.nodes, a, b), moved, after, f.par[b], f.par[a])
    ensures SharesKept(f, pct, after, a, b)
  {
    ShapedListed(f, r, pct);
    forall c | c in f.nodes
      ensures Along(after, Trade(f.nodes[c], a, b)) ==
              if c == f.par[a] || c == f.par[b] then Fixed(Along(pct, f.nodes[c])) else Along(pct, f.nodes[c])
    {
      SharesStay(f, r, a, b, pct, c);
      assert Trades(f.nodes, a, b)[c] == Trade(f.nodes[c], a, b);
    }
  }

  /** The conditions con_swap checks first. */
  method SwapAllowed(first: Con, second: Con, ghost s: set<Con>, ghost f: Forest, ghost r: Rank) returns (ok: bool)
    requires first in s && second in s && LinksAre(s, f) && Ranked(f.par, r)
    requires (first.kind == CtCon ==> first.parent != null) && (second.kind == CtCon ==> second.parent != null)
    ensures ok <==> Swappable(f, r, first, second)
  {
    if first.kind != CtCon || second.kind != CtCon || first == second {
      return false;
    }
    var inSecond := ConHasParent(first, second, s, f, r);
    var inFirst := ConHasParent(second, first, s, f, r);
    ok := !inSecond && !inFirst;
  }

  method ExchangeFramed(wm: Wm, first: Con, second: Con, ghost s: set<Con>, ghost f: Forest, ghost r: Rank,
                        ghost g: Forest, ghost pct: Shares, ghost moved: Shares, ghost u: Flags, ghost one: Placement,
                        ghost two: Placement, ghost focused: Con)
    requires LinksAre(s, f) && Shaped(f, {}, r) && Swappable(f, r, first, second) && PercentsAre(s, pct) &&
             FlagsAre(s, u)
    requires g == Swapped(f, first, second) && moved == Exchanged(pct, first, second)
    requires Geometry(first) == one && Geometry(second) == two && wm.focused == focused
    modifies s`parent, s`nodes, s`focus
    modifies {first, second}`floating, {first, second}`rect, {first, second}`windowRect, {first, second}`percent
    ensures LinksAre(s, g) && PercentsAre(s, moved) && FlagsAre(s, u)
    ensures Geometry(first) == two && Geometry(second) == one && wm.focused == focused
  {
    ExchangeStep(first, second, s, f, r, g, pct, moved, one, two);
  }

  /** The tree in between, and that with the focus restored. */
  ghost predicate Midway(f: Forest, r: Rank, pct: Shares, u: Flags, a: Con, b: Con, restore: Con?,
                         g: Forest, q: Rank, moved: Shares, h: Forest)
    requires Shaped(f, {}, r) && Swappable(f, r, a, b) && pct.Keys == f.par.Keys == u.Keys
  {
    && g == Swapped(f, a, b) && q == Lifted(f.par, r, a, b) && moved == Exchanged(pct, a, b)
    && Shaped(g, {}, q) && Listed(g.nodes, moved) && Sane(g.par, g.nodes, q, u) && Placed(g, restore)
    && g.par[a] == f.par[b] && g.par[b] == f.par[a]
    && h == Refocused(g, q, restore) && Shaped(h, {}, q)
  }

  lemma SwapReady(f: Forest, r: Rank, a: Con, b: Con, pct: Shares, u: Flags, restore: Con?)
    returns (g: Forest, q: Rank, moved: Shares, h: Forest)
    requires Shaped(f, {}, r) && Swappable(f, r, a, b) && pct.Keys == f.par.Keys == u.Keys && Placed(f, restore)
    ensures Midway(f, r, pct, u, a, b, restore, g, q, moved, h)
  {
    g, q, moved := Swapped(f, a, b), Lifted(f.par, r, a, b), Exchanged(pct, a, b);
    SwapShaped(f, r, a, b);
    ShapedListed(g, q, moved);
    ShapedSane(g, q, u);
    h := Refocused(g, q, restore);
    RefocusedShaped(g, q, restore);
  }

  /** ... and the rest of it. */
  method PerformSwap(wm: Wm, first: Con, second: Con, restore: Con?, ghost s: set<Con>, ghost f: Forest, ghost r: Rank,
                     ghost g: Forest, ghost q: Rank, ghost h: Forest, ghost pct: Shares, ghost moved: Shares,
                     ghost u: Flags, ghost one: Placement, ghost two: Placement, ghost focused: Con)
    returns (ghost after: Shares, ghost t: Course)
    requires LinksAre(s, f) && Shaped(f, {}, r) && PercentsAre(s, pct) && FlagsAre(s, u) &&
             Swappable(f, r, first, second)
    requires Midway(f, r, pct, u, first, second, restore, g, q, moved, h)
    requires Geometry(first) == one && Geometry(second) == two && wm.focused == focused
    modifies wm`focused, s`parent, s`nodes, s`focus, s`urgent, s`percent
    modifies {first, second}`floating, {first, second}`rect, {first, second}`windowRect
    ensures wm.focused == if restore == null then focused else restore
    ensures LinksAre(s, h) && PercentsAre(s, after) && FlagsAre(s, t.last)
    ensures FixedAt(g.nodes, moved, after, f.par[second], f.par[first])
    ensures t.start == u && Traced(g, q, t, first, second, restore, wm.focused)
    ensures Geometry(first) == two && Geometry(second) == one
  {
    ExchangeFramed(wm, first, second, s, f, r, g, pct, moved, u, one, two, focused);
    after, t := FinishFramed(wm, first, second, restore, s, g, q, h, moved, u, one, two);
  }

  /** All cached flags are right, and so are those of the two. */
  ghost predicate FlagsRight(f: Forest, r: Rank, u: Flags, a: Con, b: Con)
    requires Shaped(f, {}, r) && Swappable(f, r, a, b)
  {
    WellFormed(f, {}, r) && Sane(f.par, f.nodes, r, u) && Consistent(f.par, f.nodes, r, u) && BothCovered(f, r, a, b)
  }

  /** The links, percentages and flags that con_swap leaves. */
  ghost predicate SwapDone(f: Forest, r: Rank, pct: Shares, u: Flags, a: Con, b: Con, focused: Con,
                           h: Forest, after: Shares, v: Flags)
    requires Shaped(f, {}, r) && Swappable(f, r, a, b) && focused in f.par && f.par[focused] != null
    requires pct.Keys == f.par.Keys == u.Keys
  {
    && h == Result(f, r, a, b, FocusTarget(f.par, r, a, b, focused))
    && SharesKept(f, pct, after, a, b)
    && (FlagsRight(f, r, u, a, b) ==>
          UrgencyKept(f, r, u, a, b, Swapped(f, a, b), Lifted(f.par, r, a, b), v, focused))
  }

  lemma SwapIsDone(f: Forest, r: Rank, pct: Shares, a: Con, b: Con, focused: Con, restore: Con?,
                   g: Forest, q: Rank, moved: Shares, h: Forest, after: Shares, t: Course)
    requires Shaped(f, {}, r) && Swappable(f, r, a, b) && focused in f.par && f.par[focused] != null
    requires pct.Keys == f.par.Keys == t.start.Keys && restore == FocusTarget(f.par, r, a, b, focused)
    requires Midway(f, r, pct, t.start, a, b, restore, g, q, moved, h)
    requires FixedAt(g.nodes, moved, after, f.par[b], f.par[a])
    requires Traced(g, q, t, a, b, restore, FocusAfter(f.par, r, a, b, focused))
    ensures SwapDone(f, r, pct, t.start, a, b, focused, h, after, t.last)
  {
    FixedKept(f, r, a, b, pct, moved, after);
    if FlagsRight(f, r, t.start, a, b) { TracedKeeps(f, r, t, a, b, g, q, focused); }
  }

  method SwapThem(wm: Wm, first: Con, second: Con, ghost s: set<Con>, ghost f: Forest, ghost r: Rank, ghost pct: Shares,
                  ghost u: Flags, ghost one: Placement, ghost two: Placement, ghost focused: Con)
    returns (ghost h: Forest, ghost after: Shares, ghost v: Flags)
    requires LinksAre(s, f) && Shaped(f, {}, r) && PercentsAre(s, pct) && FlagsAre(s, u) &&
             Swappable(f, r, first, second)
    requires Geometry(first) == one && Geometry(second) == two
    requires wm.focused == focused && focused in f.par && f.par[focused] != null
    modifies wm`focused, s`parent, s`nodes, s`focus, s`urgent, s`percent
    modifies {first, second}`floating, {first, second}`rect, {first, second}`windowRect
    ensures wm.focused == FocusAfter(f.par, r, first, second, focused)
    ensures LinksAre(s, h) && PercentsAre(s, after) && FlagsAre(s, v)
    ensures Geometry(first) == two && Geometry(second) == one
    ensures SwapDone(f, r, pct, u, first, second, focused, h, after, v)
  {
    var restore := RestoreFocus(first, second, wm.focused, s, f, r);
    ghost var g, q, moved;
    g, q, moved, h := SwapReady(f, r, first, second, pct, u, restore);
    ghost var t;
    after, t := PerformSwap(wm, first, second, restore, s, f, r, g, q, h, pct, moved, u, one, two, focused);
    v := t.last;
    SwapIsDone(f, r, pct, first, second, focused, restore, g, q, moved, h, after, t);
  }

  /** con_swap of two containers in the same fullscreen mode: the exchange of the modes at its end changes nothing. */
  method ConSwap(wm: Wm, first: Con, second: Con, ghost s: set<Con>, ghost f: Forest, ghost r: Rank, ghost pct: Shares,
                 ghost u: Flags)
    returns (ok: bool, ghost h: Forest, ghost after: Shares, ghost v: Flags)
    requires first in s && second in s && wm.focused in s && LinksAre(s, f) && Shaped(f, {}, r)
    requires PercentsAre(s, pct) && FlagsAre(s, u) && f.par[wm.focused] != null
    requires (first.kind == CtCon ==> f.par[first] != null) && (second.kind == CtCon ==> f.par[second] != null)
    requires first.fullscreen == second.fullscreen
    modifies wm`focused, s`parent, s`nodes, s`focus, s`urgent, s`percent
    modifies {first, second}`floating, {first, second}`rect, {first, second}`windowRect
    ensures ok <==> Swappable(f, r, first, second)
    ensures !ok ==> unchanged(s, wm)
    ensures ok ==> LinksAre(s, h) && PercentsAre(s, after) && FlagsAre(s, v)
    ensures ok ==> SwapDone(f, r, pct, u, first, second, old(wm.focused), h, after, v)
    ensures ok ==> wm.focused == FocusAfter(f.par, r, first, second, old(wm.focused))
    ensures ok ==> FocusKept(f, r, first, second, old(wm.focused), h.par, wm.focused)
    ensures ok ==> Geometry(first) == old(Geometry(second)) && Geometry(second) == old(Geometry(first))
  {
    h, after, v := f, pct, u;
    ok := SwapAllowed(first, second, s, f, r);
    if ok {
      SwapKeepsFocus(f, r, first, second, wm.focused);
      h, after, v := SwapThem(wm, first, second, s, f, r, pct, u, Geometry(first), Geometry(second), wm.focused);
    }
  }
}
