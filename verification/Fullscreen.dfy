/** Fullscreen: the breadth-first search for a fullscreen container, and at most one global one at a time. */
module Fullscreen {
  import opened Lists
  import opened Tree
  import opened Urgency

  type Modes = map<Con, FullscreenMode>

  ghost predicate ModesAre(s: set<Con>, m: Modes)
    reads s`fullscreen
  {
    m.Keys == s && forall c {:trigger c.fullscreen} :: c in s ==> c.fullscreen == m[c]
  }

  // ---- levels ------------------------------------------------------------------------------------

  /** The children of the containers of a list, tiled ones first. */
  ghost function Children(f: Forest, s: seq<Con>): seq<Con>
    requires SameKeys(f) && forall c :: c in s ==> c in f.par
  {
    if s == [] then [] else Children(f, s[..|s| - 1]) + f.nodes[s[|s| - 1]] + f.floats[s[|s| - 1]]
  }

  lemma {:induction false} ChildrenIn(f: Forest, r: Rank, s: seq<Con>, x: Con)
    requires Shaped(f, {}, r) && forall c :: c in s ==> c in f.par
    ensures x in Children(f, s) <==> x in f.par && f.par[x] != null && f.par[x] in s
  {
    if s != [] {
      var l, c := s[..|s| - 1], s[|s| - 1];
      assert s == l + [c];
      ChildrenIn(f, r, l, x);
      assert Linked(f, {}, c);
      if x in f.par && f.par[x] == c { assert ChildOf(f.par, {}, x, c); }
      if x in f.nodes[c] || x in f.floats[c] { assert ChildOf(f.par, {}, x, c); }
    }
  }

  /** The descendants of con that are k steps below it, in the order the search meets them. */
  ghost function Level(f: Forest, r: Rank, con: Con, k: nat): (s: seq<Con>)
    requires Shaped(f, {}, r) && con in f.par
    ensures forall c :: c in s ==> c in f.par
  {
    if k == 0 then [con]
    else
      var s := Level(f, r, con, k - 1);
      assert forall x :: x in Children(f, s) ==> x in f.par by {
        forall x | x in Children(f, s) ensures x in f.par { ChildrenIn(f, r, s, x); }
      }
      Children(f, s)
  }

  /** The number of steps from x up to its ancestor a. */
  ghost function Depth(par: Parents, r: Rank, x: Con, a: Con): nat
    requires Ranked(par, r) && x in par && Within(par, r, x, a)
    decreases r.top - r.h[x]
  {
    if x == a then 0 else 1 + Depth(par, r, par[x], a)
  }

  lemma LevelStep(f: Forest, r: Rank, con: Con, k: nat, x: Con)
    requires Shaped(f, {}, r) && con in f.par && k > 0
    ensures x in Level(f, r, con, k) <==> x in f.par && f.par[x] != null && f.par[x] in Level(f, r, con, k - 1)
  {
    ChildrenIn(f, r, Level(f, r, con, k - 1), x);
  }

  lemma DepthStep(par: Parents, r: Rank, x: Con, a: Con)
    requires Ranked(par, r) && x in par && par[x] != null
    ensures Within(par, r, par[x], a) ==>
              Within(par, r, x, a) && x != a && r.h[x] < r.h[par[x]] &&
                  Depth(par, r, x, a) == Depth(par, r, par[x], a) + 1
    ensures Within(par, r, x, a) && x != a ==> Within(par, r, par[x], a)
  {
    if Within(par, r, par[x], a) { WithinRank(par, r, par[x], a); }
  }

  /** x is k steps below con. */
  ghost predicate AtDepth(f: Forest, r: Rank, con: Con, k: nat, x: Con)
    requires Ranked(f.par, r)
  {
    x in f.par && Within(f.par, r, x, con) && Depth(f.par, r, x, con) == k
  }

  lemma AtDepthStep(f: Forest, r: Rank, con: Con, k: nat, x: Con)
    requires Ranked(f.par, r) && con in f.par && k > 0
    ensures AtDepth(f, r, con, k, x) <==> x in f.par && f.par[x] != null && AtDepth(f, r, con, k - 1, f.par[x])
  {
    if x in f.par && f.par[x] != null { DepthStep(f.par, r, x, con); }
  }

  lemma {:induction false} LevelDepth(f: Forest, r: Rank, con: Con, k: nat, x: Con)
    requires Shaped(f, {}, r) && con in f.par
    ensures x in Level(f, r, con, k) <==> AtDepth(f, r, con, k, x)
  {
    if k > 0 {
      LevelStep(f, r, con, k, x);
      AtDepthStep(f, r, con, k, x);
      if x in f.par && f.par[x] != null { LevelDepth(f, r, con, k - 1, f.par[x]); }
    }
  }

  lemma {:induction false} DepthRank(par: Parents, r: Rank, x: Con, a: Con)
    requires Ranked(par, r) && x in par && Within(par, r, x, a)
    ensures a in par && r.h[x] + Depth(par, r, x, a) <= r.h[a]
    decreases r.top - r.h[x]
  {
    if x != a { DepthRank(par, r, par[x], a); }
  }

  /** So there are no more levels than ranks below con. */
  lemma LevelRank(f: Forest, r: Rank, con: Con, k: nat, x: Con)
    requires Shaped(f, {}, r) && con in f.par && x in Level(f, r, con, k)
    ensures x in f.par && r.h[x] + k <= r.h[con]
  {
    LevelDepth(f, r, con, k, x);
    DepthRank(f.par, r, x, con);
  }

  // ---- the search --------------------------------------------------------------------------------

  /** No container of the list, con aside, has the mode. */
  ghost predicate Lacks(m: Modes, s: seq<Con>, con: Con, mode: FullscreenMode) {
    forall c :: c in s && c != con ==> c in m && m[c] != mode
  }

  /** No container of the first k levels has the mode. */
  ghost predicate Passed(f: Forest, r: Rank, m: Modes, con: Con, mode: FullscreenMode, k: nat)
    requires Shaped(f, {}, r) && con in f.par
  {
    k == 0 || (Passed(f, r, m, con, mode, k - 1) && Lacks(m, Level(f, r, con, k - 1), con, mode))
  }

  lemma PassedStep(f: Forest, r: Rank, m: Modes, con: Con, mode: FullscreenMode, k: nat)
    requires Shaped(f, {}, r) && con in f.par && Passed(f, r, m, con, mode, k + 1)
    ensures Passed(f, r, m, con, mode, k) && Lacks(m, Level(f, r, con, k), con, mode)
  {
  }

  lemma {:induction false} PassedAt(f: Forest, r: Rank, m: Modes, con: Con, mode: FullscreenMode, k: nat, j: nat)
    requires Shaped(f, {}, r) && con in f.par && Passed(f, r, m, con, mode, k) && j < k
    ensures Lacks(m, Level(f, r, con, j), con, mode)
    decreases k
  {
    PassedStep(f, r, m, con, mode, k - 1);
    if j < k - 1 { PassedAt(f, r, m, con, mode, k - 1, j); }
  }

  /** The search from con has come to place i of level k without a find. */
  ghost predicate Reached(f: Forest, r: Rank, m: Modes, con: Con, mode: FullscreenMode, k: nat, i: nat)
    requires Shaped(f, {}, r) && con in f.par
  {
    && i <= |Level(f, r, con, k)|
    && Passed(f, r, m, con, mode, k)
    && Lacks(m, Level(f, r, con, k)[..i], con, mode)
  }

  /** What con_get_fullscreen_con promises: a strict descendant with the mode, none being nearer, or null if there is
      none. */
  ghost predicate Nearest(f: Forest, r: Rank, m: Modes, con: Con, mode: FullscreenMode, found: Con?)
    requires Ranked(f.par, r) && m.Keys == f.par.Keys
  {
    && (found == null ==> forall x :: x in f.par && x != con && Within(f.par, r, x, con) ==> m[x] != mode)
    && (found != null ==>
          && found in f.par && found != con && Within(f.par, r, found, con) && m[found] == mode
          && forall x :: x in f.par && x != con && Within(f.par, r, x, con) && m[x] == mode ==>
               Depth(f.par, r, found, con) <= Depth(f.par, r, x, con))
  }

  lemma FoundNearest(f: Forest, r: Rank, m: Modes, con: Con, mode: FullscreenMode, k: nat, x: Con)
    requires Shaped(f, {}, r) && con in f.par && m.Keys == f.par.Keys && Passed(f, r, m, con, mode, k)
    requires x in Level(f, r, con, k) && x != con && m[x] == mode
    ensures Nearest(f, r, m, con, mode, x)
  {
    LevelDepth(f, r, con, k, x);
    forall y | y in f.par && y != con && Within(f.par, r, y, con) && m[y] == mode ensures k <= Depth(f.par, r, y, con) {
      var d := Depth(f.par, r, y, con);
      LevelDepth(f, r, con, d, y);
      if d < k { PassedAt(f, r, m, con, mode, k, d); }
    }
  }

  lemma NothingFound(f: Forest, r: Rank, m: Modes, con: Con, mode: FullscreenMode, k: nat)
    requires Shaped(f, {}, r) && con in f.par && m.Keys == f.par.Keys && Passed(f, r, m, con, mode, k) && k > r.h[con]
    ensures Nearest(f, r, m, con, mode, null)
  {
    forall x | x in f.par && x != con && Within(f.par, r, x, con) ensures m[x] != mode {
      var d := Depth(f.par, r, x, con);
      LevelDepth(f, r, con, d, x);
      DepthRank(f.par, r, x, con);
      PassedAt(f, r, m, con, mode, k, d);
    }
  }

  /** The first container of the list, con aside, that has the mode. */
  ghost function FirstWith(m: Modes, l: seq<Con>, con: Con, mode: FullscreenMode): (c: Con?)
    ensures c != null ==> c in l && c != con && c in m && m[c] == mode
    ensures c == null ==> forall x :: x in l && x != con && x in m ==> m[x] != mode
  {
    if l == [] then null
    else if l[0] != con && l[0] in m && m[l[0]] == mode then l[0]
    else FirstWith(m, l[1..], con, mode)
  }

  /** The search level by level, from level k on. */
  ghost function SearchFrom(f: Forest, r: Rank, m: Modes, con: Con, mode: FullscreenMode, k: nat): (c: Con?)
    requires Shaped(f, {}, r) && con in f.par
    ensures c != null ==> c in f.par
    decreases r.h[con] + 1 - k
  {
    if k > r.h[con] then null
    else
      var c := FirstWith(m, Level(f, r, con, k), con, mode);
      if c != null then c else SearchFrom(f, r, m, con, mode, k + 1)
  }

  /** con_get_fullscreen_con: the first one in breadth-first order, tiled children before floating ones. */
  ghost function Search(f: Forest, r: Rank, m: Modes, con: Con, mode: FullscreenMode): (c: Con?)
    requires Shaped(f, {}, r) && con in f.par
    ensures c != null ==> c in f.par
  {
    SearchFrom(f, r, m, con, mode, 0)
  }

  lemma {:induction false} FromNearest(f: Forest, r: Rank, m: Modes, con: Con, mode: FullscreenMode, k: nat)
    requires Shaped(f, {}, r) && con in f.par && m.Keys == f.par.Keys && Passed(f, r, m, con, mode, k)
    ensures Nearest(f, r, m, con, mode, SearchFrom(f, r, m, con, mode, k))
    decreases r.h[con] + 1 - k
  {
    if k > r.h[con] {
      NothingFound(f, r, m, con, mode, k);
    } else {
      var l := Level(f, r, con, k);
      var c := FirstWith(m, l, con, mode);
      if c != null {
        FoundNearest(f, r, m, con, mode, k, c);
      } else {
        assert Lacks(m, l, con, mode);
        FromNearest(f, r, m, con, mode, k + 1);
      }
    }
  }

  /** So it finds a nearest one, if there is any. */
  lemma SearchNearest(f: Forest, r: Rank, m: Modes, con: Con, mode: FullscreenMode)
    requires Shaped(f, {}, r) && con in f.par && m.Keys == f.par.Keys
    ensures Nearest(f, r, m, con, mode, Search(f, r, m, con, mode))
  {
    FromNearest(f, r, m, con, mode, 0);
  }

  /** Levels without a find do not matter. */
  lemma {:induction false} SearchSkips(f: Forest, r: Rank, m: Modes, con: Con, mode: FullscreenMode, k: nat)
    requires Shaped(f, {}, r) && con in f.par && Passed(f, r, m, con, mode, k) && k <= r.h[con] + 1
    ensures Search(f, r, m, con, mode) == SearchFrom(f, r, m, con, mode, k)
  {
    if k > 0 {
      SearchSkips(f, r, m, con, mode, k - 1);
      assert Lacks(m, Level(f, r, con, k - 1), con, mode);
    }
  }

  lemma {:induction false} FirstAt(m: Modes, l: seq<Con>, con: Con, mode: FullscreenMode, i: nat)
    requires i < |l| && Lacks(m, l[..i], con, mode) && l[i] != con && l[i] in m && m[l[i]] == mode
    ensures FirstWith(m, l, con, mode) == l[i]
  {
    if i > 0 {
      assert l[0] in l[..i];
      assert l[1..][..i - 1] == l[1..i];
      forall c | c in l[1..i] ensures c in l[..i] {
      }
      FirstAt(m, l[1..], con, mode, i - 1);
    }
  }

  lemma FoundFirst(f: Forest, r: Rank, m: Modes, con: Con, mode: FullscreenMode, k: nat, i: nat)
    requires Shaped(f, {}, r) && con in f.par && m.Keys == f.par.Keys && Reached(f, r, m, con, mode, k, i)
    requires var l := Level(f, r, con, k); i < |l| && l[i] != con && m[l[i]] == mode
    ensures Search(f, r, m, con, mode) == Level(f, r, con, k)[i]
  {
    LevelRank(f, r, con, k, Level(f, r, con, k)[i]);
    SearchSkips(f, r, m, con, mode, k);
    FirstAt(m, Level(f, r, con, k), con, mode, i);
  }

  lemma {:induction false} EmptyFrom(f: Forest, r: Rank, m: Modes, con: Con, mode: FullscreenMode, k: nat)
    requires Shaped(f, {}, r) && con in f.par && Level(f, r, con, k) == []
    ensures SearchFrom(f, r, m, con, mode, k) == null
    decreases r.h[con] + 1 - k
  {
    if k <= r.h[con] { EmptyFrom(f, r, m, con, mode, k + 1); }
  }

  // ---- which of several is found -----------------------------------------------------------------

  lemma {:induction false} ChildrenOnce(f: Forest, r: Rank, s: seq<Con>)
    requires Shaped(f, {}, r) && NoDup(s) && forall c :: c in s ==> c in f.par
    ensures NoDup(Children(f, s))
  {
    if s != [] {
      var l, c := s[..|s| - 1], s[|s| - 1];
      ChildrenOnce(f, r, l);
      assert Linked(f, {}, c);
      forall x | x in Children(f, l) ensures x !in f.nodes[c] && x !in f.floats[c] {
        ChildrenIn(f, r, l, x);
        assert x in f.nodes[c] || x in f.floats[c] ==> ChildOf(f.par, {}, x, c);
        assert c !in l;
      }
      JoinOnce(Children(f, l), f.nodes[c]);
      forall x | x in f.floats[c] ensures x !in f.nodes[c] {
      }
      JoinOnce(Children(f, l) + f.nodes[c], f.floats[c]);
    }
  }

  lemma JoinOnce(a: seq<Con>, b: seq<Con>)
    requires NoDup(a) && NoDup(b) && forall x :: x in b ==> x !in a
    ensures NoDup(a + b)
  {
    forall i, j | 0 <= i < j < |a + b| ensures (a + b)[i] != (a + b)[j] {
      assert i < |a| <= j ==> (a + b)[j] in b && (a + b)[i] in a;
    }
  }

  lemma {:induction false} LevelOnce(f: Forest, r: Rank, con: Con, k: nat)
    requires Shaped(f, {}, r) && con in f.par
    ensures NoDup(Level(f, r, con, k))
  {
    if k > 0 {
      LevelOnce(f, r, con, k - 1);
      ChildrenOnce(f, r, Level(f, r, con, k - 1));
    }
  }

  /** y stands before x in the list. */
  ghost predicate Earlier(l: seq<Con>, y: Con, x: Con) {
    exists i, j {:trigger l[i], l[j]} :: 0 <= i < j < |l| && l[i] == y && l[j] == x
  }

  lemma EarlierIn(a: seq<Con>, b: seq<Con>, c: seq<Con>, y: Con, x: Con)
    requires Earlier(b, y, x)
    ensures Earlier(a + b + c, y, x)
  {
    var i, j :| 0 <= i < j < |b| && b[i] == y && b[j] == x;
    var l := a + b + c;
    assert l[|a| + i] == y && l[|a| + j] == x;
  }

  /** The children of one container stand together, tiled ones first. */
  lemma {:induction false} ChildrenEarlier(f: Forest, s: seq<Con>, p: Con, y: Con, x: Con)
    requires SameKeys(f) && (forall c :: c in s ==> c in f.par) && p in s && Earlier(f.nodes[p] + f.floats[p], y, x)
    ensures Earlier(Children(f, s), y, x)
  {
    var l, c := s[..|s| - 1], s[|s| - 1];
    if c == p {
      EarlierIn(Children(f, l), f.nodes[p] + f.floats[p], [], y, x);
      assert Children(f, l) + (f.nodes[p] + f.floats[p]) + [] == Children(f, s);
    } else {
      ChildrenEarlier(f, l, p, y, x);
      EarlierIn([], Children(f, l), f.nodes[c] + f.floats[c], y, x);
      assert [] + Children(f, l) + (f.nodes[c] + f.floats[c]) == Children(f, s);
    }
  }

  /** Nothing before the first one has the mode. */
  lemma {:induction false} FirstWithSkips(m: Modes, l: seq<Con>, con: Con, mode: FullscreenMode, y: Con)
    requires NoDup(l) && FirstWith(m, l, con, mode) != null && Earlier(l, y, FirstWith(m, l, con, mode))
    ensures y == con || y !in m || m[y] != mode
  {
    var x := FirstWith(m, l, con, mode);
    var i, j :| 0 <= i < j < |l| && l[i] == y && l[j] == x;
    if l[0] != x {
      if i > 0 {
        assert l[1..][i - 1] == y && l[1..][j - 1] == x;
        FirstWithSkips(m, l[1..], con, mode, y);
      }
    }
  }

  lemma {:induction false} FoundOnLevel(f: Forest, r: Rank, m: Modes, con: Con, mode: FullscreenMode, k: nat)
    returns (d: nat)
    requires Shaped(f, {}, r) && con in f.par && SearchFrom(f, r, m, con, mode, k) != null
    ensures FirstWith(m, Level(f, r, con, d), con, mode) == SearchFrom(f, r, m, con, mode, k)
    decreases r.h[con] + 1 - k
  {
    d := k;
    if FirstWith(m, Level(f, r, con, k), con, mode) == null { d := FoundOnLevel(f, r, m, con, mode, k + 1); }
  }

  /** Of the children of one container the first one with the mode is found, tiled ones before floating ones. */
  lemma SearchFirst(f: Forest, r: Rank, m: Modes, con: Con, mode: FullscreenMode, x: Con, y: Con)
    requires Shaped(f, {}, r) && con in f.par && m.Keys == f.par.Keys && Search(f, r, m, con, mode) == x
    requires f.par[x] != null && f.par[x] in f.par && Earlier(f.nodes[f.par[x]] + f.floats[f.par[x]], y, x)
    ensures y == con || y !in m || m[y] != mode
  {
    var k := FoundOnLevel(f, r, m, con, mode, 0);
    LevelOnce(f, r, con, k);
    if k > 0 {
      LevelStep(f, r, con, k, x);
      ChildrenEarlier(f, Level(f, r, con, k - 1), f.par[x], y, x);
      FirstWithSkips(m, Level(f, r, con, k), con, mode, y);
    }
  }

  // ---- the queue ---------------------------------------------------------------------------------

  /** The queue holds the rest of a level and the children of its beginning. */
  ghost function Queue(f: Forest, l: seq<Con>, i: nat): seq<Con>
    requires SameKeys(f) && (forall c :: c in l ==> c in f.par) && i <= |l|
  {
    l[i..] + Children(f, l[..i])
  }

  lemma QueueStep(f: Forest, l: seq<Con>, i: nat)
    requires SameKeys(f) && (forall c :: c in l ==> c in f.par) && i < |l|
    ensures |Queue(f, l, i)| > 0 && Queue(f, l, i)[0] == l[i]
    ensures Queue(f, l, i + 1) == Queue(f, l, i)[1..] + f.nodes[l[i]] + f.floats[l[i]]
  {
    assert l[..i + 1] == l[..i] + [l[i]];
    assert l[i..] == [l[i]] + l[i + 1..];
  }

  lemma QueueTurn(f: Forest, l: seq<Con>)
    requires SameKeys(f) && (forall c :: c in l ==> c in f.par) && forall c :: c in Children(f, l) ==> c in f.par
    ensures Queue(f, l, |l|) == Children(f, l) == Queue(f, Children(f, l), 0)
  {
    assert l[..|l|] == l && Children(f, l)[..0] == [];
  }

  /** The next position: at the end of a level, the beginning of the next one. */
  ghost function Next(f: Forest, r: Rank, con: Con, k: nat, i: nat): (nat, nat)
    requires Shaped(f, {}, r) && con in f.par
  {
    if i + 1 < |Level(f, r, con, k)| then (k, i + 1) else (k + 1, 0)
  }

  lemma LacksMore(m: Modes, l: seq<Con>, con: Con, mode: FullscreenMode, i: nat)
    requires i < |l| && Lacks(m, l[..i], con, mode) && (l[i] == con || (l[i] in m && m[l[i]] != mode))
    ensures Lacks(m, l[..i + 1], con, mode)
    ensures i + 1 == |l| ==> Lacks(m, l, con, mode)
  {
    assert l[..i + 1] == l[..i] + [l[i]];
    if i + 1 == |l| { assert l[..i + 1] == l; }
  }

  lemma NextReached(f: Forest, r: Rank, m: Modes, con: Con, mode: FullscreenMode, k: nat, i: nat)
    requires Shaped(f, {}, r) && con in f.par && m.Keys == f.par.Keys && Reached(f, r, m, con, mode, k, i)
    requires var l := Level(f, r, con, k); i < |l| && (l[i] == con || m[l[i]] != mode)
    ensures var (k', i') := Next(f, r, con, k, i); Reached(f, r, m, con, mode, k', i')
  {
    LacksMore(m, Level(f, r, con, k), con, mode, i);
  }

  lemma NextQueue(f: Forest, r: Rank, con: Con, k: nat, i: nat)
    requires Shaped(f, {}, r) && con in f.par && i < |Level(f, r, con, k)|
    ensures var (k', i') := Next(f, r, con, k, i);
            var l, l', c := Level(f, r, con, k), Level(f, r, con, k'), Level(f, r, con, k)[i];
            && i' <= |l'| && (i' < |l'| || l' == [])
            && |Queue(f, l, i)| > 0 && Queue(f, l, i)[0] == c
            && Queue(f, l', i') == Queue(f, l, i)[1..] + f.nodes[c] + f.floats[c]
  {
    var l := Level(f, r, con, k);
    QueueStep(f, l, i);
    if i + 1 == |l| {
      var n := Level(f, r, con, k + 1);
      assert n == Children(f, l);
      QueueTurn(f, l);
    }
  }

  method Enqueue(queue: seq<Con>, list: seq<Con>) returns (q: seq<Con>)
    ensures q == queue + list
  {
    q := queue;
    for i := 0 to |list|
      invariant q == queue + list[..i]
    {
      q := q + [list[i]];
    }
  }

  method ConGetFullscreenCon(con: Con, mode: FullscreenMode, ghost s: set<Con>, ghost f: Forest, ghost r: Rank,
                             ghost m: Modes)
    returns (found: Con?)
    requires con in s && LinksAre(s, f) && ModesAre(s, m) && Shaped(f, {}, r)
    ensures found == Search(f, r, m, con, mode)
  {
    var queue := [con];
    ghost var k: nat, i: nat := 0, 0;
    while queue != []
      invariant Reached(f, r, m, con, mode, k, i)
      invariant i < |Level(f, r, con, k)| || (i == 0 && Level(f, r, con, k) == [])
      invariant queue == Queue(f, Level(f, r, con, k), i)
      invariant k <= r.h[con] + 1
      decreases r.h[con] + 1 - k, |Level(f, r, con, k)| - i
    {
      var current := queue[0];
      NextQueue(f, r, con, k, i);
      if current != con && current.fullscreen == mode {
        FoundFirst(f, r, m, con, mode, k, i);
        return current;
      }
      LevelRank(f, r, con, k, current);
      queue := Enqueue(queue[1..], current.nodes);
      queue := Enqueue(queue, current.floats);
      NextReached(f, r, m, con, mode, k, i);
      ghost var (k', i') := Next(f, r, con, k, i);
      k, i := k', i';
    }
    SearchSkips(f, r, m, con, mode, k);
    EmptyFrom(f, r, m, con, mode, k);
    found := null;
  }

  // ---- enabling, disabling, toggling ---------------------------------------------------------------

  function Switched(m: Modes, con: Con, mode: FullscreenMode): Modes {
    m[con := mode]
  }

  /** con_disable_fullscreen; workspaces keep their mode. */
  function Disabled(m: Modes, con: Con?): Modes {
    if con == null || con.kind == CtWorkspace || con !in m then m else Switched(m, con, CfNone)
  }

  /** In the way of con are the global container and, if there is none, a fullscreen container of its workspace. */
  ghost function InTheWay(f: Forest, r: Rank, m: Modes, root: Con, con: Con): (c: Con?)
    requires Shaped(f, {}, r) && root in f.par && con in f.par
    ensures c != null ==> c in f.par
  {
    var global := Search(f, r, m, root, CfGlobal);
    if global != null then global
    else
      var ws := WorkspaceOf(f.par, r, con);
      if ws == null then null else Search(f, r, m, ws, CfOutput)
  }

  /** con_enable_fullscreen: what is in the way gives up its mode. */
  ghost function Enabled(f: Forest, r: Rank, m: Modes, root: Con, con: Con, mode: FullscreenMode): (n: Modes)
    requires Shaped(f, {}, r) && m.Keys == f.par.Keys && root in f.par && con in f.par
    ensures n.Keys == m.Keys
  {
    if con.kind == CtWorkspace || m[con] == mode then m
    else Switched(Disabled(m, InTheWay(f, r, m, root, con)), con, mode)
  }

  datatype Change =
    | Enable(con: Con, mode: FullscreenMode)
    | Disable(con: Con)
    | Toggle(con: Con, mode: FullscreenMode)

  ghost function After(f: Forest, r: Rank, m: Modes, root: Con, change: Change): (n: Modes)
    requires Shaped(f, {}, r) && m.Keys == f.par.Keys && root in f.par && change.con in f.par
    ensures n.Keys == m.Keys
  {
    match change
    case Enable(con, mode) => Enabled(f, r, m, root, con, mode)
    case Disable(con) => Disabled(m, con)
    case Toggle(con, mode) =>
      if m[con] == CfNone then Enabled(f, r, m, root, con, mode) else Disabled(m, con)
  }

  ghost predicate Global(f: Forest, r: Rank, m: Modes, root: Con, x: Con)
    requires Ranked(f.par, r) && m.Keys == f.par.Keys
  {
    x in m && x != root && Within(f.par, r, x, root) && m[x] == CfGlobal
  }

  /** At most one container below the root is in global mode, and no workspace is. */
  ghost predicate OneGlobal(f: Forest, r: Rank, m: Modes, root: Con)
    requires Ranked(f.par, r) && m.Keys == f.par.Keys
  {
    && (forall x :: x in m && x.kind == CtWorkspace ==> m[x] != CfGlobal)
    && (forall x, y :: x in m && y in m && Global(f, r, m, root, x) && Global(f, r, m, root, y) ==> x == y)
  }

  /** The search from the root finds the one global container. */
  lemma GlobalFound(f: Forest, r: Rank, m: Modes, root: Con, x: Con)
    requires Shaped(f, {}, r) && m.Keys == f.par.Keys && root in f.par && OneGlobal(f, r, m, root)
    requires Global(f, r, m, root, x)
    ensures Search(f, r, m, root, CfGlobal) == x
  {
    SearchNearest(f, r, m, root, CfGlobal);
    assert Global(f, r, m, root, Search(f, r, m, root, CfGlobal));
  }

  lemma EnabledOnly(f: Forest, r: Rank, m: Modes, root: Con, con: Con, mode: FullscreenMode, x: Con)
    requires Shaped(f, {}, r) && m.Keys == f.par.Keys && root in f.par && con in f.par && OneGlobal(f, r, m, root)
    requires con.kind != CtWorkspace && m[con] != mode
    requires Global(f, r, Enabled(f, r, m, root, con, mode), root, x)
    ensures x == con
  {
    if x != con { GlobalFound(f, r, m, root, x); }
  }

  /** Once a container has been enabled, no other one below the root is in global mode. */
  lemma EnabledAlone(f: Forest, r: Rank, m: Modes, root: Con, con: Con, mode: FullscreenMode)
    requires Shaped(f, {}, r) && m.Keys == f.par.Keys && root in f.par && con in f.par && OneGlobal(f, r, m, root)
    requires con.kind != CtWorkspace && m[con] != mode
    ensures var n := Enabled(f, r, m, root, con, mode);
            n[con] == mode && OneGlobal(f, r, n, root) && forall x :: x in m && Global(f, r, n, root, x) ==> x == con
  {
    var n := Enabled(f, r, m, root, con, mode);
    forall x | x in m && Global(f, r, n, root, x) ensures x == con {
      EnabledOnly(f, r, m, root, con, mode, x);
    }
  }

  lemma DisabledKeepsOne(f: Forest, r: Rank, m: Modes, root: Con, con: Con)
    requires Ranked(f.par, r) && m.Keys == f.par.Keys && OneGlobal(f, r, m, root)
    ensures Disabled(m, con).Keys == m.Keys && OneGlobal(f, r, Disabled(m, con), root)
  {
    forall x, y | x in m && y in m && Global(f, r, Disabled(m, con), root, x) && Global(f, r, Disabled(m, con), root, y)
      ensures x == y
    {
      assert Global(f, r, m, root, x) && Global(f, r, m, root, y);
    }
  }

  /** Toggling turns a container without mode to the mode and any other to none; disabling turns it to none. */
  lemma ToggleTurns(f: Forest, r: Rank, m: Modes, root: Con, con: Con, mode: FullscreenMode)
    requires Shaped(f, {}, r) && m.Keys == f.par.Keys && root in f.par && con in f.par && con.kind != CtWorkspace
    requires mode != CfNone
    ensures After(f, r, m, root, Toggle(con, mode))[con] == if m[con] == CfNone then mode else CfNone
    ensures After(f, r, m, root, Disable(con))[con] == CfNone && After(f, r, m, root, Enable(con, mode))[con] == mode
    ensures var once := After(f, r, m, root, Toggle(con, mode));
            After(f, r, once, root, Toggle(con, mode))[con] == if m[con] == CfNone then CfNone else mode
  {
  }

  /** Whatever else loses its mode was global, or fullscreen on the workspace of the container. */
  lemma OthersKeep(f: Forest, r: Rank, m: Modes, root: Con, change: Change, x: Con)
    requires Shaped(f, {}, r) && m.Keys == f.par.Keys && root in f.par && change.con in f.par
    requires x in m && x != change.con && After(f, r, m, root, change)[x] != m[x]
    ensures !change.Disable? && After(f, r, m, root, change)[x] == CfNone
    ensures m[x] == CfGlobal ||
            (m[x] == CfOutput && WorkspaceOf(f.par, r, change.con) != null &&
             Within(f.par, r, x, WorkspaceOf(f.par, r, change.con)))
  {
    var con := change.con;
    SearchNearest(f, r, m, root, CfGlobal);
    if WorkspaceOf(f.par, r, con) != null { SearchNearest(f, r, m, WorkspaceOf(f.par, r, con), CfOutput); }
  }

  /** No command changes the mode of a workspace. */
  lemma WorkspacesKeep(f: Forest, r: Rank, m: Modes, root: Con, change: Change, x: Con)
    requires Shaped(f, {}, r) && m.Keys == f.par.Keys && root in f.par && change.con in f.par
    requires x in m && x.kind == CtWorkspace
    ensures After(f, r, m, root, change)[x] == m[x]
  {
  }

  /** At most one container of the workspace is fullscreen on its output. */
  ghost predicate OneOnOutput(f: Forest, r: Rank, m: Modes, ws: Con)
    requires Ranked(f.par, r) && m.Keys == f.par.Keys
  {
    forall x, y :: x in m && y in m && OnOutput(f, r, m, ws, x) && OnOutput(f, r, m, ws, y) ==> x == y
  }

  ghost predicate OnOutput(f: Forest, r: Rank, m: Modes, ws: Con, x: Con)
    requires Ranked(f.par, r) && m.Keys == f.par.Keys
  {
    x in m && x != ws && Within(f.par, r, x, ws) && m[x] == CfOutput
  }

  /** While nothing is global, enabling a container leaves it the only fullscreen one of its workspace. */
  lemma EnabledAloneOnWorkspace(f: Forest, r: Rank, m: Modes, root: Con, con: Con, mode: FullscreenMode, x: Con)
    requires Shaped(f, {}, r) && m.Keys == f.par.Keys && root in f.par && con in f.par && con.kind != CtWorkspace
    requires m[con] != mode && WorkspaceOf(f.par, r, con) != null
    requires (forall y :: y in m ==> !Global(f, r, m, root, y)) && OneOnOutput(f, r, m, WorkspaceOf(f.par, r, con))
    requires (forall y :: y in m && y.kind == CtWorkspace ==> m[y] == CfNone) && x in m
    requires OnOutput(f, r, Enabled(f, r, m, root, con, mode), WorkspaceOf(f.par, r, con), x)
    ensures x == con
  {
    var ws := WorkspaceOf(f.par, r, con);
    SearchNearest(f, r, m, root, CfGlobal);
    assert Search(f, r, m, root, CfGlobal) == null by {
      if Search(f, r, m, root, CfGlobal) != null { assert Global(f, r, m, root, Search(f, r, m, root, CfGlobal)); }
    }
    SearchNearest(f, r, m, ws, CfOutput);
    if x != con {
      assert OnOutput(f, r, m, ws, x);
      assert OnOutput(f, r, m, ws, Search(f, r, m, ws, CfOutput));
    }
  }

  lemma ChangeKeepsOne(f: Forest, r: Rank, m: Modes, root: Con, change: Change)
    requires Shaped(f, {}, r) && m.Keys == f.par.Keys && root in f.par && change.con in f.par &&
             OneGlobal(f, r, m, root)
    ensures OneGlobal(f, r, After(f, r, m, root, change), root)
  {
    DisabledKeepsOne(f, r, m, root, change.con);
    if !change.Disable? && change.con.kind != CtWorkspace && m[change.con] != change.mode {
      EnabledAlone(f, r, m, root, change.con, change.mode);
    }
  }

  ghost function AfterAll(f: Forest, r: Rank, m: Modes, root: Con, changes: seq<Change>): (n: Modes)
    requires Shaped(f, {}, r) && m.Keys == f.par.Keys && root in f.par
    requires forall c :: c in changes ==> c.con in f.par
    ensures n.Keys == m.Keys
  {
    if changes == [] then m
    else After(f, r, AfterAll(f, r, m, root, changes[..|changes| - 1]), root, changes[|changes| - 1])
  }

  /** Every run of changes keeps at most one global container. */
  lemma {:induction false} RunKeepsOne(f: Forest, r: Rank, m: Modes, root: Con, changes: seq<Change>)
    requires Shaped(f, {}, r) && m.Keys == f.par.Keys && root in f.par && OneGlobal(f, r, m, root)
    requires forall c :: c in changes ==> c.con in f.par
    ensures OneGlobal(f, r, AfterAll(f, r, m, root, changes), root)
  {
    if changes != [] {
      var before := changes[..|changes| - 1];
      RunKeepsOne(f, r, m, root, before);
      ChangeKeepsOne(f, r, AfterAll(f, r, m, root, before), root, changes[|changes| - 1]);
    }
  }

  method ConSetFullscreenMode(con: Con, mode: FullscreenMode, ghost s: set<Con>, ghost f: Forest, ghost m: Modes)
    requires con in s && LinksAre(s, f) && ModesAre(s, m)
    modifies con`fullscreen
    ensures LinksAre(s, f) && ModesAre(s, Switched(m, con, mode))
  {
    con.fullscreen := mode;
  }

  method ConDisableFullscreen(con: Con, ghost s: set<Con>, ghost f: Forest, ghost m: Modes)
    requires con in s && LinksAre(s, f) && ModesAre(s, m)
    modifies con`fullscreen
    ensures LinksAre(s, f) && ModesAre(s, Disabled(m, con))
  {
    if con.kind == CtWorkspace {
      return;
    }
    if con.fullscreen == CfNone {
      return;
    }
    ConSetFullscreenMode(con, CfNone, s, f, m);
  }

  /** The container in the way of con. */
  method ConflictingFullscreen(wm: Wm, con: Con, ghost s: set<Con>, ghost f: Forest, ghost r: Rank, ghost m: Modes)
    returns (fullscreen: Con?)
    requires con in s && wm.croot in s && LinksAre(s, f) && ModesAre(s, m) && Shaped(f, {}, r)
    requires WorkspaceOf(f.par, r, con) != null
    ensures fullscreen == InTheWay(f, r, m, wm.croot, con)
  {
    var ws := ConGetWorkspace(con, s, f, r);
    fullscreen := ConGetFullscreenCon(wm.croot, CfGlobal, s, f, r, m);
    if fullscreen == null {
      fullscreen := ConGetFullscreenCon(ws, CfOutput, s, f, r, m);
    }
  }

  /** con_enable_fullscreen, without the moves of the input focus. */
  method ConEnableFullscreen(wm: Wm, con: Con, mode: FullscreenMode, ghost s: set<Con>, ghost f: Forest,
                             ghost r: Rank, ghost m: Modes)
    requires con in s && wm.croot in s && LinksAre(s, f) && ModesAre(s, m) && Shaped(f, {}, r)
    requires mode != CfNone && (con.kind != CtWorkspace ==> WorkspaceOf(f.par, r, con) != null)
    modifies s`fullscreen
    ensures LinksAre(s, f) && ModesAre(s, Enabled(f, r, m, wm.croot, con, mode))
  {
    if con.kind == CtWorkspace {
      return;
    }
    if con.fullscreen == mode {
      return;
    }
    var fullscreen := ConflictingFullscreen(wm, con, s, f, r, m);
    if fullscreen != null {
      ConDisableFullscreen(fullscreen, s, f, m);
    }
    ConSetFullscreenMode(con, mode, s, f, Disabled(m, fullscreen));
  }

  method ConToggleFullscreen(wm: Wm, con: Con, mode: FullscreenMode, ghost s: set<Con>, ghost f: Forest,
                             ghost r: Rank, ghost m: Modes)
    requires con in s && wm.croot in s && LinksAre(s, f) && ModesAre(s, m) && Shaped(f, {}, r)
    requires mode != CfNone && (con.kind != CtWorkspace ==> WorkspaceOf(f.par, r, con) != null)
    modifies s`fullscreen
    ensures LinksAre(s, f) && ModesAre(s, After(f, r, m, wm.croot, Toggle(con, mode)))
  {
    if con.kind == CtWorkspace {
      return;
    }
    if con.fullscreen == CfNone {
      ConEnableFullscreen(wm, con, mode, s, f, r, m);
    } else {
      ConDisableFullscreen(con, s, f, m);
    }
  }

  /** What the callers see to: a mode to enable, and a workspace for the container. */
  ghost predicate Proper(f: Forest, r: Rank, change: Change)
    requires Ranked(f.par, r)
  {
    && change.con in f.par
    && (!change.Disable? ==>
          change.mode != CfNone && (change.con.kind != CtWorkspace ==> WorkspaceOf(f.par, r, change.con) != null))
  }

  method Perform(wm: Wm, change: Change, ghost s: set<Con>, ghost f: Forest, ghost r: Rank, ghost m: Modes)
    requires wm.croot in s && LinksAre(s, f) && ModesAre(s, m) && Shaped(f, {}, r) && Proper(f, r, change)
    modifies s`fullscreen
    ensures LinksAre(s, f) && ModesAre(s, After(f, r, m, wm.croot, change))
  {
    match change {
      case Enable(con, mode) => ConEnableFullscreen(wm, con, mode, s, f, r, m);
      case Disable(con) => ConDisableFullscreen(con, s, f, m);
      case Toggle(con, mode) => ConToggleFullscreen(wm, con, mode, s, f, r, m);
    }
  }

  /** Any run of enabling, disabling and toggling leaves at most one global container. */
  method PerformAll(wm: Wm, changes: seq<Change>, ghost s: set<Con>, ghost f: Forest, ghost r: Rank, ghost m: Modes)
    returns (ghost n: Modes)
    requires wm.croot in s && LinksAre(s, f) && ModesAre(s, m) && Shaped(f, {}, r) && OneGlobal(f, r, m, wm.croot)
    requires (forall c :: c in changes ==> c.con in f.par) && forall c :: c in changes ==> Proper(f, r, c)
    modifies s`fullscreen
    ensures LinksAre(s, f) && ModesAre(s, n) && n == AfterAll(f, r, m, wm.croot, changes)
    ensures OneGlobal(f, r, n, wm.croot)
  {
    n := m;
    for i := 0 to |changes|
      invariant forall c :: c in changes[..i] ==> c.con in f.par
      invariant LinksAre(s, f) && ModesAre(s, n) && n == AfterAll(f, r, m, wm.croot, changes[..i])
    {
      TakeOne(changes, i);
      Perform(wm, changes[i], s, f, r, n);
      n := After(f, r, n, wm.croot, changes[i]);
    }
    assert changes[..|changes|] == changes;
    RunKeepsOne(f, r, m, wm.croot, changes);
  }

  // ---- the exchange at the end of con_swap -------------------------------------------------------

  /** con takes on the mode. */
  ghost function Adopted(f: Forest, r: Rank, m: Modes, root: Con, con: Con, mode: FullscreenMode): (n: Modes)
    requires Shaped(f, {}, r) && m.Keys == f.par.Keys && root in f.par && con in f.par
    ensures n.Keys == m.Keys
  {
    if mode == CfNone then Disabled(m, con) else Enabled(f, r, m, root, con, mode)
  }

  /** b takes on the mode of a, and then a the one that b had. */
  ghost function HandedOver(f: Forest, r: Rank, m: Modes, root: Con, a: Con, b: Con): (n: Modes)
    requires Shaped(f, {}, r) && m.Keys == f.par.Keys && root in f.par && a in f.par && b in f.par
    ensures n.Keys == m.Keys
  {
    Adopted(f, r, Adopted(f, r, m, root, b, m[a]), root, a, m[b])
  }

  method AdoptMode(wm: Wm, con: Con, mode: FullscreenMode, ghost s: set<Con>, ghost f: Forest, ghost r: Rank,
                   ghost m: Modes)
    requires con in s && wm.croot in s && LinksAre(s, f) && ModesAre(s, m) && Shaped(f, {}, r)
    requires mode != CfNone && con.kind != CtWorkspace ==> WorkspaceOf(f.par, r, con) != null
    modifies s`fullscreen
    ensures LinksAre(s, f) && ModesAre(s, Adopted(f, r, m, wm.croot, con, mode))
  {
    if mode == CfNone {
      ConDisableFullscreen(con, s, f, m);
    } else {
      ConEnableFullscreen(wm, con, mode, s, f, r, m);
    }
  }

  /** con_swap hands the modes over after the places have been exchanged. */
  method SwapModes(wm: Wm, first: Con, second: Con, ghost s: set<Con>, ghost f: Forest, ghost r: Rank, ghost m: Modes)
    requires first in s && second in s && wm.croot in s && LinksAre(s, f) && ModesAre(s, m) && Shaped(f, {}, r)
    requires first.fullscreen != CfNone ==> WorkspaceOf(f.par, r, second) != null
    requires second.fullscreen != CfNone ==> WorkspaceOf(f.par, r, first) != null
    modifies s`fullscreen
    ensures LinksAre(s, f) && ModesAre(s, HandedOver(f, r, m, wm.croot, first, second))
  {
    var secondMode := second.fullscreen;
    AdoptMode(wm, second, first.fullscreen, s, f, r, m);
    AdoptMode(wm, first, secondMode, s, f, r, Adopted(f, r, m, wm.croot, second, m[first]));
  }

  /** The search on the workspace of a, with b in the mode of its output. */
  ghost predicate ComesUpon(f: Forest, r: Rank, m: Modes, a: Con, b: Con)
    requires Shaped(f, {}, r) && a in f.par
  {
    var ws := WorkspaceOf(f.par, r, a);
    ws != null && Search(f, r, m[b := CfOutput], ws, CfOutput) == b
  }

  /** The modes are exchanged except that a container in global mode gives way to one that takes on the other
      mode: always if the first one was global, and else if the search on its workspace comes upon the second. */
  lemma ModesExchanged(f: Forest, r: Rank, m: Modes, root: Con, a: Con, b: Con)
    requires Shaped(f, {}, r) && m.Keys == f.par.Keys && root in f.par && OneGlobal(f, r, m, root)
    requires a in m && b in m && a != b && a.kind == CtCon && b.kind == CtCon && root !in {a, b}
    requires Within(f.par, r, a, root) && Within(f.par, r, b, root)
    ensures var n := HandedOver(f, r, m, root, a, b);
            n[a] == m[b] && n[b] == m[a] <==>
              && !(m[a] == CfGlobal && m[b] == CfOutput)
              && !(m[a] == CfOutput && m[b] == CfGlobal && ComesUpon(f, r, m, a, b))
  {
    if m[a] == CfGlobal && m[b] == CfOutput {
      FirstGlobal(f, r, m, root, a, b);
    } else if m[a] == CfOutput && m[b] == CfGlobal {
      SecondGlobal(f, r, m, root, a, b);
    } else {
      NoneGivesWay(f, r, m, root, a, b);
    }
  }

  lemma FirstGlobal(f: Forest, r: Rank, m: Modes, root: Con, a: Con, b: Con)
    requires Shaped(f, {}, r) && m.Keys == f.par.Keys && root in f.par && OneGlobal(f, r, m, root)
    requires a in m && b in m && a != b && a.kind == CtCon && b.kind == CtCon && root !in {a, b}
    requires Within(f.par, r, a, root) && Within(f.par, r, b, root) && m[a] == CfGlobal && m[b] == CfOutput
    ensures HandedOver(f, r, m, root, a, b)[b] == CfNone
  {
    assert Global(f, r, m, root, a);
    GlobalFound(f, r, m, root, a);
    EnabledAlone(f, r, m, root, b, CfGlobal);
    var n := Enabled(f, r, m, root, b, CfGlobal);
    assert n[a] == CfNone && Global(f, r, n, root, b);
    GlobalFound(f, r, n, root, b);
  }

  lemma SecondGlobal(f: Forest, r: Rank, m: Modes, root: Con, a: Con, b: Con)
    requires Shaped(f, {}, r) && m.Keys == f.par.Keys && root in f.par && OneGlobal(f, r, m, root)
    requires a in m && b in m && a != b && a.kind == CtCon && b.kind == CtCon && root !in {a, b}
    requires Within(f.par, r, a, root) && Within(f.par, r, b, root) && m[a] == CfOutput && m[b] == CfGlobal
    ensures var n := HandedOver(f, r, m, root, a, b);
            n[a] == CfGlobal && n[b] == if ComesUpon(f, r, m, a, b) then CfNone else CfOutput
  {
    assert Global(f, r, m, root, b);
    GlobalFound(f, r, m, root, b);
    var n := m[b := CfOutput];
    assert Enabled(f, r, m, root, b, CfOutput) == n;
    NoGlobalLeft(f, r, m, root, b);
  }

  lemma NoGlobalLeft(f: Forest, r: Rank, m: Modes, root: Con, b: Con)
    requires Shaped(f, {}, r) && m.Keys == f.par.Keys && root in f.par && OneGlobal(f, r, m, root)
    requires Global(f, r, m, root, b)
    ensures Search(f, r, m[b := CfOutput], root, CfGlobal) == null
  {
    var n := m[b := CfOutput];
    SearchNearest(f, r, n, root, CfGlobal);
    var c := Search(f, r, n, root, CfGlobal);
    if c != null { assert Global(f, r, m, root, c); }
  }

  lemma NoneGivesWay(f: Forest, r: Rank, m: Modes, root: Con, a: Con, b: Con)
    requires Shaped(f, {}, r) && m.Keys == f.par.Keys && root in f.par
    requires a in m && b in m && a != b && a.kind == CtCon && b.kind == CtCon
    requires m[a] == m[b] || m[a] == CfNone || m[b] == CfNone
    ensures HandedOver(f, r, m, root, a, b)[a] == m[b] && HandedOver(f, r, m, root, a, b)[b] == m[a]
  {
  }

  /** Containers in the same mode keep it, and nothing else changes. */
  lemma EqualModesStay(f: Forest, r: Rank, m: Modes, root: Con, a: Con, b: Con)
    requires Shaped(f, {}, r) && m.Keys == f.par.Keys && root in f.par && a in m && b in m && m[a] == m[b]
    ensures HandedOver(f, r, m, root, a, b) == m
  {
  }
}
