/** con_attach and con_detach: where a container goes among its new siblings, and that the tree stays a tree. */
module Attach {
  import opened Lists
  import opened Tree
  import opened Order

  function InsertAt(s: seq<Con>, i: nat, x: Con): (t: seq<Con>)
    requires i <= |s|
    ensures |t| == |s| + 1
  {
    s[..i] + [x] + s[i..]
  }

  function Nums(s: seq<Con>): (ns: seq<int>)
    reads s`num
    ensures |ns| == |s| && forall i :: 0 <= i < |s| ==> ns[i] == s[i].num
  {
    if s == [] then [] else [s[0].num] + Nums(s[1..])
  }

  function DockKeyOf(w: Window): DockKey
    reads w
  {
    DockKey(w.classClass, w.classInstance)
  }

  predicate Windowed(nodes: seq<Con>)
    reads nodes`window
  {
    forall x :: x in nodes ==> x.window != null
  }

  function DockKeys(nodes: seq<Con>): (keys: seq<DockKey>)
    requires Windowed(nodes)
    reads nodes`window, set c | c in nodes && c.window != null :: c.window
    ensures |keys| == |nodes| && forall i :: 0 <= i < |nodes| ==> keys[i] == DockKeyOf(nodes[i].window)
  {
    if nodes == [] then [] else [DockKeyOf(nodes[0].window)] + DockKeys(nodes[1..])
  }

  /** The first tiling container of a focus list. */
  function FirstTiling(focus: seq<Con>): (c: Con?)
    ensures c == null <==> forall x :: x in focus ==> x.kind == CtFloatingCon
    ensures c != null ==> c in focus && c.kind != CtFloatingCon
    ensures c != null ==> forall x :: x in focus[..Index(focus, c)] ==> x.kind == CtFloatingCon
  {
    if focus == [] then null else if focus[0].kind == CtFloatingCon then FirstTiling(focus[1..]) else focus[0]
  }

  /** The container a tiling container is put after, if any. */
  function Anchor(focus: seq<Con>, previous: Con?, ignoreFocus: bool): Con? {
    if ignoreFocus || FirstTiling(focus) == null then previous else FirstTiling(focus)
  }

  /** Where a tiling container goes: behind its anchor, except that outputs and lists without anchor append. */
  ghost function TilingPlace(nodes: seq<Con>, anchor: Con?, parentKind: Kind): (i: nat)
    ensures i <= |nodes|
  {
    if anchor != null && anchor in nodes && parentKind != CtOutput then Index(nodes, anchor) + 1 else |nodes|
  }

  ghost predicate GoesToFloats(con: Con, parent: Con) {
    con.kind == CtFloatingCon && parent.kind != CtDockarea
  }

  ghost function Adopted(par: map<Con, Con?>, con: Con, parent: Con): map<Con, Con?> {
    par[con := parent]
  }

  /** The links after con has become the child of parent, at place i if it is tiled. */
  ghost function AttachAt(f: Forest, con: Con, parent: Con, i: nat): (g: Forest)
    requires SameKeys(f) && con in f.par && parent in f.par && i <= |f.nodes[parent]|
    ensures SameKeys(g) && g.par.Keys == f.par.Keys
  {
    var g := f.(par := Adopted(f.par, con, parent), focus := f.focus[parent := f.focus[parent] + [con]]);
    if GoesToFloats(con, parent) then g.(floats := f.floats[parent := f.floats[parent] + [con]])
    else g.(nodes := f.nodes[parent := InsertAt(f.nodes[parent], i, con)])
  }

  // ---- attaching keeps the tree a tree ---------------------------------------------------------

  lemma InsertAtFacts(s: seq<Con>, i: nat, x: Con)
    requires NoDup(s) && x !in s && i <= |s|
    ensures NoDup(InsertAt(s, i, x)) && forall y :: y in InsertAt(s, i, x) <==> y in s || y == x
  {
    assert s[..i] + s[i..] == s;
    NoDupMiddle(s[..i], x, s[i..]);
    assert forall y :: y in s <==> y in s[..i] || y in s[i..];
  }

  /** A container that is listed nowhere and does not contain its new parent. */
  ghost predicate Adoptable(f: Forest, loose: set<Con>, r: Rank, con: Con, parent: Con)
    requires Shaped(f, loose, r)
  {
    && con in f.par && (con in loose || f.par[con] == null)
    && parent in f.par && !Within(f.par, r, parent, con)
    && (con.kind == CtFloatingCon ==> parent.kind != CtDockarea)
  }

  lemma HoldsWith(par: map<Con, Con?>, loose: set<Con>, p: Con, nodes: seq<Con>, floats: seq<Con>, focus: seq<Con>,
                  con: Con, i: nat)
    requires Holds(par, loose, p, nodes, floats, focus) && con in par && !ChildOf(par, loose, con, p) && i <= |nodes|
    ensures con.kind == CtFloatingCon ==>
            Holds(Adopted(par, con, p), loose - {con}, p, nodes, floats + [con], focus + [con])
    ensures con.kind != CtFloatingCon ==>
            Holds(Adopted(par, con, p), loose - {con}, p, InsertAt(nodes, i, con), floats, focus + [con])
  {
    var q := Adopted(par, con, p);
    assert forall x :: ChildOf(q, loose - {con}, x, p) <==> ChildOf(par, loose, x, p) || x == con;
    InsertAtFacts(nodes, i, con);
  }

  lemma AdopterHolds(f: Forest, loose: set<Con>, r: Rank, con: Con, parent: Con, i: nat)
    requires Shaped(f, loose, r) && Adoptable(f, loose, r, con, parent) && i <= |f.nodes[parent]|
    ensures Linked(AttachAt(f, con, parent, i), loose - {con}, parent)
  {
    assert Linked(f, loose, parent);
    HoldsWith(f.par, loose, parent, f.nodes[parent], f.floats[parent], f.focus[parent], con, i);
  }

  lemma HoldsStill(par: map<Con, Con?>, loose: set<Con>, c: Con, nodes: seq<Con>, floats: seq<Con>, focus: seq<Con>,
                   con: Con, parent: Con)
    requires Holds(par, loose, c, nodes, floats, focus) && con in par && !ChildOf(par, loose, con, c) && c != parent
    ensures Holds(Adopted(par, con, parent), loose - {con}, c, nodes, floats, focus)
  {
    var q := Adopted(par, con, parent);
    assert forall x :: ChildOf(q, loose - {con}, x, c) <==> ChildOf(par, loose, x, c);
  }

  lemma OtherHolds(f: Forest, loose: set<Con>, r: Rank, con: Con, parent: Con, i: nat, c: Con)
    requires Shaped(f, loose, r) && Adoptable(f, loose, r, con, parent) && i <= |f.nodes[parent]|
    requires c in f.par && c != parent
    ensures Linked(AttachAt(f, con, parent, i), loose - {con}, c)
  {
    assert Linked(f, loose, c);
    HoldsStill(f.par, loose, c, f.nodes[c], f.floats[c], f.focus[c], con, parent);
  }

  /** Everything outside the subtree of con is lifted above it. */
  ghost function Raised(par: map<Con, Con?>, r: Rank, con: Con): Rank
    requires Ranked(par, r) && con in par
  {
    Rank(map x | x in par :: if Within(par, r, x, con) then r.h[x] else r.h[x] + r.h[con] + 1, r.top + r.h[con] + 1)
  }

  lemma RaisedRanked(par: map<Con, Con?>, r: Rank, con: Con, parent: Con)
    requires Ranked(par, r) && con in par && parent in par && !Within(par, r, parent, con)
    ensures Ranked(Adopted(par, con, parent), Raised(par, r, con))
  {
    var q := Raised(par, r, con);
    forall x | x in par && x != con && par[x] != null ensures q.h[x] < q.h[par[x]] {
      assert Within(par, r, x, con) <==> Within(par, r, par[x], con);
    }
  }

  /** Attaching what was detached, wherever its new place, gives a tree again. */
  lemma AttachShaped(f: Forest, loose: set<Con>, r: Rank, con: Con, parent: Con, i: nat)
    requires Shaped(f, loose, r) && Adoptable(f, loose, r, con, parent) && i <= |f.nodes[parent]|
    ensures Shaped(AttachAt(f, con, parent, i), loose - {con}, Raised(f.par, r, con))
  {
    var g := AttachAt(f, con, parent, i);
    RaisedRanked(f.par, r, con, parent);
    forall c {:trigger Linked(g, loose - {con}, c)} | c in g.par ensures Linked(g, loose - {con}, c) {
      if c == parent { AdopterHolds(f, loose, r, con, parent, i); } else { OtherHolds(f, loose, r, con, parent, i, c); }
    }
  }

  lemma AdoptedTyped(par: map<Con, Con?>, r: Rank, con: Con, parent: Con, c: Con)
    requires Ranked(par, r) && con in par && parent in par && c in par && c != con && Typed(par, c)
    requires if par[con] == null then par[c] != con else par[con].kind == CtOutput <==> parent.kind == CtOutput
    ensures Typed(Adopted(par, con, parent), c)
  {
  }

  /** Each kind of container still hangs where it belongs, if con does and stays below an output, or off every
      output. */
  lemma AttachWellFormed(f: Forest, loose: set<Con>, r: Rank, con: Con, parent: Con, i: nat)
    requires WellFormed(f, loose, r) && Adoptable(f, loose, r, con, parent) && i <= |f.nodes[parent]|
    requires Typed(Adopted(f.par, con, parent), con)
    requires if f.par[con] == null then forall x :: x in f.par ==> f.par[x] != con
             else f.par[con].kind == CtOutput <==> parent.kind == CtOutput
    ensures WellFormed(AttachAt(f, con, parent, i), loose - {con}, Raised(f.par, r, con))
  {
    var g := AttachAt(f, con, parent, i);
    AttachShaped(f, loose, r, con, parent, i);
    forall c {:trigger Typed(g.par, c)} | c in g.par && c != con ensures Typed(g.par, c) {
      assert Typed(f.par, c);
      AdoptedTyped(f.par, r, con, parent, c);
    }
  }

  // ---- the lists in order ------------------------------------------------------------------------

  /** The entries are of these containers. */
  ghost predicate Entered<K>(nodes: seq<Con>, e: seq<Entry<Con, K>>) {
    |e| == |nodes| && forall k :: 0 <= k < |e| ==> e[k].item == nodes[k]
  }

  lemma ArriveAt<K>(nodes: seq<Con>, e: seq<Entry<Con, K>>, x: Con, key: K, clock: nat, less: (K, K) -> bool, k: nat)
    requires Entered(nodes, e) && k <= |nodes|
    ensures var i := Place(Keys(e), key, less);
            var t, u := InsertAt(nodes, i, x), Arrive(e, x, key, clock, less);
            && |u| == |t| == |nodes| + 1
            && if k == i then t[k] == x && u[k] == Entry(x, key, clock)
               else var j := if k < i then k else k - 1; t[k] == nodes[j] && u[k] == e[j]
  {
  }

  lemma {:induction false} WhereIndex<K>(nodes: seq<Con>, e: seq<Entry<Con, K>>, x: Con)
    requires Entered(nodes, e) && x in nodes
    ensures Where(e, x) == Index(nodes, x)
  {
    assert e[Index(nodes, x)].item == x;
    assert Where(e, x) < |e| ==> nodes[Where(e, x)] == x;
  }

  lemma RemovedAt(nodes: seq<Con>, x: Con, k: nat)
    requires x in nodes && k < |nodes| - 1
    ensures |Remove(nodes, x)| == |nodes| - 1
    ensures Remove(nodes, x)[k] == nodes[if k < Index(nodes, x) then k else k + 1]
  {
  }

  lemma LeaveAt<K>(nodes: seq<Con>, e: seq<Entry<Con, K>>, x: Con, k: nat)
    requires Entered(nodes, e) && x in nodes && k < |nodes| - 1
    ensures var t, u := Remove(nodes, x), Leave(e, x);
            && |u| == |t| == |nodes| - 1
            && var j := if k < Where(e, x) then k else k + 1; t[k] == nodes[j] && u[k] == e[j]
  {
    WhereIndex(nodes, e, x);
    RemovedAt(nodes, x, k);
  }

  /** The entries are these workspaces with their numbers. */
  ghost predicate Numbered(nodes: seq<Con>, e: seq<Entry<Con, int>>)
    reads nodes`num
  {
    Entered(nodes, e) && forall k :: 0 <= k < |e| ==> e[k].key == nodes[k].num
  }

  lemma ArriveNumbered(nodes: seq<Con>, e: seq<Entry<Con, int>>, x: Con, clock: nat)
    requires Numbered(nodes, e)
    ensures Numbered(InsertAt(nodes, Place(Nums(nodes), x.num, WsLess), x), Arrive(e, x, x.num, clock, WsLess))
  {
    assert Keys(e) == Nums(nodes);
    var i := Place(Keys(e), x.num, WsLess);
    var t, u := InsertAt(nodes, i, x), Arrive(e, x, x.num, clock, WsLess);
    forall k | 0 <= k < |u|
      ensures u[k].item == t[k] && u[k].key == t[k].num
    {
      ArriveAt(nodes, e, x, x.num, clock, WsLess, k);
    }
  }

  lemma LeaveNumbered(nodes: seq<Con>, e: seq<Entry<Con, int>>, x: Con)
    requires Numbered(nodes, e) && x in nodes
    ensures Numbered(Remove(nodes, x), Leave(e, x))
  {
    WhereIndex(nodes, e, x);
    var t, u := Remove(nodes, x), Leave(e, x);
    forall k | 0 <= k < |u| ensures u[k].item == t[k] && u[k].key == t[k].num { LeaveAt(nodes, e, x, k); }
  }

  /** The entries are these dock clients with their class and instance. */
  ghost predicate Docked(nodes: seq<Con>, e: seq<Entry<Con, DockKey>>)
    requires Windowed(nodes)
    reads nodes`window, set c | c in nodes && c.window != null :: c.window
  {
    Entered(nodes, e) && forall k :: 0 <= k < |e| ==> e[k].key == DockKeyOf(nodes[k].window)
  }

  lemma ArriveDocked(nodes: seq<Con>, e: seq<Entry<Con, DockKey>>, x: Con, clock: nat)
    requires Windowed(nodes) && Docked(nodes, e) && x.window != null
    ensures var t := InsertAt(nodes, Place(DockKeys(nodes), DockKeyOf(x.window), DockLess), x);
            Windowed(t) && Docked(t, Arrive(e, x, DockKeyOf(x.window), clock, DockLess))
  {
    assert Keys(e) == DockKeys(nodes);
    var key := DockKeyOf(x.window);
    var t, u := InsertAt(nodes, Place(Keys(e), key, DockLess), x), Arrive(e, x, key, clock, DockLess);
    forall k | 0 <= k < |u| ensures t[k].window != null && u[k].item == t[k] && u[k].key == DockKeyOf(t[k].window) {
      ArriveAt(nodes, e, x, key, clock, DockLess, k);
    }
  }

  lemma LeaveDocked(nodes: seq<Con>, e: seq<Entry<Con, DockKey>>, x: Con)
    requires Windowed(nodes) && Docked(nodes, e) && x in nodes
    ensures Windowed(Remove(nodes, x)) && Docked(Remove(nodes, x), Leave(e, x))
  {
    WhereIndex(nodes, e, x);
    var t, u := Remove(nodes, x), Leave(e, x);
    forall k | 0 <= k < |u|
      ensures t[k].window != null && u[k].item == t[k] && u[k].key == DockKeyOf(t[k].window)
    {
      LeaveAt(nodes, e, x, k);
    }
  }

  // ---- the code --------------------------------------------------------------------------------

  method WorkspacePosition(nodes: seq<Con>, num: int) returns (i: nat)
    ensures i == Place(Nums(nodes), num, WsLess)
  {
    PlaceUnique(Nums(nodes), num, WsLess);
    if num == -1 || nodes == [] {
      return |nodes|;
    }
    i := 0;
    if num < nodes[0].num {
      return;
    }
    while i < |nodes| && nodes[i].num != -1 && num >= nodes[i].num
      invariant i <= |nodes| && forall j :: 0 <= j < i ==> !WsLess(num, nodes[j].num)
    {
      i := i + 1;
    }
  }

  lemma PlaceUnique<K>(keys: seq<K>, k: K, less: (K, K) -> bool)
    ensures forall i ::
              && 0 <= i <= |keys|
              && (forall j :: 0 <= j < i ==> !less(k, keys[j]))
              && (i < |keys| ==> less(k, keys[i]))
              ==> i == Place(keys, k, less)
  {
  }

  method DockPosition(nodes: seq<Con>, window: Window) returns (i: nat)
    requires Windowed(nodes)
    ensures i == Place(DockKeys(nodes), DockKeyOf(window), DockLess)
  {
    ghost var keys := DockKeys(nodes);
    PlaceUnique(keys, DockKeyOf(window), DockLess);
    i := 0;
    while i < |nodes|
      invariant i <= |nodes| && forall j :: 0 <= j < i ==> !DockLess(DockKeyOf(window), keys[j])
    {
      var w := nodes[i].window;
      var result := StrCaseCmpNullable(window.classClass, w.classClass);
      if result == 0 {
        result := StrCaseCmpNullable(window.classInstance, w.classInstance);
      }
      if result < 0 {
        break;
      }
      i := i + 1;
    }
  }

  method TilingPosition(parent: Con, previous: Con?, ignoreFocus: bool) returns (i: nat)
    requires NoDup(parent.nodes)
    requires Anchor(parent.focus, previous, ignoreFocus) != null ==>
             Anchor(parent.focus, previous, ignoreFocus) in parent.nodes
    ensures i == TilingPlace(parent.nodes, Anchor(parent.focus, previous, ignoreFocus), parent.kind)
  {
    var current := previous;
    if !ignoreFocus {
      var k := 0;
      while k < |parent.focus| && parent.focus[k].kind == CtFloatingCon
        invariant k <= |parent.focus| && FirstTiling(parent.focus) == FirstTiling(parent.focus[k..])
      {
        k := k + 1;
      }
      if k < |parent.focus| {
        current := parent.focus[k];
      }
    }
    i := if current != null && parent.kind != CtOutput then Index(parent.nodes, current) + 1 else |parent.nodes|;
  }

  method LinkNode(con: Con, parent: Con, i: nat, ghost s: set<Con>, ghost f: Forest)
    requires parent in s && LinksAre(s, f) && i <= |parent.nodes|
    modifies parent`nodes
    ensures LinksAre(s, f.(nodes := f.nodes[parent := InsertAt(f.nodes[parent], i, con)]))
  {
    parent.nodes := InsertAt(parent.nodes, i, con);
  }

  method LinkFloating(con: Con, parent: Con, ghost s: set<Con>, ghost f: Forest)
    requires parent in s && LinksAre(s, f)
    modifies parent`floats
    ensures LinksAre(s, f.(floats := f.floats[parent := f.floats[parent] + [con]]))
  {
    parent.floats := parent.floats + [con];
  }

  method LinkFocus(con: Con, parent: Con, ghost s: set<Con>, ghost f: Forest)
    requires con in s && parent in s && LinksAre(s, f)
    modifies con`parent, parent`focus
    ensures LinksAre(s, f.(par := Adopted(f.par, con, parent), focus := f.focus[parent := f.focus[parent] + [con]]))
  {
    con.parent := parent;
    parent.focus := parent.focus + [con];
  }

  method Link(con: Con, parent: Con, i: nat, ghost s: set<Con>, ghost f: Forest)
    requires con in s && parent in s && LinksAre(s, f) && i <= |parent.nodes|
    modifies con`parent, parent`nodes, parent`floats, parent`focus
    ensures LinksAre(s, AttachAt(f, con, parent, i)) && con.parent == parent
  {
    if con.kind == CtFloatingCon && parent.kind != CtDockarea {
      LinkFloating(con, parent, s, f);
      LinkFocus(con, parent, s, f.(floats := f.floats[parent := f.floats[parent] + [con]]));
    } else {
      LinkNode(con, parent, i, s, f);
      LinkFocus(con, parent, s, f.(nodes := f.nodes[parent := InsertAt(f.nodes[parent], i, con)]));
    }
  }

  /** What _con_attach takes for granted: dock clients have windows, and the anchor is a tiled child. */
  ghost predicate Attachable(con: Con, parent: Con, previous: Con?, ignoreFocus: bool)
    reads con, parent
    reads parent.nodes
  {
    && NoDup(parent.nodes)
    && (con.kind != CtWorkspace && parent.kind == CtDockarea ==> con.window != null && Windowed(parent.nodes))
    && (con.kind != CtWorkspace && parent.kind != CtDockarea && con.kind != CtFloatingCon ==>
          var anchor := Anchor(parent.focus, previous, ignoreFocus); anchor != null ==> anchor in parent.nodes)
  }

  /** In a tree it may be taken for granted: what is left are the windows of dock clients, and that `previous`
      is a tiled child, if it is given. */
  lemma TreeAttachable(con: Con, parent: Con, previous: Con?, ignoreFocus: bool, s: set<Con>, f: Forest,
                       loose: set<Con>, r: Rank)
    requires parent in s && LinksAre(s, f) && WellFormed(f, loose, r)
    requires con.kind != CtWorkspace && parent.kind == CtDockarea ==> con.window != null && Windowed(f.nodes[parent])
    requires previous != null ==> previous in f.nodes[parent]
    ensures Attachable(con, parent, previous, ignoreFocus)
  {
    assert Linked(f, loose, parent);
    assert FirstTiling(f.focus[parent]) != null ==> FirstTiling(f.focus[parent]) in f.focus[parent];
  }

  /** The place _con_attach chooses for a tiled child. */
  ghost function Chosen(nodes: seq<Con>, focus: seq<Con>, con: Con, parent: Con, previous: Con?,
                        ignoreFocus: bool): (i: nat)
    requires con.kind != CtWorkspace && parent.kind == CtDockarea ==> con.window != null && Windowed(nodes)
    reads con`num, nodes`num, con`window, nodes`window, con.window, set c | c in nodes && c.window != null :: c.window
    ensures i <= |nodes|
  {
    if con.kind == CtWorkspace then Place(Nums(nodes), con.num, WsLess)
    else if parent.kind == CtDockarea then Place(DockKeys(nodes), DockKeyOf(con.window), DockLess)
    else if con.kind == CtFloatingCon then 0
    else TilingPlace(nodes, Anchor(focus, previous, ignoreFocus), parent.kind)
  }

  method ChoosePlace(con: Con, parent: Con, previous: Con?, ignoreFocus: bool, ghost chosen: nat) returns (i: nat)
    requires Attachable(con, parent, previous, ignoreFocus)
    requires chosen == Chosen(parent.nodes, parent.focus, con, parent, previous, ignoreFocus)
    ensures i == chosen
  {
    if con.kind == CtWorkspace {
      i := WorkspacePosition(parent.nodes, con.num);
    } else if parent.kind == CtDockarea {
      i := DockPosition(parent.nodes, con.window);
    } else if con.kind == CtFloatingCon {
      i := 0;
    } else {
      i := TilingPosition(parent, previous, ignoreFocus);
    }
  }

  /** _con_attach, except for a window on a workspace that has a workspace_layout. */
  method ConAttach(con: Con, parent: Con, previous: Con?, ignoreFocus: bool, ghost s: set<Con>, ghost f: Forest)
    returns (ghost i: nat)
    requires con in s && parent in s && LinksAre(s, f) && Attachable(con, parent, previous, ignoreFocus)
    modifies con`parent, parent`nodes, parent`floats, parent`focus
    ensures i == old(Chosen(parent.nodes, parent.focus, con, parent, previous, ignoreFocus))
    ensures i <= |f.nodes[parent]| && LinksAre(s, AttachAt(f, con, parent, i)) && con.parent == parent
  {
    i := Chosen(parent.nodes, parent.focus, con, parent, previous, ignoreFocus);
    var place := ChoosePlace(con, parent, previous, ignoreFocus, i);
    Link(con, parent, place, s, f);
  }

  method Unlink(con: Con, p: Con, ghost s: set<Con>, ghost f: Forest)
    requires con in s && p in s && LinksAre(s, f) && con.parent == p
    modifies p`nodes, p`floats, p`focus
    ensures LinksAre(s, Detach(f, con))
  {
    if con.kind == CtFloatingCon {
      p.floats := Remove(p.floats, con);
      p.focus := Remove(p.focus, con);
    } else {
      p.nodes := Remove(p.nodes, con);
      p.focus := Remove(p.focus, con);
    }
  }

  /** con_detach; con itself keeps pointing to its old parent. */
  method ConDetach(con: Con, ghost s: set<Con>, ghost f: Forest)
    requires con in s && con.parent != null && con.parent in s && LinksAre(s, f)
    modifies con.parent`nodes, con.parent`floats, con.parent`focus
    ensures LinksAre(s, Detach(f, con))
  {
    Unlink(con, con.parent, s, f);
  }

  /** The place among the siblings, when the list is to become l. */
  method AttachAmong(ws: Con, content: Con, ghost s: set<Con>, ghost f: Forest, ghost l: seq<Con>,
                     ghost after: seq<Entry<Con, int>>)
    returns (ghost i: nat)
    requires ws in s && content in s && LinksAre(s, f) && ws.kind == CtWorkspace && ws != content &&
             NoDup(content.nodes)
    requires l == InsertAt(content.nodes, Place(Nums(content.nodes), ws.num, WsLess), ws) && Numbered(l, after)
    modifies ws`parent, content`nodes, content`floats, content`focus
    ensures i <= |f.nodes[content]| && LinksAre(s, AttachAt(f, ws, content, i))
    ensures content.nodes == l && Numbered(l, after)
  {
    i := ConAttach(ws, content, null, false, s, f);
  }

  /** Attaching a workspace adds its entry to the list of its siblings. */
  method AttachWorkspace(ws: Con, content: Con, ghost s: set<Con>, ghost f: Forest, ghost e: seq<Entry<Con, int>>,
                         ghost clock: nat)
    returns (ghost i: nat)
    requires ws in s && content in s && LinksAre(s, f) && ws.kind == CtWorkspace && ws != content
    requires NoDup(content.nodes) && Numbered(content.nodes, e)
    modifies ws`parent, content`nodes, content`floats, content`focus
    ensures i <= |f.nodes[content]| && LinksAre(s, AttachAt(f, ws, content, i))
    ensures Numbered(content.nodes, Apply(e, Add(ws, ws.num), clock, WsLess))
  {
    ArriveNumbered(content.nodes, e, ws, clock);
    ghost var l := InsertAt(content.nodes, Place(Nums(content.nodes), ws.num, WsLess), ws);
    i := AttachAmong(ws, content, s, f, l, Apply(e, Add(ws, ws.num), clock, WsLess));
  }

  method SetNum(ws: Con, num: int)
    modifies ws`num
    ensures ws.num == num
  {
    ws.num := num;
  }

  method DetachRenamed(ws: Con, num: int, parent: Con, ghost s: set<Con>, ghost f: Forest,
                       ghost e: seq<Entry<Con, int>>)
    requires ws in s && parent in s && ws.parent == parent && LinksAre(s, f) && ws.kind == CtWorkspace
    requires NoDup(parent.nodes) && ws in parent.nodes && Numbered(parent.nodes, e)
    modifies ws`num, parent`nodes, parent`floats, parent`focus
    ensures ws.num == num && LinksAre(s, Detach(f, ws))
    ensures NoDup(parent.nodes) && Numbered(parent.nodes, Leave(e, ws))
  {
    RemoveFacts(parent.nodes, ws);
    LeaveNumbered(parent.nodes, e, ws);
    SetNum(ws, num);
    Unlink(ws, parent, s, f);
  }

  /** The re-attaching step of cmd_rename_workspace. */
  method RenameWorkspace(ws: Con, num: int, ghost s: set<Con>, ghost f: Forest, ghost e: seq<Entry<Con, int>>,
                         ghost clock: nat)
    returns (ghost i: nat)
    requires ws in s && LinksAre(s, f) && ws.kind == CtWorkspace
    requires ws.parent != null && ws.parent in s && ws.parent != ws && ws in ws.parent.nodes
    requires NoDup(ws.parent.nodes) && Numbered(ws.parent.nodes, e)
    modifies ws`num, ws`parent, ws.parent`nodes, ws.parent`floats, ws.parent`focus
    ensures ws.num == num
    ensures var p: Con := f.par[ws];
            && i <= |Detach(f, ws).nodes[p]| && LinksAre(s, AttachAt(Detach(f, ws), ws, p, i))
            && Numbered(p.nodes, Apply(e, Change.Rename(ws, num), clock, WsLess))
  {
    var parent: Con := ws.parent;
    DetachRenamed(ws, num, parent, s, f, e);
    i := AttachWorkspace(ws, parent, s, Detach(f, ws), Leave(e, ws), clock);
  }

  /** The place among the dock clients, when the list is to become l. */
  method DockAmong(con: Con, dock: Con, ghost s: set<Con>, ghost f: Forest, ghost l: seq<Con>,
                   ghost after: seq<Entry<Con, DockKey>>)
    returns (ghost i: nat)
    requires con in s && dock in s && LinksAre(s, f) && con.kind == CtCon && dock.kind == CtDockarea
    requires NoDup(dock.nodes) && con.window != null && Windowed(dock.nodes)
    requires l == InsertAt(dock.nodes, Place(DockKeys(dock.nodes), DockKeyOf(con.window), DockLess), con)
    requires Windowed(l) && Docked(l, after)
    modifies con`parent, dock`nodes, dock`floats, dock`focus
    ensures i <= |f.nodes[dock]| && LinksAre(s, AttachAt(f, con, dock, i))
    ensures dock.nodes == l && Windowed(l) && Docked(l, after)
  {
    i := ConAttach(con, dock, null, false, s, f);
  }

  /** Attaching a dock client adds its entry to the list of the dock area. */
  method AttachDockClient(con: Con, dock: Con, ghost s: set<Con>, ghost f: Forest, ghost e: seq<Entry<Con, DockKey>>,
                          ghost clock: nat)
    returns (ghost i: nat)
    requires con in s && dock in s && LinksAre(s, f) && con.kind == CtCon && dock.kind == CtDockarea
    requires NoDup(dock.nodes) && con.window != null && Windowed(dock.nodes) && Docked(dock.nodes, e)
    modifies con`parent, dock`nodes, dock`floats, dock`focus
    ensures i <= |f.nodes[dock]| && LinksAre(s, AttachAt(f, con, dock, i))
    ensures Windowed(dock.nodes)
    ensures Docked(dock.nodes, Apply(e, Add(con, DockKeyOf(con.window)), clock, DockLess))
  {
    ArriveDocked(dock.nodes, e, con, clock);
    ghost var l := InsertAt(dock.nodes, Place(DockKeys(dock.nodes), DockKeyOf(con.window), DockLess), con);
    i := DockAmong(con, dock, s, f, l, Apply(e, Add(con, DockKeyOf(con.window)), clock, DockLess));
  }

  /** y follows x directly. */
  ghost predicate Follows(l: seq<Con>, x: Con, y: Con) {
    exists i, j {:trigger l[i], l[j]} :: 0 <= i && j == i + 1 && j < |l| && l[i] == x && l[j] == y
  }

  lemma InsertedFollows(l: seq<Con>, anchor: Con, x: Con)
    requires anchor in l
    ensures Follows(InsertAt(l, Index(l, anchor) + 1, x), anchor, x)
  {
    var i := Index(l, anchor);
    var t := InsertAt(l, i + 1, x);
    assert t[i] == anchor && t[i + 1] == x;
  }

  /** A window or split container is attached directly behind the first tiling container of the focus list or, when that
      is to be ignored, behind the given one; without any it comes last.  It comes last in the focus list. */
  method AttachTiling(con: Con, parent: Con, previous: Con?, ignoreFocus: bool, ghost s: set<Con>, ghost f: Forest)
    requires con in s && parent in s && LinksAre(s, f) && con != parent && con.kind == CtCon
    requires parent.kind != CtDockarea && parent.kind != CtOutput && Attachable(con, parent, previous, ignoreFocus)
    modifies con`parent, parent`nodes, parent`floats, parent`focus
    ensures con.parent == parent && parent.focus == old(parent.focus) + [con] && parent.floats == old(parent.floats)
    ensures !ignoreFocus && FirstTiling(old(parent.focus)) != null ==>
              Follows(parent.nodes, FirstTiling(old(parent.focus)), con)
    ensures (ignoreFocus || FirstTiling(old(parent.focus)) == null) && previous != null ==>
              Follows(parent.nodes, previous, con)
    ensures (ignoreFocus || FirstTiling(old(parent.focus)) == null) && previous == null ==>
              parent.nodes == old(parent.nodes) + [con]
  {
    ghost var l, anchor := parent.nodes, Anchor(parent.focus, previous, ignoreFocus);
    ghost var i := ConAttach(con, parent, previous, ignoreFocus, s, f);
    assert parent.nodes == InsertAt(l, i, con);
    if anchor != null { InsertedFollows(l, anchor, con); }
  }

  /** A floating container comes last among the floating ones and in the focus list. */
  method AttachFloating(con: Con, ws: Con, ghost s: set<Con>, ghost f: Forest)
    requires con in s && ws in s && LinksAre(s, f) && con.kind == CtFloatingCon && ws.kind == CtWorkspace
    requires NoDup(ws.nodes)
    modifies con`parent, ws`nodes, ws`floats, ws`focus
    ensures con.parent == ws && ws.floats == old(ws.floats) + [con] && ws.focus == old(ws.focus) + [con]
    ensures ws.nodes == old(ws.nodes)
  {
    ghost var i := ConAttach(con, ws, null, false, s, f);
  }
}
