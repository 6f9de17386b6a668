/**
 The container tree: the heap of containers, a value that records its links, and what it means for
 the links to form a tree.
 */
module Tree {
  import opened Lists

  datatype Kind = CtRoot | CtOutput | CtCon | CtFloatingCon | CtWorkspace | CtDockarea
  datatype Layout = LDefault | LStacked | LTabbed | LDockarea | LOutput | LSplitv | LSplith
  datatype FullscreenMode = CfNone | CfOutput | CfGlobal
  datatype Floating = AutoOff | UserOff | AutoOn | UserOn
  datatype Rect = Rect(x: nat, y: nat, width: nat, height: nat)

  /** The X11 window of a container; 0 is XCB_NONE. */
  class Window {
    var id: nat
    var transientFor: nat
    var classClass: Option<string>
    var classInstance: Option<string>
  }

  class Con {
    const kind: Kind
    var parent: Con?
    var nodes: seq<Con>      // nodes_head
    var floats: seq<Con>     // floating_head
    var focus: seq<Con>      // focus_head, most recently focused first
    var layout: Layout
    var floating: Floating
    var rect: Rect
    var windowRect: Rect
    var percent: real
    var urgent: bool
    var fullscreen: FullscreenMode
    var num: int             // of a workspace; -1 for a named one
    var window: Window?
  }

  /** The globals `croot` and `focused`. */
  class Wm {
    const croot: Con
    var focused: Con

    constructor (root: Con)
      ensures croot == root && focused == root
    {
      croot := root;
      focused := root;
    }
  }

  predicate IsFloating(con: Con)
    reads con
  {
    con.floating == AutoOn || con.floating == UserOn
  }

  /** The links of a set of containers. */
  datatype Forest = Forest(par: map<Con, Con?>, nodes: map<Con, seq<Con>>,
                           floats: map<Con, seq<Con>>, focus: map<Con, seq<Con>>)

  // The heap of the containers in s carries these links.
  ghost predicate ParentsAre(s: set<Con>, par: map<Con, Con?>)
    reads s`parent
  {
    par.Keys == s && forall c {:trigger c.parent} :: c in s ==> c.parent == par[c]
  }

  ghost predicate FocusIs(s: set<Con>, focus: map<Con, seq<Con>>)
    reads s`focus
  {
    focus.Keys == s && forall c {:trigger c.focus} :: c in s ==> c.focus == focus[c]
  }

  ghost predicate LinksAre(s: set<Con>, f: Forest)
    reads s`parent, s`nodes, s`floats, s`focus
  {
    && f.par.Keys == s && f.nodes.Keys == s && f.floats.Keys == s && f.focus.Keys == s
    && forall c {:trigger c.parent} {:trigger c.nodes} {:trigger c.floats} {:trigger c.focus} :: c in s ==>
         c.parent == f.par[c] && c.nodes == f.nodes[c] && c.floats == f.floats[c] && c.focus == f.focus[c]
  }

  /** A witness that no container is its own ancestor: parents rank higher than children. */
  datatype Rank = Rank(h: map<Con, nat>, top: nat)

  ghost predicate Ranked(par: map<Con, Con?>, r: Rank) {
    forall c {:trigger par[c]} :: c in par ==>
      && c in r.h && r.h[c] <= r.top
      && (par[c] != null ==> par[c] in par && par[c] in r.h && r.h[c] < r.h[par[c]])
  }

  /** Where each kind of container hangs. */
  ghost predicate Typed(par: map<Con, Con?>, c: Con)
    requires c in par && (par[c] != null ==> par[c] in par)
  {
    var p := par[c];
    match c.kind
    case CtRoot => p == null
    case CtOutput => p != null && p.kind == CtRoot
    case CtDockarea => p != null && p.kind == CtOutput
    case CtWorkspace => p != null && p.kind == CtCon && par[p] != null && par[p].kind == CtOutput
    case CtFloatingCon => p != null && p.kind == CtWorkspace
    case CtCon => p != null
  }

  ghost predicate ChildOf(par: map<Con, Con?>, loose: set<Con>, x: Con, c: Con) {
    x in par && x !in loose && par[x] == c
  }

  /** The three lists of a container hold exactly its children, each once: the floating ones in
      `floats`, the others in `nodes`, all of them in `focus`.  Containers in `loose` still point to
      the parent they were detached from. */
  ghost predicate Holds(par: map<Con, Con?>, loose: set<Con>, c: Con, nodes: seq<Con>, floats: seq<Con>,
                        focus: seq<Con>)
  {
    && NoDup(nodes) && NoDup(floats) && NoDup(focus)
    && (forall x :: x in focus ==> ChildOf(par, loose, x, c))
    && (forall x :: x in nodes ==> ChildOf(par, loose, x, c) && x.kind != CtFloatingCon)
    && (forall x :: x in floats ==> ChildOf(par, loose, x, c) && x.kind == CtFloatingCon)
    && (forall x :: x in par && ChildOf(par, loose, x, c) ==>
          x in focus && if x.kind == CtFloatingCon then x in floats else x in nodes)
  }

  ghost predicate SameKeys(f: Forest) {
    f.nodes.Keys == f.par.Keys && f.floats.Keys == f.par.Keys && f.focus.Keys == f.par.Keys
  }

  ghost predicate Linked(f: Forest, loose: set<Con>, c: Con)
    requires SameKeys(f) && c in f.par
  {
    Holds(f.par, loose, c, f.nodes[c], f.floats[c], f.focus[c])
  }

  /** Acyclic, and every container is listed exactly where its parent pointer says. */
  ghost predicate Shaped(f: Forest, loose: set<Con>, r: Rank) {
    && SameKeys(f)
    && Ranked(f.par, r)
    && (forall c {:trigger Linked(f, loose, c)} :: c in f.par ==> Linked(f, loose, c))
  }

  ghost predicate WellFormed(f: Forest, loose: set<Con>, r: Rank) {
    && Shaped(f, loose, r)
    && (forall c {:trigger Typed(f.par, c)} :: c in f.par ==> Typed(f.par, c))
  }

  /** Children rank below their parent. */
  ghost predicate Down(kids: map<Con, seq<Con>>, r: Rank) {
    forall c, x {:trigger x in kids[c]} :: c in kids && x in kids[c] ==>
        x in kids && c in r.h && x in r.h && r.h[x] < r.h[c]
  }

  lemma ListsGoDown(f: Forest, loose: set<Con>, r: Rank)
    requires Shaped(f, loose, r)
    ensures Down(f.nodes, r) && Down(f.floats, r) && Down(f.focus, r)
  {
    forall c | c in f.par
      ensures forall x :: x in f.focus[c] || x in f.nodes[c] || x in f.floats[c] ==> x in f.par && r.h[x] < r.h[c]
    {
      assert Linked(f, loose, c);
      forall x | x in f.focus[c] || x in f.nodes[c] || x in f.floats[c] ensures x in f.par && r.h[x] < r.h[c] {
        assert ChildOf(f.par, loose, x, c);
      }
    }
  }

  /** a is x or an ancestor of x. */
  ghost predicate Within(par: map<Con, Con?>, r: Rank, x: Con, a: Con)
    requires Ranked(par, r) && x in par
    decreases r.top - r.h[x]
  {
    x == a || (par[x] != null && Within(par, r, par[x], a))
  }

  lemma WithinRank(par: map<Con, Con?>, r: Rank, x: Con, a: Con)
    requires Ranked(par, r) && x in par && Within(par, r, x, a)
    ensures a in par && r.h[x] <= r.h[a] && (x != a ==> r.h[x] < r.h[a])
    decreases r.top - r.h[x]
  {
    if x != a { WithinRank(par, r, par[x], a); }
  }

  lemma WithinTrans(par: map<Con, Con?>, r: Rank, x: Con, y: Con, z: Con)
    requires Ranked(par, r) && x in par && Within(par, r, x, y) && y in par && Within(par, r, y, z)
    ensures Within(par, r, x, z)
    decreases r.top - r.h[x]
  {
    if x != y { WithinTrans(par, r, par[x], y, z); }
  }

  /** Of two ancestors of x one is above the other. */
  lemma WithinLinear(par: map<Con, Con?>, r: Rank, x: Con, a: Con, b: Con)
    requires Ranked(par, r) && x in par && Within(par, r, x, a) && Within(par, r, x, b)
    ensures a in par && b in par && (Within(par, r, a, b) || Within(par, r, b, a))
    decreases r.top - r.h[x]
  {
    WithinRank(par, r, x, a);
    WithinRank(par, r, x, b);
    if x != a && x != b { WithinLinear(par, r, par[x], a, b); }
  }

  /** Siblings share no descendant. */
  lemma SiblingsApart(par: map<Con, Con?>, r: Rank, x: Con, a: Con, b: Con)
    requires Ranked(par, r) && x in par && Within(par, r, x, a) && Within(par, r, x, b)
    requires a in par && b in par && par[a] == par[b] && par[a] != null
    ensures a == b
  {
    WithinLinear(par, r, x, a, b);
    if a != b {
      if Within(par, r, a, b) { WithinRank(par, r, par[a], b); } else { WithinRank(par, r, par[b], a); }
    }
  }

  /** The child of a on the way from x up to a. */
  ghost function Toward(par: map<Con, Con?>, r: Rank, x: Con, a: Con): (c: Con)
    requires Ranked(par, r) && x in par && Within(par, r, x, a) && x != a
    ensures c in par && par[c] == a && Within(par, r, x, c)
    decreases r.top - r.h[x]
  {
    if par[x] == a then x else Toward(par, r, par[x], a)
  }

  /** con_detach as a change of the links: the lists of the parent lose c, whose own parent pointer stays. */
  ghost function Detach(f: Forest, c: Con): (g: Forest)
    requires SameKeys(f) && c in f.par && f.par[c] != null && f.par[c] in f.par
    ensures g.par == f.par && SameKeys(g)
    ensures forall x :: x in f.par && x != f.par[c] ==>
              g.nodes[x] == f.nodes[x] && g.floats[x] == f.floats[x] && g.focus[x] == f.focus[x]
  {
    var p := f.par[c];
    var g := f.(focus := f.focus[p := Remove(f.focus[p], c)]);
    if c.kind == CtFloatingCon then g.(floats := f.floats[p := Remove(f.floats[p], c)])
    else g.(nodes := f.nodes[p := Remove(f.nodes[p], c)])
  }

  lemma HoldsWithout(par: map<Con, Con?>, loose: set<Con>, p: Con, nodes: seq<Con>, floats: seq<Con>, focus: seq<Con>,
                     c: Con)
    requires Holds(par, loose, p, nodes, floats, focus) && ChildOf(par, loose, c, p)
    ensures Holds(par, loose + {c}, p, Remove(nodes, c), Remove(floats, c), Remove(focus, c))
    ensures if c.kind == CtFloatingCon then Remove(nodes, c) == nodes else Remove(floats, c) == floats
  {
    RemoveFacts(nodes, c);
    RemoveFacts(floats, c);
    RemoveFacts(focus, c);
  }

  lemma HoldsElsewhere(par: map<Con, Con?>, loose: set<Con>, x: Con, nodes: seq<Con>, floats: seq<Con>, focus: seq<Con>,
                       c: Con)
    requires Holds(par, loose, x, nodes, floats, focus) && !ChildOf(par, loose, c, x)
    ensures Holds(par, loose + {c}, x, nodes, floats, focus)
  {
  }

  lemma DetachWellFormed(f: Forest, loose: set<Con>, r: Rank, c: Con)
    requires WellFormed(f, loose, r) && c in f.par && c !in loose && f.par[c] != null
    ensures WellFormed(Detach(f, c), loose + {c}, r)
  {
    var g, p := Detach(f, c), f.par[c];
    forall x {:trigger Linked(g, loose + {c}, x)} | x in g.par ensures Linked(g, loose + {c}, x) {
      assert Linked(f, loose, x);
      if x == p {
        HoldsWithout(f.par, loose, p, f.nodes[p], f.floats[p], f.focus[p], c);
      } else {
        HoldsElsewhere(f.par, loose, x, f.nodes[x], f.floats[x], f.focus[x], c);
      }
    }
  }
}
