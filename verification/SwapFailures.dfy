/** Swaps that go wrong: one breaks the tree, one leaves the cached urgency of a container wrong, and one loses a
    fullscreen mode. */
module SwapFailures {
  import opened Lists
  import opened Tree
  import opened Urgency
  import opened Swap
  import opened SwapUrgency
  import opened Fullscreen

  lemma HoldsAll(par: Parents, c: Con, l: seq<Con>)
    requires NoDup(l) && forall x :: x in l ==> x in par && ChildOf(par, {}, x, c) && x.kind != CtFloatingCon
    requires forall x :: x in par && ChildOf(par, {}, x, c) ==> x in l && x.kind != CtFloatingCon
    ensures Holds(par, {}, c, l, [], l)
  {
  }

  // ---- a swap that breaks the tree ---------------------------------------------------------------

  /** An output with the content container a, which holds a workspace, and a dock area with the client b. */
  datatype Docked = Docked(root: Con, output: Con, a: Con, ws: Con, dock: Con, b: Con) {
    ghost predicate Valid() {
      && root.kind == CtRoot && output.kind == CtOutput && ws.kind == CtWorkspace && dock.kind == CtDockarea
      && a.kind == CtCon && b.kind == CtCon && a != b
    }

    ghost function All(): set<Con> {
      {root, output, a, ws, dock, b}
    }

    ghost function Parent(c: Con): Con? {
      if c == output then root else if c == a || c == dock then output else if c == ws then a
      else if c == b then dock else null
    }

    ghost function Children(c: Con): seq<Con> {
      if c == root then [output] else if c == output then [a, dock] else if c == a then [ws]
      else if c == dock then [b] else []
    }

    ghost function Height(c: Con): nat {
      if c == root then 3 else if c == output then 2 else if c == a || c == dock then 1 else 0
    }

    ghost function Links(): Forest {
      Forest(map c | c in All() :: Parent(c), map c | c in All() :: Children(c), map c | c in All() :: [],
             map c | c in All() :: Children(c))
    }

    ghost function Heights(): Rank {
      Rank(map c | c in All() :: Height(c), 3)
    }
  }

  lemma DockedChild(z: Docked, c: Con, x: Con)
    requires z.Valid() && c in z.All() && x in z.All()
    ensures x in z.Children(c) <==> z.Parent(x) == c
    ensures z.Parent(x) != null ==> z.Parent(x) in z.All()
    ensures NoDup(z.Children(c)) && (x in z.Children(c) ==> x.kind != CtFloatingCon)
  {
  }

  lemma DockedInside(z: Docked, c: Con, x: Con)
    requires c in z.All() && x in z.Children(c)
    ensures x in z.All()
  {
  }

  lemma DockedLinked(z: Docked, c: Con)
    requires z.Valid() && c in z.All()
    ensures Linked(z.Links(), {}, c) && (z.Parent(c) != null ==> z.Parent(c) in z.All()) && Typed(z.Links().par, c)
  {
    DockedChild(z, c, c);
    forall x | x in z.All()
      ensures x in z.Children(c) <==> ChildOf(z.Links().par, {}, x, c)
      ensures x in z.Children(c) ==> x.kind != CtFloatingCon
    {
      DockedChild(z, c, x);
    }
    forall x | x in z.Children(c) ensures x in z.All() { DockedInside(z, c, x); }
    HoldsAll(z.Links().par, c, z.Children(c));
  }

  lemma DockedHeight(z: Docked, c: Con)
    requires z.Valid() && c in z.All()
    ensures z.Height(c) <= 3
    ensures z.Parent(c) != null ==> z.Parent(c) in z.All() && z.Height(c) < z.Height(z.Parent(c))
  {
  }

  lemma DockedRanked(z: Docked)
    requires z.Valid()
    ensures Ranked(z.Links().par, z.Heights())
  {
    forall c | c in z.All()
      ensures z.Height(c) <= 3 && (z.Parent(c) != null ==>
                                   z.Parent(c) in z.All() && z.Height(c) < z.Height(z.Parent(c)))
    {
      DockedHeight(z, c);
    }
  }

  lemma DockedWellFormed(z: Docked)
    requires z.Valid()
    ensures WellFormed(z.Links(), {}, z.Heights())
  {
    DockedRanked(z);
    forall c {:trigger Linked(z.Links(), {}, c)} {:trigger Typed(z.Links().par, c)} | c in z.Links().par
      ensures Linked(z.Links(), {}, c) && Typed(z.Links().par, c)
    {
      DockedLinked(z, c);
    }
  }

  lemma DockedSwappable(z: Docked)
    requires z.Valid() && Ranked(z.Links().par, z.Heights())
    ensures Swappable(z.Links(), z.Heights(), z.a, z.b) && !KeepsPlaces(z.Links().par, z.a, z.b)
  {
    var par, r := z.Links().par, z.Heights();
    assert !Within(par, r, z.root, z.a) && !Within(par, r, z.root, z.b);
    assert !Within(par, r, z.output, z.a) && !Within(par, r, z.output, z.b);
    assert !Within(par, r, z.dock, z.a);
    assert z.ws in par && par[z.ws] == z.a;
  }

  /** Swapping a, which criteria with its con_id can match, with b puts the workspace into the dock area. */
  lemma SwapMisplacesWorkspace(z: Docked, f: Forest, r: Rank)
    requires z.Valid() && f == z.Links() && r == z.Heights()
    ensures WellFormed(f, {}, r) && Swappable(f, r, z.a, z.b)
    ensures !WellFormed(Swapped(f, z.a, z.b), {}, Lifted(f.par, r, z.a, z.b))
  {
    DockedWellFormed(z);
    DockedSwappable(z);
    SwapTyped(f, r, z.a, z.b);
  }

  // ---- a swap that misses a flag -----------------------------------------------------------------

  /** A workspace with p, which holds n, and x, which holds y. */
  datatype Scene = Scene(root: Con, output: Con, content: Con, ws: Con, p: Con, n: Con, x: Con, y: Con) {
    ghost predicate Valid() {
      && root.kind == CtRoot && output.kind == CtOutput && content.kind == CtCon && ws.kind == CtWorkspace
      && p.kind == CtCon && n.kind == CtCon && x.kind == CtCon && y.kind == CtCon
      && content !in {p, n, x, y} && p !in {n, x, y} && n !in {x, y} && x != y
    }

    ghost function All(): set<Con> {
      {root, output, content, ws, p, n, x, y}
    }

    ghost function Parent(c: Con): Con? {
      if c == output then root else if c == content then output else if c == ws then content
      else if c == p || c == x then ws else if c == n then p else if c == y then x else null
    }

    ghost function Children(c: Con): seq<Con> {
      if c == root then [output] else if c == output then [content] else if c == content then [ws]
      else if c == ws then [p, x] else if c == p then [n] else if c == x then [y] else []
    }

    ghost function Height(c: Con): nat {
      if c == root then 5 else if c == output then 4 else if c == content then 3 else if c == ws then 2
      else if c == p || c == x then 1 else 0
    }

    ghost function Links(): Forest {
      Forest(map c | c in All() :: Parent(c), map c | c in All() :: Children(c), map c | c in All() :: [],
             map c | c in All() :: Children(c))
    }

    ghost function Heights(): Rank {
      Rank(map c | c in All() :: Height(c), 5)
    }

    /** x and y are urgent. */
    ghost function Urgents(): Flags {
      map c | c in All() :: c == x || c == y || c == ws
    }
  }

  lemma SceneHeight(z: Scene, c: Con)
    requires z.Valid() && c in z.All()
    ensures z.Height(c) <= 5
    ensures z.Parent(c) != null ==> z.Parent(c) in z.All() && z.Height(c) < z.Height(z.Parent(c))
  {
  }

  lemma SceneRanked(z: Scene)
    requires z.Valid()
    ensures Ranked(z.Links().par, z.Heights())
  {
    forall c | c in z.All()
      ensures z.Height(c) <= 5 && (z.Parent(c) != null ==>
                                   z.Parent(c) in z.All() && z.Height(c) < z.Height(z.Parent(c)))
    {
      SceneHeight(z, c);
    }
  }

  lemma SceneChild(z: Scene, c: Con, x: Con)
    requires z.Valid() && c in z.All() && x in z.All()
    ensures x in z.Children(c) <==> z.Parent(x) == c
    ensures z.Parent(x) != null ==> z.Parent(x) in z.All()
    ensures NoDup(z.Children(c)) && (x in z.Children(c) ==> x.kind != CtFloatingCon)
  {
  }

  lemma SceneTyped(z: Scene, c: Con)
    requires z.Valid() && c in z.All() && (z.Parent(c) != null ==> z.Parent(c) in z.All())
    ensures Typed(z.Links().par, c)
  {
  }

  lemma SceneLinked(z: Scene, c: Con)
    requires z.Valid() && c in z.All()
    ensures Linked(z.Links(), {}, c) && (z.Parent(c) != null ==> z.Parent(c) in z.All())
  {
    var f := z.Links();
    SceneChild(z, c, c);
    forall x | x in z.All()
      ensures x in z.Children(c) <==> ChildOf(f.par, {}, x, c)
      ensures x in z.Children(c) ==> x.kind != CtFloatingCon
    {
      SceneChild(z, c, x);
    }
    forall x | x in z.Children(c) ensures x in z.All() { SceneInside(z, c, x); }
    HoldsAll(f.par, c, z.Children(c));
  }

  lemma SceneInside(z: Scene, c: Con, x: Con)
    requires c in z.All() && x in z.Children(c)
    ensures x in z.All()
  {
  }

  lemma SceneWellFormed(z: Scene)
    requires z.Valid()
    ensures WellFormed(z.Links(), {}, z.Heights())
  {
    SceneRanked(z);
    forall c {:trigger Linked(z.Links(), {}, c)} {:trigger Typed(z.Links().par, c)} | c in z.Links().par
      ensures Linked(z.Links(), {}, c) && Typed(z.Links().par, c)
    {
      SceneLinked(z, c);
      SceneTyped(z, c);
    }
  }

  lemma SceneBelow(z: Scene)
    requires z.Valid() && Ranked(z.Links().par, z.Heights())
    ensures var par, r := z.Links().par, z.Heights();
            && BelowWorkspace(par, r, z.p) && BelowWorkspace(par, r, z.x) && BelowWorkspace(par, r, z.n)
            && !BelowWorkspace(par, r, z.root) && !BelowWorkspace(par, r, z.output)
            && !BelowWorkspace(par, r, z.content) && !BelowWorkspace(par, r, z.ws)
  {
    var par, r := z.Links().par, z.Heights();
    assert !BelowWorkspace(par, r, z.root);
    assert !BelowWorkspace(par, r, z.output);
    assert BelowWorkspace(par, r, z.p);
  }

  lemma OnlyChild(nodes: Kids, r: Rank, u: Flags, c: Con, x: Con)
    requires Down(nodes, r) && c in nodes && u.Keys == nodes.Keys && nodes.Keys <= r.h.Keys
    requires nodes[c] == [x] && x in nodes && nodes[x] == []
    ensures HasUrgent(nodes, r, u, c) <==> u[x]
  {
    assert x in nodes[c];
    assert HasUrgent(nodes, r, u, x) <==> u[x];
  }

  lemma SceneUrgent(z: Scene)
    requires z.Valid() && Sane(z.Links().par, z.Links().nodes, z.Heights(), z.Urgents())
    ensures !HasUrgent(z.Links().nodes, z.Heights(), z.Urgents(), z.p)
    ensures HasUrgent(z.Links().nodes, z.Heights(), z.Urgents(), z.x)
  {
    OnlyChild(z.Links().nodes, z.Heights(), z.Urgents(), z.p, z.n);
    OnlyChild(z.Links().nodes, z.Heights(), z.Urgents(), z.x, z.y);
  }

  lemma SceneConsistent(z: Scene)
    requires z.Valid() && WellFormed(z.Links(), {}, z.Heights())
    ensures Sane(z.Links().par, z.Links().nodes, z.Heights(), z.Urgents())
    ensures Consistent(z.Links().par, z.Links().nodes, z.Heights(), z.Urgents())
  {
    ListsGoDown(z.Links(), {}, z.Heights());
    SceneBelow(z);
    SceneUrgent(z);
    SceneCaches(z);
  }

  lemma SceneCaches(z: Scene)
    requires z.Valid() && Sane(z.Links().par, z.Links().nodes, z.Heights(), z.Urgents())
    ensures forall c :: c in z.All() && Cached(z.Links().par, z.Links().nodes, z.Heights(), c) ==> c == z.p || c == z.x
  {
    SceneBelow(z);
  }

  lemma SceneSwappable(z: Scene)
    requires z.Valid() && WellFormed(z.Links(), {}, z.Heights())
    ensures Swappable(z.Links(), z.Heights(), z.n, z.x) && BothCovered(z.Links(), z.Heights(), z.n, z.x)
    ensures FocusTarget(z.Links().par, z.Heights(), z.n, z.x, z.x) == z.x
    ensures MissedBy(z.Links(), z.Heights(), z.Urgents(), z.x, z.n)
  {
    var par, r := z.Links().par, z.Heights();
    SceneBelow(z);
    assert !Within(par, r, z.root, z.n) && !Within(par, r, z.root, z.x);
    assert !Within(par, r, z.output, z.n) && !Within(par, r, z.output, z.x);
    assert !Within(par, r, z.content, z.n) && !Within(par, r, z.content, z.x);
    assert !Within(par, r, z.ws, z.n) && !Within(par, r, z.ws, z.x);
    assert !Within(par, r, z.p, z.x);
    assert WorkspaceOf(par, r, z.ws) == z.ws;
    assert WorkspaceOf(par, r, z.p) == z.ws && WorkspaceOf(par, r, z.x) == z.ws;
  }

  lemma SceneExchange(z: Scene, g: Forest, q: Rank)
    requires z.Valid() && Ranked(z.Links().par, z.Heights())
    requires g == Swapped(z.Links(), z.n, z.x) && q == Lifted(z.Links().par, z.Heights(), z.n, z.x)
    ensures Exchange(z.Links(), z.Heights(), z.Urgents(), z.n, z.x, g, q)
    ensures FocusTarget(z.Links().par, z.Heights(), z.n, z.x, z.x) == z.x
    ensures MissedBy(z.Links(), z.Heights(), z.Urgents(), z.x, z.n)
  {
    SceneWellFormed(z);
    SceneConsistent(z);
    SceneSwappable(z);
    Exchanging(z.Links(), z.Heights(), z.Urgents(), z.n, z.x);
  }

  /** con_focus of x resets nothing, con_set_urgency of n walks no further than the workspace, and that of x
      returns early: no flag changes. */
  lemma NothingChanges(g: Forest, q: Rank, u: Flags, n: Con, x: Con)
    requires Sane(g.par, g.nodes, q, u) && n in g.par && x in g.par && n.kind == CtCon
    requires g.par[n] != null && g.par[n].kind == CtWorkspace && !u[n] && u[x] && g.nodes[x] != []
    ensures Trail(g, q, Course(u, u, u, u), n, x, x, x)
  {
    assert u[n := u[n]] == u;
  }

  lemma SceneCourse(z: Scene, u: Flags, g: Forest, q: Rank)
    requires z.Valid() && u == z.Urgents() && g == Swapped(z.Links(), z.n, z.x) && Sane(g.par, g.nodes, q, u)
    ensures Trail(g, q, Course(u, u, u, u), z.n, z.x, z.x, z.x)
  {
    assert |g.nodes[z.x]| == |z.Links().nodes[z.x]|;
    NothingChanges(g, q, u, z.n, z.x);
  }

  /** With the focus on x, which is split and holds the urgent y, swapping x with n leaves the parent of n unmarked. */
  lemma SwapMissesFlag(z: Scene, f: Forest, r: Rank, u: Flags, g: Forest, q: Rank)
    requires z.Valid() && f == z.Links() && r == z.Heights() && u == z.Urgents() && Ranked(f.par, r)
    requires g == Swapped(f, z.n, z.x) && q == Lifted(f.par, r, z.n, z.x)
    ensures Exchange(f, r, u, z.n, z.x, g, q) && FocusTarget(f.par, r, z.n, z.x, z.x) == z.x
    ensures Trail(g, q, Course(u, u, u, u), z.n, z.x, z.x, z.x) && !Consistent(g.par, g.nodes, q, u)
  {
    SceneExchange(z, g, q);
    SceneCourse(z, u, g, q);
    SwapKeepsUrgency(f, r, Course(u, u, u, u), z.n, z.x, g, q, z.x);
  }

  // ---- swaps that lose a fullscreen mode ---------------------------------------------------------

  /** x is in global mode and p in that of its output. */
  ghost function ScreenModes(z: Scene): Modes {
    map c | c in z.All() :: if c == z.x then CfGlobal else if c == z.p then CfOutput else CfNone
  }

  lemma SceneSiblings(z: Scene)
    requires z.Valid() && WellFormed(z.Links(), {}, z.Heights())
    ensures Swappable(z.Links(), z.Heights(), z.p, z.x)
  {
    var par, r := z.Links().par, z.Heights();
    assert !Within(par, r, z.root, z.p) && !Within(par, r, z.root, z.x);
    assert !Within(par, r, z.output, z.p) && !Within(par, r, z.output, z.x);
    assert !Within(par, r, z.content, z.p) && !Within(par, r, z.content, z.x);
    assert !Within(par, r, z.ws, z.p) && !Within(par, r, z.ws, z.x);
  }

  /** After the exchange of the siblings p and x. */
  lemma SiblingsTraded(z: Scene, g: Forest)
    requires z.Valid() && g == Swapped(z.Links(), z.p, z.x)
    ensures g.par == z.Links().par && g.nodes[z.ws] == [z.x, z.p] && g.floats[z.ws] == []
  {
  }

  lemma BothOnWorkspace(z: Scene, par: Parents, q: Rank)
    requires z.Valid() && par == z.Links().par && Ranked(par, q)
    ensures WorkspaceOf(par, q, z.p) == z.ws
    ensures Within(par, q, z.p, z.root) && Within(par, q, z.x, z.root)
  {
    assert Within(par, q, z.output, z.root);
    assert Within(par, q, z.content, z.root);
    assert Within(par, q, z.ws, z.root);
  }

  /** Once both are in output mode, the search on the workspace comes upon x. */
  lemma FirstListedFound(z: Scene, g: Forest, q: Rank, m: Modes)
    requires z.Valid() && Shaped(g, {}, q) && g.par.Keys == m.Keys == z.All()
    requires g.nodes[z.ws] == [z.x, z.p] && g.floats[z.ws] == [] && m[z.ws] == CfNone && m[z.x] == CfOutput
    ensures Search(g, q, m, z.ws, CfOutput) == z.x
  {
    assert Level(g, q, z.ws, 0) == [z.ws] && Lacks(m, [z.ws], z.ws, CfOutput);
    assert Passed(g, q, m, z.ws, CfOutput, 0);
    assert Children(g, [z.ws]) == Children(g, []) + g.nodes[z.ws] + g.floats[z.ws];
    assert Level(g, q, z.ws, 1) == [z.x, z.p];
    assert Passed(g, q, m, z.ws, CfOutput, 1);
    assert Reached(g, q, m, z.ws, CfOutput, 1, 0);
    FoundFirst(g, q, m, z.ws, CfOutput, 1, 0);
  }

  lemma OneOfTwo(z: Scene, g: Forest, q: Rank)
    requires z.Valid() && Ranked(g.par, q) && g.par.Keys == z.All()
    ensures OneGlobal(g, q, ScreenModes(z), z.root)
  {
  }

  /** Swapping them does not exchange their modes: whichever of the two is named first, the second one ends without
      any. */
  lemma SwapLosesMode(z: Scene, g: Forest, q: Rank)
    requires z.Valid() && Ranked(z.Links().par, z.Heights())
    requires g == Swapped(z.Links(), z.p, z.x) && q == Lifted(z.Links().par, z.Heights(), z.p, z.x)
    ensures WellFormed(z.Links(), {}, z.Heights()) && Swappable(z.Links(), z.Heights(), z.p, z.x)
    ensures Shaped(g, {}, q) && OneGlobal(g, q, ScreenModes(z), z.root)
    ensures HandedOver(g, q, ScreenModes(z), z.root, z.x, z.p)[z.p] == CfNone
    ensures HandedOver(g, q, ScreenModes(z), z.root, z.p, z.x)[z.x] == CfNone
  {
    SceneWellFormed(z);
    SceneSiblings(z);
    SwapShaped(z.Links(), z.Heights(), z.p, z.x);
    SiblingsTraded(z, g);
    BothOnWorkspace(z, g.par, q);
    OneOfTwo(z, g, q);
    SiblingModes(z, g, q, ScreenModes(z));
  }

  lemma SiblingModes(z: Scene, g: Forest, q: Rank, m: Modes)
    requires z.Valid() && Shaped(g, {}, q) && g.par == z.Links().par && m == ScreenModes(z)
    requires g.nodes[z.ws] == [z.x, z.p] && g.floats[z.ws] == [] && OneGlobal(g, q, m, z.root)
    ensures HandedOver(g, q, m, z.root, z.x, z.p)[z.p] == CfNone
    ensures HandedOver(g, q, m, z.root, z.p, z.x)[z.x] == CfNone
  {
    BothOnWorkspace(z, g.par, q);
    FirstGlobal(g, q, m, z.root, z.x, z.p);
    FirstListedFound(z, g, q, m[z.x := CfOutput]);
    SecondGlobal(g, q, m, z.root, z.p, z.x);
  }
}
