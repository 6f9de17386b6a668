/** con_descend_focused, con_is_hidden and con_next_focused, and what con_next_focused predicts. */
module NextFocused {
  import opened Lists
  import opened Tree
  import opened Urgency
  import opened Focus

  method ConDescendFocused(wm: Wm, con: Con, ghost s: set<Con>, ghost focus: Kids, ghost r: Rank) returns (next: Con)
    requires con in s && FocusIs(s, focus) && Down(focus, r) && s <= r.h.Keys
    ensures next == Descend(focus, r, wm.focused, con)
  {
    next := con;
    while next != wm.focused && next.focus != []
      invariant next in s
      invariant Descend(focus, r, wm.focused, next) == Descend(focus, r, wm.focused, con)
      decreases r.h[next]
    {
      assert next.focus[0] in focus[next];
      next := next.focus[0];
    }
  }

  ghost predicate StackingIs(s: set<Con>, stacking: set<Con>)
    reads s`layout
  {
    forall c :: c in s ==> (c in stacking <==> c.layout == LTabbed || c.layout == LStacked)
  }

  method ConIsHidden(con: Con, ghost s: set<Con>, ghost par: Parents, ghost focus: Kids, ghost r: Rank,
                     ghost stacking: set<Con>)
    returns (hidden: bool)
    requires con in s && ParentsAre(s, par) && FocusIs(s, focus) && Ranked(par, r) && StackingIs(s, stacking)
    ensures hidden == Hidden(par, r, focus, stacking, con)
  {
    var current: Con? := con;
    while current != null && current.kind != CtWorkspace
      invariant current != null ==> current in s
      invariant Hidden(par, r, focus, stacking, con) == (current != null && Hidden(par, r, focus, stacking, current))
      decreases if current == null then 0 else r.top - r.h[current] + 1
    {
      var parent := current.parent;
      if parent != null && (parent.layout == LTabbed || parent.layout == LStacked) {
        if First(parent.focus) != current {
          return true;
        }
      }
      current := parent;
    }
    hidden := false;
  }

  /** The loop of con_next_focused: down the first entries, stopping in front of `avoid`. */
  ghost function DescendAvoiding(focus: Kids, r: Rank, avoid: Con, c: Con): Con
    requires Down(focus, r) && c in focus && focus.Keys <= r.h.Keys
    decreases r.h[c]
  {
    if focus[c] == [] || focus[c][0] == avoid then c
    else assert focus[c][0] in focus[c]; DescendAvoiding(focus, r, avoid, focus[c][0])
  }

  /** con_next_focused for a container that is not a dock client (its floating wrapper, if it floats). */
  ghost function Next(par: Parents, focus: Kids, r: Rank, con: Con): Con
    requires Ranked(par, r) && Stacked(par, focus) && Down(focus, r) && con in par && par[con] != null
  {
    var p: Con := par[con];
    var start: Con := if focus[p][0] != con then focus[p][0] else if |focus[p]| > 1 then focus[p][1] else p;
    assert focus[p][0] in focus[p] && (|focus[p]| > 1 ==> focus[p][1] in focus[p]);
    DescendAvoiding(focus, r, con, start)
  }

  /** The first child that is a split container or a window: the content container of an output. */
  function ContentOf(nodes: seq<Con>): (c: Con?)
    ensures c == null <==> forall x :: x in nodes ==> x.kind != CtCon
    ensures c != null ==> c in nodes && c.kind == CtCon
    ensures c != null ==> forall x :: x in nodes[..Index(nodes, c)] ==> x.kind != CtCon
  {
    if nodes == [] then null else if nodes[0].kind == CtCon then nodes[0] else ContentOf(nodes[1..])
  }

  method OutputGetContent(output: Con) returns (c: Con?)
    ensures c == ContentOf(output.nodes)
  {
    for i := 0 to |output.nodes|
      invariant ContentOf(output.nodes[i..]) == ContentOf(output.nodes)
    {
      if output.nodes[i].kind == CtCon {
        return output.nodes[i];
      }
    }
    c := null;
  }

  /** The dock area of a dock client hangs below an output with a content container. */
  ghost predicate OnOutput(con: Con, s: set<Con>)
    reads con`parent, if con.parent != null then {con.parent} else {}
    reads if con.parent != null && con.parent.parent != null then {con.parent.parent} else {}
  {
    con.parent != null && con.parent.parent != null && ContentOf(con.parent.parent.nodes) in s
  }

  method ConNextFocused(wm: Wm, con: Con, ghost s: set<Con>, ghost par: Parents, ghost focus: Kids, ghost r: Rank)
    returns (next: Con)
    requires con in s && ParentsAre(s, par) && FocusIs(s, focus)
    requires Ranked(par, r) && Stacked(par, focus) && Down(focus, r)
    requires con.parent != null && (con.parent.kind == CtDockarea ==> OnOutput(con, s))
    requires con.parent.kind != CtDockarea && IsFloating(con) ==> con.parent.parent != null
    ensures con.parent.kind == CtDockarea ==>
              next == Descend(focus, r, wm.focused, ContentOf(con.parent.parent.nodes))
    ensures con.parent.kind != CtDockarea ==> next == Next(par, focus, r, if IsFloating(con) then con.parent else con)
  {
    if con.parent.kind == CtDockarea {
      var content := OutputGetContent(con.parent.parent);
      next := ConDescendFocused(wm, content, s, focus, r);
      return;
    }
    var c: Con := con;
    if IsFloating(con) {
      c := con.parent;
    }
    var p: Con := c.parent;
    assert c in focus[p];
    next := p.focus[0];
    if next == c {
      next := if |p.focus| > 1 then p.focus[1] else p;
    }
    assert next in s by { assert p.focus[0] in focus[p]; assert |p.focus| > 1 ==> p.focus[1] in focus[p]; }
    ghost var start := next;
    while next.focus != [] && next.focus[0] != c
      invariant next in s
      invariant DescendAvoiding(focus, r, c, next) == DescendAvoiding(focus, r, c, start)
      decreases r.h[next]
    {
      assert next.focus[0] in focus[next];
      next := next.focus[0];
    }
    assert next.focus != [] ==> c in focus[next];
    if c.kind == CtFloatingCon && next != p {
      next := ConDescendFocused(wm, next, s, focus, r);
    }
  }

  // ---- what is predicted -----------------------------------------------------------------------

  lemma {:induction false} AvoidingStaysOut(par: Parents, focus: Kids, r: Rank, avoid: Con, c: Con)
    requires Ranked(par, r) && Stacked(par, focus) && Down(focus, r) && c in par && !Within(par, r, c, avoid)
    ensures var n := DescendAvoiding(focus, r, avoid, c); n in par && !Within(par, r, n, avoid)
    decreases r.h[c]
  {
    if focus[c] != [] && focus[c][0] != avoid {
      assert focus[c][0] in focus[c];
      AvoidingStaysOut(par, focus, r, avoid, focus[c][0]);
    }
  }

  lemma SiblingOutside(par: Parents, r: Rank, con: Con, d: Con)
    requires Ranked(par, r) && con in par && par[con] != null && d in par
    requires d == par[con] || (par[d] == par[con] && d != con)
    ensures !Within(par, r, d, con)
  {
    if Within(par, r, d, con) {
      WithinRank(par, r, d, con);
      if d != par[con] { WithinRank(par, r, par[d], con); }
    }
  }

  /** con_next_focused never returns con or anything inside it. */
  lemma NextIsOutside(par: Parents, focus: Kids, r: Rank, con: Con)
    requires Ranked(par, r) && Stacked(par, focus) && Down(focus, r) && con in par && par[con] != null
    ensures var n := Next(par, focus, r, con); n in par && !Within(par, r, n, con)
  {
    var p: Con := par[con];
    var start: Con := if focus[p][0] != con then focus[p][0] else if |focus[p]| > 1 then focus[p][1] else p;
    assert focus[p][0] in focus[p] && (|focus[p]| > 1 ==> focus[p][1] in focus[p]);
    SiblingOutside(par, r, con, start);
    AvoidingStaysOut(par, focus, r, con, start);
  }

  /** Nor does it for a dock client, where the answer is under the content container of its output. */
  lemma {:induction false} DockNextIsOutside(par: Parents, focus: Kids, r: Rank, focused: Con?, con: Con, content: Con,
                                             c: Con)
    requires Ranked(par, r) && Stacked(par, focus) && Down(focus, r) && con in par && content in par && c in par
    requires par[con] != null && par[par[con]] != null && par[content] == par[par[con]] && content != par[con]
    requires Within(par, r, c, content)
    ensures var n := Descend(focus, r, focused, c); n in par && !Within(par, r, n, con) && Within(par, r, n, content)
    decreases r.h[c]
  {
    if c == focused || focus[c] == [] {
      if Within(par, r, c, con) {
        WithinTrans(par, r, c, con, par[con]);
        SiblingsApart(par, r, c, content, par[con]);
      }
    } else {
      assert focus[c][0] in focus[c];
      assert Within(par, r, focus[c][0], content);
      DockNextIsOutside(par, focus, r, focused, con, content, focus[c][0]);
    }
  }

  /** In a tree that is the content container of the output itself, so con_next_focused of a dock client is
      outside the client. */
  lemma DockAnswer(f: Forest, r: Rank, focused: Con?, con: Con)
    requires WellFormed(f, {}, r) && Down(f.focus, r) && con in f.par && f.par[con] != null
    requires f.par[con].kind == CtDockarea && f.par[f.par[con]] != null
    requires ContentOf(f.nodes[f.par[f.par[con]]]) != null
    ensures var content: Con := ContentOf(f.nodes[f.par[f.par[con]]]);
            && content in f.par && f.par[content] == f.par[f.par[con]]
            && var n := Descend(f.focus, r, focused, content);
               n in f.par && !Within(f.par, r, n, con) && Within(f.par, r, n, content)
  {
    var output := f.par[f.par[con]];
    var content: Con := ContentOf(f.nodes[output]);
    assert Linked(f, {}, output) && ChildOf(f.par, {}, content, output);
    TreeStacked(f, r);
    DockNextIsOutside(f.par, f.focus, r, focused, con, content, content);
  }

  /** The focus lists once con is detached. */
  ghost function Without(par: Parents, focus: Kids, con: Con): (g: Kids)
    requires con in par && par[con] != null && par[con] in focus
    ensures g.Keys == focus.Keys
  {
    focus[par[con] := Remove(focus[par[con]], con)]
  }

  lemma DetachFocus(f: Forest, con: Con)
    requires SameKeys(f) && con in f.par && f.par[con] != null && f.par[con] in f.par
    ensures Detach(f, con).focus == Without(f.par, f.focus, con)
  {
  }

  lemma WithoutDown(par: Parents, focus: Kids, r: Rank, con: Con)
    requires Ranked(par, r) && Stacked(par, focus) && Down(focus, r) && con in par && par[con] != null
    ensures Down(Without(par, focus, con), r)
  {
    RemoveFacts(focus[par[con]], con);
  }

  /** Below the parent the two descents see the same lists. */
  lemma {:induction false} DescendSame(par: Parents, focus: Kids, r: Rank, con: Con, focused: Con?, c: Con)
    requires Ranked(par, r) && Stacked(par, focus) && Down(focus, r) && con in par && par[con] != null
    requires Down(Without(par, focus, con), r) && c in par && r.h[c] < r.h[par[con]]
    requires focused != null ==> focused in par && Within(par, r, focused, con) && !Within(par, r, c, con)
    ensures DescendAvoiding(focus, r, con, c) == Descend(Without(par, focus, con), r, focused, c)
    decreases r.h[c]
  {
    if focus[c] != [] {
      var d := focus[c][0];
      assert d in focus[c];
      DescendSame(par, focus, r, con, focused, d);
    }
  }

  /** What con_next_focused returns is what a descent from the parent finds once con is detached; with
      the focus on or inside con this is what con_descend_focused finds. */
  lemma NextIsPredicted(par: Parents, focus: Kids, r: Rank, con: Con, focused: Con?)
    requires Ranked(par, r) && Stacked(par, focus) && Down(focus, r) && con in par && par[con] != null
    requires focused != null ==> focused in par && Within(par, r, focused, con)
    ensures Down(Without(par, focus, con), r)
    ensures Next(par, focus, r, con) == Descend(Without(par, focus, con), r, focused, par[con])
  {
    WithoutDown(par, focus, r, con);
    var p: Con := par[con];
    if focused != null { WithinRank(par, r, focused, con); }
    var l, m := focus[p], Remove(focus[p], con);
    RemoveFacts(l, con);
    assert l[0] == con ==> Index(l, con) == 0;
    assert m != [] ==> m[0] == if l[0] != con then l[0] else l[1];
    if m != [] {
      assert m[0] in m;
      SiblingOutside(par, r, con, m[0]);
      DescendSame(par, focus, r, con, focused, m[0]);
    }
  }
}
