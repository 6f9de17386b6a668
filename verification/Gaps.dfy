/** The gaps command: clamping updates of the global and the per-workspace gaps, and the bounds that every history
    keeps. */
module GapSizes {

  datatype Gaps = Gaps(inner: int, top: int, right: int, bottom: int, left: int)

  const NO_GAPS := Gaps(0, 0, 0, 0, 0)

  /** The accessor functions gaps_inner, gaps_top and so on. */
  datatype Side = Inner | Top | Right | Bottom | Left
  datatype Scope = Current | All
  datatype Mode = Plus | Minus | SetTo | Toggle | InvalidMode
  datatype Kind = OneSide(side: Side) | Outer | Vertical | Horizontal | InvalidKind

  function Get(g: Gaps, side: Side): int {
    match side
    case Inner => g.inner
    case Top => g.top
    case Right => g.right
    case Bottom => g.bottom
    case Left => g.left
  }

  function Put(g: Gaps, side: Side, v: int): (h: Gaps)
    ensures Get(h, side) == v && forall s :: s != side ==> Get(h, s) == Get(g, s)
  {
    match side
    case Inner => g.(inner := v)
    case Top => g.(top := v)
    case Right => g.(right := v)
    case Bottom => g.(bottom := v)
    case Left => g.(left := v)
  }

  class Workspace {
    var gaps: Gaps
  }

  class Config {
    var gaps: Gaps
  }

  function Max(a: int, b: int): int {
    if a < b then b else a
  }

  /** The value that an update arrives at: c are the global gaps, w those of the focused workspace. */
  function NewValue(c: Gaps, w: Gaps, side: Side, scope: Scope, mode: Mode, pixels: int): int {
    var start := Get(c, side) + if scope == Current then Get(w, side) else 0;
    var value := match mode
      case Plus => start + pixels
      case Minus => start - pixels
      case SetTo => pixels
      case Toggle => if start == 0 then pixels else 0
      case InvalidMode => start;
    Max(value, if side == Inner then 0 else if scope == All then -c.inner else -c.inner - w.inner)
  }

  /** What a global update leaves of the gaps g of a workspace. */
  function Fixed(g: Gaps, c: Gaps, side: Side, value: int, reset: bool): Gaps {
    var compensate := if side == Inner then 0 else c.inner;
    if reset then Put(g, side, 0)
    else if Get(g, side) + value + compensate < 0 then Put(g, side, -value - compensate)
    else g
  }

  predicate Resets(mode: Mode) {
    mode == SetTo || mode == Toggle
  }

  function ConfigAfter(c: Gaps, w: Gaps, side: Side, scope: Scope, mode: Mode, pixels: int): Gaps {
    if scope == All then Put(c, side, NewValue(c, w, side, scope, mode, pixels)) else c
  }

  /** The gaps of a workspace that had g. */
  function WorkspaceAfter(g: Gaps, isFocused: bool, c: Gaps, w: Gaps, side: Side, scope: Scope, mode: Mode,
                          pixels: int): Gaps
  {
    var value := NewValue(c, w, side, scope, mode, pixels);
    if scope == All then Fixed(g, c, side, value, Resets(mode))
    else if isFocused then Put(g, side, value - Get(c, side))
    else g
  }

  lemma FixedTwice(g: Gaps, c: Gaps, side: Side, value: int, reset: bool)
    ensures Fixed(Fixed(g, c, side, value, reset), c, side, value, reset) == Fixed(g, c, side, value, reset)
  {
  }

  // ---- what the modes do -------------------------------------------------------------------------

  /** The gap that is drawn on a workspace. */
  function Drawn(c: Gaps, w: Gaps, side: Side): int {
    Get(c, side) + Get(w, side)
  }

  /** A local update adds to the gap drawn on the focused workspace, takes from it, sets it, or turns it on and off,
      down
      to its least value. */
  lemma LocalValue(c: Gaps, w: Gaps, side: Side, mode: Mode, pixels: int)
    ensures var least := if side == Inner then 0 else -c.inner - w.inner;
            var x := WorkspaceAfter(w, true, c, w, side, Current, mode, pixels);
            var before, after := Drawn(c, w, side), Drawn(c, x, side);
            && after >= least
            && (mode == Plus && before + pixels >= least ==> after == before + pixels)
            && (mode == Minus && before - pixels >= least ==> after == before - pixels)
            && (mode == SetTo && pixels >= least ==> after == pixels)
            && (mode == Toggle && before == 0 && pixels >= least ==> after == pixels)
            && (mode == Toggle && before != 0 && 0 >= least ==> after == 0)
            && ConfigAfter(c, w, side, Current, mode, pixels) == c
            && forall g :: WorkspaceAfter(g, false, c, w, side, Current, mode, pixels) == g
  {
  }

  /** A global update does so to the global gap; setting and toggling it takes the own gap of every workspace away, and
      otherwise a workspace keeps its own gap while it is drawn with no less than -c.inner. */
  lemma GlobalValue(c: Gaps, w: Gaps, g: Gaps, isFocused: bool, side: Side, mode: Mode, pixels: int)
    ensures var least := if side == Inner then 0 else -c.inner;
            var d, x := ConfigAfter(c, w, side, All, mode, pixels),
              WorkspaceAfter(g, isFocused, c, w, side, All, mode, pixels);
            && Get(d, side) >= least
            && (mode == Plus && Get(c, side) + pixels >= least ==> Get(d, side) == Get(c, side) + pixels)
            && (mode == Minus && Get(c, side) - pixels >= least ==> Get(d, side) == Get(c, side) - pixels)
            && (mode == SetTo && pixels >= least ==> Get(d, side) == pixels)
            && (mode == Toggle && Get(c, side) == 0 && pixels >= least ==> Get(d, side) == pixels)
            && (mode == Toggle && Get(c, side) != 0 && 0 >= least ==> Get(d, side) == 0)
            && (mode == SetTo || mode == Toggle ==> Get(x, side) == 0)
            && (mode == Plus || mode == Minus ==>
                  Drawn(d, x, side) >= least && (Get(d, side) + Get(g, side) >= least ==> Get(x, side) == Get(g, side)))
  {
  }

  /** Toggling twice, and subtracting what was added, restore what is drawn unless the least value interferes. */
  lemma LocalTwice(c: Gaps, w: Gaps, side: Side, pixels: int)
    requires var least := if side == Inner then 0 else -c.inner - w.inner;
             Drawn(c, w, side) >= least && 0 >= least && pixels >= 0
    ensures var x := WorkspaceAfter(w, true, c, w, side, Current, Plus, pixels);
            WorkspaceAfter(x, true, c, x, side, Current, Minus, pixels) == w
    ensures Drawn(c, w, side) == pixels ==>
              var x := WorkspaceAfter(w, true, c, w, side, Current, Toggle, pixels);
              WorkspaceAfter(x, true, c, x, side, Current, Toggle, pixels) == w
  {
  }

  // ---- the bounds --------------------------------------------------------------------------------

  /** No inner gap is negative. */
  predicate InnerBounded(c: Gaps, w: Gaps) {
    c.inner >= 0 && c.inner + w.inner >= 0
  }

  /** An outer gap takes back no more than the inner gap gives. */
  predicate SideBounded(c: Gaps, w: Gaps, side: Side) {
    && Get(c, side) + c.inner >= 0
    && Get(c, side) + Get(w, side) + c.inner + Max(0, w.inner) >= 0
  }

  predicate Bounded(c: Gaps, w: Gaps) {
    InnerBounded(c, w) && forall side :: side != Inner ==> SideBounded(c, w, side)
  }

  lemma NoGapsBounded()
    ensures Bounded(NO_GAPS, NO_GAPS)
  {
  }

  /** A new workspace without gaps of its own is within the bounds. */
  lemma NewWorkspaceBounded(c: Gaps, w: Gaps)
    requires Bounded(c, w)
    ensures Bounded(c, NO_GAPS)
  {
    forall side | side != Inner ensures SideBounded(c, NO_GAPS, side) { assert SideBounded(c, w, side); }
  }

  /** An update of the inner gaps keeps them from being negative. */
  lemma InnerUpdate(c: Gaps, w: Gaps, g: Gaps, isFocused: bool, scope: Scope, mode: Mode, pixels: int)
    requires InnerBounded(c, g) && (isFocused ==> g == w)
    ensures InnerBounded(ConfigAfter(c, w, Inner, scope, mode, pixels),
                         WorkspaceAfter(g, isFocused, c, w, Inner, scope, mode, pixels))
  {
  }

  /** A global update of an outer gap establishes its bounds, whatever they were. */
  lemma GlobalSideUpdate(c: Gaps, w: Gaps, g: Gaps, isFocused: bool, side: Side, mode: Mode, pixels: int)
    requires InnerBounded(c, g) && side != Inner
    ensures SideBounded(ConfigAfter(c, w, side, All, mode, pixels),
                        WorkspaceAfter(g, isFocused, c, w, side, All, mode, pixels), side)
  {
  }

  /** Any update of an outer gap keeps its bounds. */
  lemma SideUpdate(c: Gaps, w: Gaps, g: Gaps, isFocused: bool, side: Side, scope: Scope, mode: Mode, pixels: int)
    requires InnerBounded(c, g) && side != Inner && SideBounded(c, g, side) && (isFocused ==> g == w)
    ensures SideBounded(ConfigAfter(c, w, side, scope, mode, pixels),
                        WorkspaceAfter(g, isFocused, c, w, side, scope, mode, pixels), side)
  {
  }

  /** An update of one gap leaves the others. */
  lemma OtherSides(c: Gaps, w: Gaps, g: Gaps, isFocused: bool, side: Side, scope: Scope, mode: Mode, pixels: int,
                   other: Side)
    requires other != side
    ensures Get(ConfigAfter(c, w, side, scope, mode, pixels), other) == Get(c, other)
    ensures Get(WorkspaceAfter(g, isFocused, c, w, side, scope, mode, pixels), other) == Get(g, other)
  {
  }

  /** The stronger bound, with w.inner for max(0, w.inner). */
  predicate Strong(c: Gaps, w: Gaps, side: Side) {
    Get(c, side) + Get(w, side) + c.inner + w.inner >= 0
  }

  /** When a workspace with the gaps g is within the stronger bound after an update of an outer gap: a local update
      sees to it, while a global one clamps as if no inner gap of a workspace were negative. */
  predicate StrongCondition(c: Gaps, w: Gaps, g: Gaps, isFocused: bool, side: Side, scope: Scope, mode: Mode,
                            pixels: int)
  {
    if scope == Current then isFocused || Strong(c, g, side)
    else
      || g.inner >= 0
      || (if Resets(mode) then 0 else Get(g, side)) + NewValue(c, w, side, scope, mode, pixels) >= -c.inner - g.inner
  }

  lemma StrongSide(c: Gaps, w: Gaps, g: Gaps, isFocused: bool, side: Side, scope: Scope, mode: Mode, pixels: int)
    requires InnerBounded(c, g) && side != Inner && (isFocused ==> g == w)
    ensures Strong(ConfigAfter(c, w, side, scope, mode, pixels),
                   WorkspaceAfter(g, isFocused, c, w, side, scope, mode, pixels), side) <==>
            StrongCondition(c, w, g, isFocused, side, scope, mode, pixels)
  {
  }

  // ---- the code ----------------------------------------------------------------------------------

  ghost function AllOf(outputs: seq<seq<Workspace>>): set<Workspace> {
    set i, j | 0 <= i < |outputs| && 0 <= j < |outputs[i]| :: outputs[i][j]
  }

  method FixWorkspace(ws: Workspace, c: Gaps, side: Side, value: int, reset: bool)
    modifies ws
    ensures ws.gaps == Fixed(old(ws.gaps), c, side, value, reset)
  {
    var gapsValue := Get(ws.gaps, side);
    if reset {
      ws.gaps := Put(ws.gaps, side, 0);
    } else {
      var maxCompensate := 0;
      if side != Inner {
        maxCompensate := c.inner;
      }
      if gapsValue + value + maxCompensate < 0 {
        ws.gaps := Put(ws.gaps, side, -value - maxCompensate);
      }
    }
  }

  /** The loops of a global update over outputs and workspaces. */
  method FixAll(outputs: seq<seq<Workspace>>, c: Gaps, side: Side, value: int, reset: bool)
    modifies AllOf(outputs)
    ensures forall w :: w in AllOf(outputs) ==> w.gaps == Fixed(old(w.gaps), c, side, value, reset)
  {
    ghost var done: set<Workspace> := {};
    for i := 0 to |outputs|
      invariant done <= AllOf(outputs) && forall k, j :: 0 <= k < i && 0 <= j < |outputs[k]| ==> outputs[k][j] in done
      invariant forall w :: w in AllOf(outputs) ==>
                w.gaps == if w in done then Fixed(old(w.gaps), c, side, value, reset) else old(w.gaps)
    {
      for j := 0 to |outputs[i]|
        invariant done <= AllOf(outputs) && forall k, l :: 0 <= k < i && 0 <= l < |outputs[k]| ==> outputs[k][l] in done
        invariant forall l :: 0 <= l < j ==> outputs[i][l] in done
        invariant forall w :: w in AllOf(outputs) ==>
                  w.gaps == if w in done then Fixed(old(w.gaps), c, side, value, reset) else old(w.gaps)
      {
        var ws := outputs[i][j];
        FixedTwice(old(ws.gaps), c, side, value, reset);
        FixWorkspace(ws, c, side, value, reset);
        done := done + {ws};
      }
    }
  }

  /** The first half of gaps_update: the new value, clamped. */
  method ChangedValue(config: Config, workspace: Workspace, side: Side, scope: Scope, mode: Mode, pixels: int)
    returns (ok: bool, value: int, reset: bool)
    ensures ok <==> mode != InvalidMode
    ensures ok ==> value == NewValue(config.gaps, workspace.gaps, side, scope, mode, pixels) && reset == Resets(mode)
  {
    value := Get(config.gaps, side);
    if scope == Current {
      value := value + Get(workspace.gaps, side);
    }
    reset := false;
    match mode {
      case Plus => value := value + pixels;
      case Minus => value := value - pixels;
      case SetTo =>
        value := pixels;
        reset := true;
      case Toggle =>
        value := if value == 0 then pixels else 0;
        reset := true;
      case InvalidMode =>
        return false, value, reset;
    }
    var minValue := 0;
    if side != Inner {
      if scope == All {
        minValue := -config.gaps.inner;
      } else {
        minValue := -config.gaps.inner - workspace.gaps.inner;
      }
    }
    if value < minValue {
      value := minValue;
    }
    ok := true;
  }

  method StoreGlobal(config: Config, side: Side, value: int)
    modifies config
    ensures config.gaps == Put(old(config.gaps), side, value)
  {
    config.gaps := Put(config.gaps, side, value);
  }

  method StoreLocal(workspace: Workspace, side: Side, value: int)
    modifies workspace
    ensures workspace.gaps == Put(old(workspace.gaps), side, value)
  {
    workspace.gaps := Put(workspace.gaps, side, value);
  }

  /** gaps_update. */
  method GapsUpdate(config: Config, outputs: seq<seq<Workspace>>, workspace: Workspace, side: Side, scope: Scope,
                    mode: Mode, pixels: int)
    returns (ok: bool)
    requires workspace in AllOf(outputs)
    modifies config, AllOf(outputs)
    ensures ok <==> mode != InvalidMode
    ensures !ok ==> config.gaps == old(config.gaps) && forall w :: w in AllOf(outputs) ==> w.gaps == old(w.gaps)
    ensures ok ==>
              && config.gaps == ConfigAfter(old(config.gaps), old(workspace.gaps), side, scope, mode, pixels)
              && forall w :: w in AllOf(outputs) ==>
                   w.gaps == WorkspaceAfter(old(w.gaps), w == workspace, old(config.gaps), old(workspace.gaps), side,
                                            scope, mode, pixels)
  {
    var valid, value, reset := ChangedValue(config, workspace, side, scope, mode, pixels);
    if !valid {
      return false;
    }
    if scope == All {
      FixAll(outputs, config.gaps, side, value, reset);
      StoreGlobal(config, side, value);
    } else {
      var globalGapSize := Get(config.gaps, side);
      StoreLocal(workspace, side, value - globalGapSize);
    }
    ok := true;
  }

  // ---- commands ----------------------------------------------------------------------------------

  type Local = map<Workspace, Gaps>

  ghost function Locals(outputs: seq<seq<Workspace>>): (g: Local)
    reads AllOf(outputs)
    ensures g.Keys == AllOf(outputs) && forall w :: w in g ==> g[w] == w.gaps
  {
    map w | w in AllOf(outputs) :: w.gaps
  }

  ghost predicate InnerOk(c: Gaps, g: Local) {
    forall w :: w in g ==> InnerBounded(c, g[w])
  }

  ghost predicate SideOk(c: Gaps, g: Local, side: Side) {
    forall w :: w in g ==> SideBounded(c, g[w], side)
  }

  /** All bounds hold for all workspaces. */
  ghost predicate WithinBounds(c: Gaps, g: Local) {
    forall w :: w in g ==> Bounded(c, g[w])
  }

  lemma BoundsMean(c: Gaps, g: Local)
    ensures WithinBounds(c, g) <==> InnerOk(c, g) && forall side :: side != Inner ==> SideOk(c, g, side)
  {
    if WithinBounds(c, g) {
      forall side | side != Inner ensures SideOk(c, g, side) {
        forall w | w in g ensures SideBounded(c, g[w], side) { assert Bounded(c, g[w]); }
      }
    } else if InnerOk(c, g) && forall side :: side != Inner ==> SideOk(c, g, side) {
      forall w | w in g ensures Bounded(c, g[w]) {
        forall side | side != Inner ensures SideBounded(c, g[w], side) { assert SideOk(c, g, side); }
      }
    }
  }

  /** The outer gaps a command of this kind changes. */
  function Sides(kind: Kind): set<Side> {
    match kind
    case OneSide(side) => {side}
    case Outer => {Top, Bottom} + {Right, Left}
    case Vertical => {Top, Bottom}
    case Horizontal => {Right, Left}
    case InvalidKind => {}
  }

  /** Vertical and horizontal commands share no side, and together they are the outer ones. */
  lemma SidesMean(side: Side)
    ensures side in Sides(Outer) <==> side != Inner
    ensures side in Sides(Vertical) <==> side == Top || side == Bottom
    ensures Sides(Vertical) !! Sides(Horizontal) && Sides(Vertical) + Sides(Horizontal) == Sides(Outer)
    ensures Sides(OneSide(side)) == {side} && Sides(InvalidKind) == {}
  {
    assert forall s: Side :: s in Sides(Vertical) + Sides(Horizontal) <==> s in Sides(Outer);
  }

  /** The gap of one side after an update of it: of the configuration, and of a workspace. */
  function GlobalSide(c: Gaps, w: Gaps, side: Side, scope: Scope, mode: Mode, pixels: int): int {
    Get(ConfigAfter(c, w, side, scope, mode, pixels), side)
  }

  function LocalSide(g: Gaps, isFocused: bool, c: Gaps, w: Gaps, side: Side, scope: Scope, mode: Mode, pixels: int): int
  {
    Get(WorkspaceAfter(g, isFocused, c, w, side, scope, mode, pixels), side)
  }

  /** From the gaps c and g to d and h these sides are updated, and no others. */
  ghost predicate SidesUpdated(c: Gaps, g: Local, d: Gaps, h: Local, ws: Workspace, sides: set<Side>, scope: Scope,
                               mode: Mode, pixels: int)
    requires ws in g
  {
    && g.Keys == h.Keys
    && (forall s: Side :: Get(d, s) == if s in sides then GlobalSide(c, g[ws], s, scope, mode, pixels) else Get(c, s))
    && (forall s: Side, w :: w in g ==>
        Get(h[w], s) == if s in sides then LocalSide(g[w], w == ws, c, g[ws], s, scope, mode, pixels) else Get(g[w], s))
  }

  /** Only the gaps of that side and the inner ones matter to an update. */
  lemma SideIndependent(c: Gaps, w: Gaps, c': Gaps, w': Gaps, side: Side, scope: Scope, mode: Mode, pixels: int)
    requires Get(c, side) == Get(c', side) && Get(w, side) == Get(w', side) && c.inner == c'.inner &&
             w.inner == w'.inner
    ensures NewValue(c, w, side, scope, mode, pixels) == NewValue(c', w', side, scope, mode, pixels)
    ensures GlobalSide(c, w, side, scope, mode, pixels) == GlobalSide(c', w', side, scope, mode, pixels)
  {
  }

  lemma LocalIndependent(c: Gaps, w: Gaps, g: Gaps, c': Gaps, w': Gaps, g': Gaps, isFocused: bool, side: Side,
                         scope: Scope, mode: Mode, pixels: int)
    requires Get(c, side) == Get(c', side) && Get(w, side) == Get(w', side) && Get(g, side) == Get(g', side)
    requires c.inner == c'.inner && w.inner == w'.inner
    ensures LocalSide(g, isFocused, c, w, side, scope, mode, pixels)
            == LocalSide(g', isFocused, c', w', side, scope, mode, pixels)
  {
    SideIndependent(c, w, c', w', side, scope, mode, pixels);
  }

  /** Updates of different outer gaps do not meet. */
  lemma UpdatesCompose(c: Gaps, g: Local, d: Gaps, h: Local, e: Gaps, i: Local, ws: Workspace, a: set<Side>,
                       b: set<Side>, scope: Scope, mode: Mode, pixels: int)
    requires ws in g && ws in h && a !! b && Inner !in a && Inner !in b
    requires SidesUpdated(c, g, d, h, ws, a, scope, mode, pixels) &&
             SidesUpdated(d, h, e, i, ws, b, scope, mode, pixels)
    ensures SidesUpdated(c, g, e, i, ws, a + b, scope, mode, pixels)
  {
    assert Get(c, Inner) == Get(d, Inner) && Get(g[ws], Inner) == Get(h[ws], Inner);
    forall s: Side ensures Get(e, s) == if s in a + b then GlobalSide(c, g[ws], s, scope, mode, pixels) else Get(c, s) {
      if s in b { SideIndependent(c, g[ws], d, h[ws], s, scope, mode, pixels); }
    }
    forall s: Side, w | w in g
      ensures Get(i[w], s) == if s in a + b then LocalSide(g[w], w == ws, c, g[ws], s, scope, mode, pixels)
              else Get(g[w], s)
    {
      if s in b { LocalIndependent(c, g[ws], g[w], d, h[ws], h[w], w == ws, s, scope, mode, pixels); }
    }
  }

  lemma SameSide(c: Gaps, w: Gaps, d: Gaps, x: Gaps, side: Side)
    requires SideBounded(c, w, side) && Get(c, side) == Get(d, side) && Get(w, side) == Get(x, side)
    requires c.inner == d.inner && w.inner == x.inner
    ensures SideBounded(d, x, side)
  {
  }

  /** The bounds of one side after an update of some outer gaps. */
  lemma UpdatedSide(c: Gaps, g: Local, d: Gaps, h: Local, ws: Workspace, sides: set<Side>, scope: Scope, mode: Mode,
                    pixels: int, side: Side, w: Workspace)
    requires ws in g && w in g && Inner !in sides && side != Inner &&
             SidesUpdated(c, g, d, h, ws, sides, scope, mode, pixels)
    requires InnerBounded(c, g[w]) && (SideBounded(c, g[w], side) || (side in sides && scope == All))
    ensures InnerBounded(d, h[w]) && SideBounded(d, h[w], side)
  {
    assert Get(c, Inner) == Get(d, Inner) && Get(g[w], Inner) == Get(h[w], Inner);
    if side in sides {
      var d', x := ConfigAfter(c, g[ws], side, scope, mode, pixels),
          WorkspaceAfter(g[w], w == ws, c, g[ws], side, scope, mode, pixels);
      if scope == All { GlobalSideUpdate(c, g[ws], g[w], w == ws, side, mode, pixels); }
      else { SideUpdate(c, g[ws], g[w], w == ws, side, scope, mode, pixels); }
      OtherSides(c, g[ws], g[w], w == ws, side, scope, mode, pixels, Inner);
      assert Get(d', Inner) == Get(d, Inner) && Get(x, Inner) == Get(h[w], Inner);
      SameSide(d', x, d, h[w], side);
    } else {
      SameSide(c, g[w], d, h[w], side);
    }
  }

  /** Exactly when a workspace is within the stronger bound after an update of some outer gaps. */
  lemma StrongUpdated(c: Gaps, g: Local, d: Gaps, h: Local, ws: Workspace, sides: set<Side>, scope: Scope, mode: Mode,
                      pixels: int, side: Side, w: Workspace)
    requires ws in g && w in g && Inner !in sides && side != Inner && InnerBounded(c, g[w])
    requires SidesUpdated(c, g, d, h, ws, sides, scope, mode, pixels)
    ensures Strong(d, h[w], side) <==>
            if side in sides then StrongCondition(c, g[ws], g[w], w == ws, side, scope, mode, pixels)
            else Strong(c, g[w], side)
  {
    assert Get(c, Inner) == Get(d, Inner) && Get(g[w], Inner) == Get(h[w], Inner);
    if side in sides {
      StrongSide(c, g[ws], g[w], w == ws, side, scope, mode, pixels);
      OtherSides(c, g[ws], g[w], w == ws, side, scope, mode, pixels, Inner);
      assert Get(d, side) == GlobalSide(c, g[ws], side, scope, mode, pixels);
      assert Get(h[w], side) == LocalSide(g[w], w == ws, c, g[ws], side, scope, mode, pixels);
      StrongByParts(d, h[w], ConfigAfter(c, g[ws], side, scope, mode, pixels),
                    WorkspaceAfter(g[w], w == ws, c, g[ws], side, scope, mode, pixels), side);
    } else {
      StrongByParts(d, h[w], c, g[w], side);
    }
  }

  lemma StrongByParts(c: Gaps, w: Gaps, d: Gaps, x: Gaps, side: Side)
    requires Get(c, side) == Get(d, side) && Get(w, side) == Get(x, side)
    requires Get(c, Inner) == Get(d, Inner) && Get(w, Inner) == Get(x, Inner)
    ensures Strong(c, w, side) <==> Strong(d, x, side)
  {
  }

  /** Updates of outer gaps keep the bounds; global updates of all of them establish them. */
  lemma OuterKeepsBounds(c: Gaps, g: Local, d: Gaps, h: Local, ws: Workspace, sides: set<Side>, scope: Scope,
                         mode: Mode, pixels: int)
    requires ws in g && Inner !in sides && SidesUpdated(c, g, d, h, ws, sides, scope, mode, pixels) && InnerOk(c, g)
    requires WithinBounds(c, g) || (scope == All && sides == Sides(Outer))
    ensures WithinBounds(d, h)
  {
    forall w | w in h ensures Bounded(d, h[w]) {
      forall side | side != Inner ensures InnerBounded(d, h[w]) && SideBounded(d, h[w], side) {
        assert WithinBounds(c, g) ==> Bounded(c, g[w]);
        UpdatedSide(c, g, d, h, ws, sides, scope, mode, pixels, side, w);
      }
      assert SideBounded(d, h[w], Top);
    }
  }

  lemma InnerKeepsBounds(c: Gaps, g: Local, d: Gaps, h: Local, ws: Workspace, scope: Scope, mode: Mode, pixels: int)
    requires ws in g && SidesUpdated(c, g, d, h, ws, {Inner}, scope, mode, pixels) && InnerOk(c, g)
    ensures InnerOk(d, h)
  {
    forall w | w in h ensures InnerBounded(d, h[w]) {
      InnerUpdate(c, g[ws], g[w], w == ws, scope, mode, pixels);
      assert Get(d, Inner) == GlobalSide(c, g[ws], Inner, scope, mode, pixels);
      assert Get(h[w], Inner) == LocalSide(g[w], w == ws, c, g[ws], Inner, scope, mode, pixels);
    }
  }

  lemma OneSideUpdated(c: Gaps, g: Local, d: Gaps, h: Local, ws: Workspace, side: Side, scope: Scope, mode: Mode,
                       pixels: int)
    requires ws in g && g.Keys == h.Keys && d == ConfigAfter(c, g[ws], side, scope, mode, pixels)
    requires forall w :: w in g ==> h[w] == WorkspaceAfter(g[w], w == ws, c, g[ws], side, scope, mode, pixels)
    ensures SidesUpdated(c, g, d, h, ws, {side}, scope, mode, pixels)
  {
    forall w, s | w in g && s != side ensures Get(d, s) == Get(c, s) && Get(h[w], s) == Get(g[w], s) {
      OtherSides(c, g[ws], g[w], w == ws, side, scope, mode, pixels, s);
    }
    assert ws in g;
  }

  method UpdateSide(config: Config, outputs: seq<seq<Workspace>>, workspace: Workspace, side: Side, scope: Scope,
                    mode: Mode, pixels: int)
    returns (ok: bool)
    requires workspace in AllOf(outputs)
    modifies config, AllOf(outputs)
    ensures ok <==> mode != InvalidMode
    ensures if ok then SidesUpdated(old(config.gaps), old(Locals(outputs)), config.gaps, Locals(outputs), workspace,
                                    {side}, scope, mode, pixels)
            else config.gaps == old(config.gaps) && Locals(outputs) == old(Locals(outputs))
  {
    ghost var c, g := config.gaps, Locals(outputs);
    ok := GapsUpdate(config, outputs, workspace, side, scope, mode, pixels);
    if ok { OneSideUpdated(c, g, config.gaps, Locals(outputs), workspace, side, scope, mode, pixels); }
  }

  method UpdateTwo(config: Config, outputs: seq<seq<Workspace>>, workspace: Workspace, first: Side, second: Side,
                   scope: Scope, mode: Mode, pixels: int)
    returns (ok: bool)
    requires workspace in AllOf(outputs) && first != Inner && second != Inner && first != second
    modifies config, AllOf(outputs)
    ensures ok <==> mode != InvalidMode
    ensures if ok then SidesUpdated(old(config.gaps), old(Locals(outputs)), config.gaps, Locals(outputs), workspace,
                                    {first, second}, scope, mode, pixels)
            else config.gaps == old(config.gaps) && Locals(outputs) == old(Locals(outputs))
  {
    ghost var c, g := config.gaps, Locals(outputs);
    ok := UpdateSide(config, outputs, workspace, first, scope, mode, pixels);
    if ok {
      ghost var d, h := config.gaps, Locals(outputs);
      var rest := UpdateSide(config, outputs, workspace, second, scope, mode, pixels);
      UpdatesCompose(c, g, d, h, config.gaps, Locals(outputs), workspace, {first}, {second}, scope, mode, pixels);
      assert {first} + {second} == {first, second};
    }
  }

  method UpdateFour(config: Config, outputs: seq<seq<Workspace>>, workspace: Workspace, scope: Scope, mode: Mode,
                    pixels: int)
    returns (ok: bool)
    requires workspace in AllOf(outputs)
    modifies config, AllOf(outputs)
    ensures ok <==> mode != InvalidMode
    ensures if ok then SidesUpdated(old(config.gaps), old(Locals(outputs)), config.gaps, Locals(outputs), workspace,
                                    Sides(Outer), scope, mode, pixels)
            else config.gaps == old(config.gaps) && Locals(outputs) == old(Locals(outputs))
  {
    ghost var c, g := config.gaps, Locals(outputs);
    ok := UpdateTwo(config, outputs, workspace, Top, Bottom, scope, mode, pixels);
    if ok {
      ghost var d, h := config.gaps, Locals(outputs);
      var rest := UpdateTwo(config, outputs, workspace, Right, Left, scope, mode, pixels);
      UpdatesCompose(c, g, d, h, config.gaps, Locals(outputs), workspace, {Top, Bottom}, {Right, Left}, scope, mode,
                     pixels);
    }
  }

  /** A change of the inner gaps re-applies the minimum of every outer gap by a change of nothing. */
  ghost predicate InnerUpdated(c: Gaps, g: Local, d: Gaps, h: Local, m: Gaps, n: Local, ws: Workspace, scope: Scope,
                               mode: Mode, pixels: int)
    requires ws in g
  {
    && SidesUpdated(c, g, m, n, ws, {Inner}, scope, mode, pixels)
    && SidesUpdated(m, n, d, h, ws, Sides(Outer), All, Plus, 0)
  }

  method InnerCommand(config: Config, outputs: seq<seq<Workspace>>, workspace: Workspace, scope: Scope, mode: Mode,
                      pixels: int)
    returns (ok: bool, ghost m: Gaps, ghost n: Local)
    requires workspace in AllOf(outputs)
    modifies config, AllOf(outputs)
    ensures ok <==> mode != InvalidMode
    ensures if ok then InnerUpdated(old(config.gaps), old(Locals(outputs)), config.gaps, Locals(outputs), m, n,
                                    workspace, scope, mode, pixels)
            else config.gaps == old(config.gaps) && Locals(outputs) == old(Locals(outputs))
  {
    ok := UpdateSide(config, outputs, workspace, Inner, scope, mode, pixels);
    m, n := config.gaps, Locals(outputs);
    if ok {
      var rest := UpdateFour(config, outputs, workspace, All, Plus, 0);
    }
  }

  /** What a successful command does. */
  ghost predicate Commanded(c: Gaps, g: Local, d: Gaps, h: Local, m: Gaps, n: Local, ws: Workspace, kind: Kind,
                            scope: Scope, mode: Mode, pixels: int)
    requires ws in g
  {
    if kind == OneSide(Inner) then InnerUpdated(c, g, d, h, m, n, ws, scope, mode, pixels)
    else SidesUpdated(c, g, d, h, ws, Sides(kind), scope, mode, pixels)
  }

  lemma CommandKeepsBounds(c: Gaps, g: Local, d: Gaps, h: Local, m: Gaps, n: Local, ws: Workspace, kind: Kind,
                           scope: Scope, mode: Mode, pixels: int)
    requires ws in g && WithinBounds(c, g) && Commanded(c, g, d, h, m, n, ws, kind, scope, mode, pixels)
    ensures WithinBounds(d, h)
  {
    BoundsMean(c, g);
    if kind == OneSide(Inner) {
      InnerKeepsBounds(c, g, m, n, ws, scope, mode, pixels);
      OuterKeepsBounds(m, n, d, h, ws, Sides(Outer), All, Plus, 0);
    } else {
      OuterKeepsBounds(c, g, d, h, ws, Sides(kind), scope, mode, pixels);
    }
  }

  /** cmd_gaps: a command that fails changes nothing. */
  method CmdGaps(config: Config, outputs: seq<seq<Workspace>>, workspace: Workspace, kind: Kind, scope: Scope,
                 mode: Mode, pixels: int)
    returns (success: bool, ghost m: Gaps, ghost n: Local)
    requires workspace in AllOf(outputs)
    modifies config, AllOf(outputs)
    ensures success <==> kind != InvalidKind && mode != InvalidMode
    ensures if success then Commanded(old(config.gaps), old(Locals(outputs)), config.gaps, Locals(outputs), m, n,
                                      workspace, kind, scope, mode, pixels)
            else config.gaps == old(config.gaps) && Locals(outputs) == old(Locals(outputs))
  {
    m, n := config.gaps, Locals(outputs);
    match kind {
      case OneSide(side) =>
        if side == Inner {
          success, m, n := InnerCommand(config, outputs, workspace, scope, mode, pixels);
        } else {
          success := UpdateSide(config, outputs, workspace, side, scope, mode, pixels);
        }
      case Outer => success := UpdateFour(config, outputs, workspace, scope, mode, pixels);
      case Vertical => success := UpdateTwo(config, outputs, workspace, Top, Bottom, scope, mode, pixels);
      case Horizontal => success := UpdateTwo(config, outputs, workspace, Right, Left, scope, mode, pixels);
      case InvalidKind => success := false;
    }
  }

  // ---- the global gaps ---------------------------------------------------------------------------

  lemma SameGaps(a: Gaps, b: Gaps)
    requires forall side: Side :: Get(a, side) == Get(b, side)
    ensures a == b
  {
    assert Get(a, Inner) == Get(b, Inner) && Get(a, Top) == Get(b, Top) && Get(a, Right) == Get(b, Right);
    assert Get(a, Bottom) == Get(b, Bottom) && Get(a, Left) == Get(b, Left);
  }

  function UpdatedAt(c: Gaps, sides: set<Side>, scope: Scope, mode: Mode, pixels: int, side: Side): int {
    if side in sides then GlobalSide(c, NO_GAPS, side, scope, mode, pixels) else Get(c, side)
  }

  function UpdatedGlobal(c: Gaps, sides: set<Side>, scope: Scope, mode: Mode, pixels: int): Gaps {
    Gaps(UpdatedAt(c, sides, scope, mode, pixels, Inner), UpdatedAt(c, sides, scope, mode, pixels, Top),
         UpdatedAt(c, sides, scope, mode, pixels, Right), UpdatedAt(c, sides, scope, mode, pixels, Bottom),
         UpdatedAt(c, sides, scope, mode, pixels, Left))
  }

  /** The global gaps after a command; those of the workspaces do not matter to them. */
  function CommandGlobal(c: Gaps, kind: Kind, scope: Scope, mode: Mode, pixels: int): Gaps {
    if mode == InvalidMode then c
    else if kind == OneSide(Inner) then
      UpdatedGlobal(UpdatedGlobal(c, {Inner}, scope, mode, pixels), Sides(Outer), All, Plus, 0)
    else UpdatedGlobal(c, Sides(kind), scope, mode, pixels)
  }

  lemma UpdatedGlobalAt(c: Gaps, sides: set<Side>, scope: Scope, mode: Mode, pixels: int, side: Side)
    ensures Get(UpdatedGlobal(c, sides, scope, mode, pixels), side) == UpdatedAt(c, sides, scope, mode, pixels, side)
  {
  }

  lemma GlobalIndependent(c: Gaps, w: Gaps, side: Side, scope: Scope, mode: Mode, pixels: int)
    ensures GlobalSide(c, w, side, scope, mode, pixels) == GlobalSide(c, NO_GAPS, side, scope, mode, pixels)
  {
  }

  lemma SidesGlobal(c: Gaps, g: Local, d: Gaps, h: Local, ws: Workspace, sides: set<Side>, scope: Scope, mode: Mode,
                    pixels: int)
    requires ws in g && SidesUpdated(c, g, d, h, ws, sides, scope, mode, pixels)
    ensures d == UpdatedGlobal(c, sides, scope, mode, pixels)
  {
    var e := UpdatedGlobal(c, sides, scope, mode, pixels);
    forall side: Side ensures Get(d, side) == Get(e, side) {
      UpdatedGlobalAt(c, sides, scope, mode, pixels, side);
      GlobalIndependent(c, g[ws], side, scope, mode, pixels);
    }
    SameGaps(d, e);
  }

  lemma CommandedGlobal(c: Gaps, g: Local, d: Gaps, h: Local, m: Gaps, n: Local, ws: Workspace, kind: Kind,
                        scope: Scope, mode: Mode, pixels: int)
    requires ws in g && mode != InvalidMode && Commanded(c, g, d, h, m, n, ws, kind, scope, mode, pixels)
    ensures d == CommandGlobal(c, kind, scope, mode, pixels)
  {
    if kind == OneSide(Inner) {
      SidesGlobal(c, g, m, n, ws, {Inner}, scope, mode, pixels);
      SidesGlobal(m, n, d, h, ws, Sides(Outer), All, Plus, 0);
    } else {
      SidesGlobal(c, g, d, h, ws, Sides(kind), scope, mode, pixels);
    }
  }

  lemma InvalidGlobal(c: Gaps, scope: Scope, mode: Mode, pixels: int)
    ensures CommandGlobal(c, InvalidKind, scope, mode, pixels) == c
  {
    SameGaps(UpdatedGlobal(c, {}, scope, mode, pixels), c);
  }

  // ---- new workspaces ----------------------------------------------------------------------------

  /** gaps_for_workspace: the assigned gaps a, for the sides in `mask`, relative to the global ones.  The
      sides that are not assigned are 0. */
  function GapsFor(a: Gaps, mask: set<Side>, c: Gaps): Gaps {
    Gaps(Relative(a, mask, c, Inner), Relative(a, mask, c, Top), Relative(a, mask, c, Right),
         Relative(a, mask, c, Bottom), Relative(a, mask, c, Left))
  }

  function Relative(a: Gaps, mask: set<Side>, c: Gaps, side: Side): int {
    if side in mask then Get(a, side) - Get(c, side) else 0
  }

  lemma RelativeAt(a: Gaps, mask: set<Side>, c: Gaps, side: Side)
    ensures Get(GapsFor(a, mask, c), side) == Relative(a, mask, c, side)
  {
  }

  /** A new workspace is drawn with the assigned gaps, and else with the global ones. */
  lemma AssignedDrawn(a: Gaps, mask: set<Side>, c: Gaps, side: Side)
    ensures Drawn(c, GapsFor(a, mask, c), side) == if side in mask then Get(a, side) else Get(c, side)
  {
    RelativeAt(a, mask, c, side);
  }

  /** No assigned inner gap is negative, and no assigned outer gap takes back more than the inner gap gives. */
  predicate Acceptable(a: Gaps, mask: set<Side>, c: Gaps) {
    && (Inner in mask ==> a.inner >= 0)
    && forall side :: side in mask && side != Inner ==>
         Get(a, side) + (if Inner in mask then Max(c.inner, a.inner) else c.inner) >= 0
  }

  /** Exactly such an assignment puts a new workspace within the bounds. */
  lemma AssignedBounded(c: Gaps, a: Gaps, mask: set<Side>)
    requires Bounded(c, NO_GAPS)
    ensures Bounded(c, GapsFor(a, mask, c)) <==> Acceptable(a, mask, c)
  {
    var w := GapsFor(a, mask, c);
    forall side | side != Inner
      ensures SideBounded(c, w, side) <==>
              (side in mask ==> Get(a, side) + (if Inner in mask then Max(c.inner, a.inner) else c.inner) >= 0)
    {
      RelativeAt(a, mask, c, side);
      assert SideBounded(c, NO_GAPS, side);
    }
  }

  /** A negative inner gap in the configuration does break the bounds. */
  lemma NegativePreset()
    ensures Bounded(NO_GAPS, NO_GAPS)
    ensures !Bounded(NO_GAPS, GapsFor(Gaps(-5, 0, 0, 0, 0), {Inner}, NO_GAPS))
  {
    NoGapsBounded();
    AssignedBounded(NO_GAPS, Gaps(-5, 0, 0, 0, 0), {Inner});
  }

  method CreateWorkspace(config: Config, a: Gaps, mask: set<Side>) returns (ws: Workspace)
    ensures fresh(ws) && ws.gaps == GapsFor(a, mask, config.gaps)
  {
    ws := new Workspace;
    ws.gaps := GapsFor(a, mask, config.gaps);
  }

  // ---- a history ---------------------------------------------------------------------------------

  /** A command with the j-th workspace of the i-th output focused (ignored when there is none), or a new
      workspace on an output with the gaps that the configuration assigns to it. */
  datatype Event =
    | Command(i: nat, j: nat, kind: Kind, scope: Scope, mode: Mode, pixels: int)
    | Create(output: nat, preset: Gaps, mask: set<Side>)

  /** What of a history decides whether an assignment is acceptable: the global gaps, and how many workspaces there
      are on every output. */
  datatype Progress = Progress(c: Gaps, sizes: seq<nat>)

  function Then(t: Progress, e: Event): Progress {
    match e
    case Command(i, j, kind, scope, mode, pixels) =>
      if i < |t.sizes| && j < t.sizes[i] then t.(c := CommandGlobal(t.c, kind, scope, mode, pixels)) else t
    case Create(output, preset, mask) =>
      if output < |t.sizes| then t.(sizes := t.sizes[output := t.sizes[output] + 1]) else t
  }

  /** Every assignment is acceptable at the time of its use. */
  predicate PresetsAcceptable(t: Progress, events: seq<Event>)
    decreases |events|
  {
    events == [] ||
    (var e := events[0];
     (e.Create? && e.output < |t.sizes| ==> Acceptable(e.preset, e.mask, t.c)) &&
     PresetsAcceptable(Then(t, e), events[1..]))
  }

  predicate NonNegative(g: Gaps) {
    forall side :: Get(g, side) >= 0
  }

  lemma GlobalInner(c: Gaps, kind: Kind, scope: Scope, mode: Mode, pixels: int)
    requires c.inner >= 0
    ensures CommandGlobal(c, kind, scope, mode, pixels).inner >= 0
  {
  }

  /** Assignments without negative gaps are always acceptable. */
  lemma {:induction false} NonNegativeAcceptable(t: Progress, events: seq<Event>)
    requires t.c.inner >= 0
    requires forall e :: e in events && e.Create? ==> NonNegative(e.preset)
    ensures PresetsAcceptable(t, events)
    decreases |events|
  {
    if events != [] {
      var e := events[0];
      if e.Command? {
        GlobalInner(t.c, e.kind, e.scope, e.mode, e.pixels);
      } else {
        assert Get(e.preset, Inner) >= 0;
      }
      NonNegativeAcceptable(Then(t, e), events[1..]);
    }
  }

  function Sizes(outputs: seq<seq<Workspace>>): (sizes: seq<nat>)
    ensures |sizes| == |outputs| && forall i :: 0 <= i < |outputs| ==> sizes[i] == |outputs[i]|
  {
    seq(|outputs|, i requires 0 <= i < |outputs| => |outputs[i]|)
  }

  method CommandEvent(config: Config, outputs: seq<seq<Workspace>>, e: Event)
    requires e.Command? && e.i < |outputs| && e.j < |outputs[e.i]|
    requires Bounded(config.gaps, NO_GAPS) && WithinBounds(config.gaps, Locals(outputs))
    modifies config, AllOf(outputs)
    ensures Bounded(config.gaps, NO_GAPS) && WithinBounds(config.gaps, Locals(outputs))
    ensures config.gaps == CommandGlobal(old(config.gaps), e.kind, e.scope, e.mode, e.pixels)
  {
    var ws := outputs[e.i][e.j];
    ghost var c, g := config.gaps, Locals(outputs);
    var ok, m, n := CmdGaps(config, outputs, ws, e.kind, e.scope, e.mode, e.pixels);
    if ok {
      CommandKeepsBounds(c, g, config.gaps, Locals(outputs), m, n, ws, e.kind, e.scope, e.mode, e.pixels);
      NewWorkspaceBounded(config.gaps, Locals(outputs)[ws]);
      CommandedGlobal(c, g, config.gaps, Locals(outputs), m, n, ws, e.kind, e.scope, e.mode, e.pixels);
    } else {
      InvalidGlobal(c, e.scope, e.mode, e.pixels);
    }
  }

  lemma AllOfMore(outputs: seq<seq<Workspace>>, k: nat, ws: Workspace)
    requires k < |outputs|
    ensures AllOf(outputs[k := outputs[k] + [ws]]) == AllOf(outputs) + {ws}
  {
    var more := outputs[k := outputs[k] + [ws]];
    forall w | w in AllOf(outputs) + {ws} ensures w in AllOf(more) {
      if w in AllOf(outputs) {
        var i, j :| 0 <= i < |outputs| && 0 <= j < |outputs[i]| && outputs[i][j] == w;
        assert more[i][j] == w;
      } else {
        assert more[k][|outputs[k]|] == ws;
      }
    }
  }

  method CreateEvent(config: Config, outputs: seq<seq<Workspace>>, e: Event) returns (more: seq<seq<Workspace>>)
    requires e.Create? && e.output < |outputs| && Acceptable(e.preset, e.mask, config.gaps)
    requires Bounded(config.gaps, NO_GAPS) && WithinBounds(config.gaps, Locals(outputs))
    ensures WithinBounds(config.gaps, Locals(more)) && fresh(AllOf(more) - AllOf(outputs))
    ensures Sizes(more) == Sizes(outputs)[e.output := Sizes(outputs)[e.output] + 1]
  {
    AssignedBounded(config.gaps, e.preset, e.mask);
    var ws := CreateWorkspace(config, e.preset, e.mask);
    more := outputs[e.output := outputs[e.output] + [ws]];
    AllOfMore(outputs, e.output, ws);
  }

  method Happen(config: Config, outputs: seq<seq<Workspace>>, e: Event, ghost t: Progress)
    returns (after: seq<seq<Workspace>>)
    requires t == Progress(config.gaps, Sizes(outputs)) && PresetsAcceptable(t, [e])
    requires Bounded(config.gaps, NO_GAPS) && WithinBounds(config.gaps, Locals(outputs))
    modifies config, AllOf(outputs)
    ensures Progress(config.gaps, Sizes(after)) == Then(t, e)
    ensures Bounded(config.gaps, NO_GAPS) && WithinBounds(config.gaps, Locals(after))
    ensures fresh(AllOf(after) - AllOf(outputs))
  {
    after := outputs;
    match e {
      case Command(i, j, kind, scope, mode, pixels) =>
        if i < |outputs| && j < |outputs[i]| { CommandEvent(config, outputs, e); }
      case Create(output, preset, mask) =>
        if output < |outputs| { after := CreateEvent(config, outputs, e); }
    }
  }

  /** Every history from no gaps at all keeps the bounds for all workspaces, old and new, if every assignment is
      acceptable when it is used. */
  method History(config: Config, outputs: seq<seq<Workspace>>, events: seq<Event>) returns (after: seq<seq<Workspace>>)
    requires config.gaps == NO_GAPS && forall w :: w in AllOf(outputs) ==> w.gaps == NO_GAPS
    requires PresetsAcceptable(Progress(NO_GAPS, Sizes(outputs)), events)
    modifies config, AllOf(outputs)
    ensures forall w :: w in AllOf(after) ==> Bounded(config.gaps, w.gaps)
  {
    NoGapsBounded();
    after := outputs;
    ghost var t := Progress(NO_GAPS, Sizes(outputs));
    for k := 0 to |events|
      invariant t == Progress(config.gaps, Sizes(after)) && PresetsAcceptable(t, events[k..])
      invariant Bounded(config.gaps, NO_GAPS) && WithinBounds(config.gaps, Locals(after))
      invariant fresh(AllOf(after) - AllOf(outputs))
    {
      assert events[k..][0] == events[k] && events[k..][1..] == events[k + 1..];
      after := Happen(config, after, events[k], t);
      t := Then(t, events[k]);
    }
  }

  // ---- where the stronger bound fails ------------------------------------------------------------

  /** The gaps of the focused workspace after an update of some sides. */
  ghost predicate LocalUpdated(c: Gaps, w: Gaps, x: Gaps, sides: set<Side>, scope: Scope, mode: Mode, pixels: int) {
    forall s: Side :: Get(x, s) == if s in sides then LocalSide(w, true, c, w, s, scope, mode, pixels) else Get(w, s)
  }

  lemma SidesLocal(c: Gaps, g: Local, d: Gaps, h: Local, ws: Workspace, sides: set<Side>, scope: Scope, mode: Mode,
                   pixels: int)
    requires ws in g && SidesUpdated(c, g, d, h, ws, sides, scope, mode, pixels)
    ensures LocalUpdated(c, g[ws], h[ws], sides, scope, mode, pixels)
  {
  }

  /** A change of the inner gaps that leaves the top gaps alone. */
  lemma InnerOnly(c: Gaps, w: Gaps, m: Gaps, n: Gaps, x: Gaps, scope: Scope, mode: Mode, pixels: int)
    requires LocalUpdated(c, w, n, {Inner}, scope, mode, pixels) && LocalUpdated(m, n, x, Sides(Outer), All, Plus, 0)
    requires m == Gaps(10, 0, 0, 0, 0) && n.inner >= -10 && w.(inner := 0) == NO_GAPS
    ensures x == NO_GAPS.(inner := LocalSide(w, true, c, w, Inner, scope, mode, pixels))
  {
    assert Get(x, Inner) == Get(n, Inner) == LocalSide(w, true, c, w, Inner, scope, mode, pixels);
    forall s: Side | s != Inner ensures Get(x, s) == 0 {
      assert Get(n, s) == Get(w, s) == 0;
      assert Get(x, s) == LocalSide(n, true, m, n, s, All, Plus, 0);
    }
    SameGaps(x, NO_GAPS.(inner := LocalSide(w, true, c, w, Inner, scope, mode, pixels)));
  }

  lemma InnerCommanded(c: Gaps, g: Local, d: Gaps, h: Local, m: Gaps, n: Local, ws: Workspace, scope: Scope,
                       mode: Mode, pixels: int)
    requires ws in g && InnerUpdated(c, g, d, h, m, n, ws, scope, mode, pixels)
    requires UpdatedGlobal(c, {Inner}, scope, mode, pixels) == Gaps(10, 0, 0, 0, 0) && g[ws].(inner := 0) == NO_GAPS
    requires LocalSide(g[ws], true, c, g[ws], Inner, scope, mode, pixels) >= -10
    ensures d == Gaps(10, 0, 0, 0, 0)
    ensures ws in h && h[ws] == NO_GAPS.(inner := LocalSide(g[ws], true, c, g[ws], Inner, scope, mode, pixels))
  {
    SidesGlobal(c, g, m, n, ws, {Inner}, scope, mode, pixels);
    SidesGlobal(m, n, d, h, ws, Sides(Outer), All, Plus, 0);
    SidesLocal(c, g, m, n, ws, {Inner}, scope, mode, pixels);
    SidesLocal(m, n, d, h, ws, Sides(Outer), All, Plus, 0);
    assert Get(n[ws], Inner) == LocalSide(g[ws], true, c, g[ws], Inner, scope, mode, pixels);
    InnerOnly(c, g[ws], m, n[ws], h[ws], scope, mode, pixels);
  }

  lemma TopCommanded(g: Local, d: Gaps, h: Local, ws: Workspace)
    requires ws in g && g[ws] == Gaps(-5, 0, 0, 0, 0)
    requires SidesUpdated(Gaps(10, 0, 0, 0, 0), g, d, h, ws, {Top}, All, Minus, 10)
    ensures d == Gaps(10, -10, 0, 0, 0) && h[ws] == g[ws]
  {
    SidesGlobal(Gaps(10, 0, 0, 0, 0), g, d, h, ws, {Top}, All, Minus, 10);
    SidesLocal(Gaps(10, 0, 0, 0, 0), g, d, h, ws, {Top}, All, Minus, 10);
    forall s: Side ensures Get(h[ws], s) == Get(g[ws], s) {
      assert LocalSide(g[ws], true, Gaps(10, 0, 0, 0, 0), g[ws], Top, All, Minus, 10) == 0;
    }
    SameGaps(h[ws], g[ws]);
  }

  method SetInner(config: Config, outputs: seq<seq<Workspace>>, ws: Workspace, scope: Scope, mode: Mode, pixels: int)
    requires ws in AllOf(outputs) && ws.gaps.(inner := 0) == NO_GAPS && mode != InvalidMode
    requires UpdatedGlobal(config.gaps, {Inner}, scope, mode, pixels) == Gaps(10, 0, 0, 0, 0)
    requires LocalSide(ws.gaps, true, config.gaps, ws.gaps, Inner, scope, mode, pixels) >= -10
    modifies config, AllOf(outputs)
    ensures config.gaps == Gaps(10, 0, 0, 0, 0)
    ensures ws.gaps == NO_GAPS.(inner := old(LocalSide(ws.gaps, true, config.gaps, ws.gaps, Inner, scope, mode,
                                                       pixels)))
  {
    ghost var c, g := config.gaps, Locals(outputs);
    var ok, m, n := CmdGaps(config, outputs, ws, OneSide(Inner), scope, mode, pixels);
    InnerCommanded(c, g, config.gaps, Locals(outputs), m, n, ws, scope, mode, pixels);
  }

  method LowerTop(config: Config, outputs: seq<seq<Workspace>>, ws: Workspace)
    requires ws in AllOf(outputs) && config.gaps == Gaps(10, 0, 0, 0, 0) && ws.gaps == Gaps(-5, 0, 0, 0, 0)
    modifies config, AllOf(outputs)
    ensures config.gaps == Gaps(10, -10, 0, 0, 0) && ws.gaps == Gaps(-5, 0, 0, 0, 0)
  {
    ghost var g := Locals(outputs);
    var ok, m, n := CmdGaps(config, outputs, ws, OneSide(Top), All, Minus, 10);
    TopCommanded(g, config.gaps, Locals(outputs), ws);
  }

  lemma NotStrong()
    ensures Bounded(Gaps(10, -10, 0, 0, 0), Gaps(-5, 0, 0, 0, 0))
    ensures !Strong(Gaps(10, -10, 0, 0, 0), Gaps(-5, 0, 0, 0, 0), Top)
  {
  }

  /** After all inner gaps have been set to 10 and those of the workspace lowered by 5, lowering all top gaps by 10
      leaves the workspace outside the stronger bound. */
  method NegativeInnerNotCounted(config: Config, outputs: seq<seq<Workspace>>, ws: Workspace)
    requires ws in AllOf(outputs) && config.gaps == NO_GAPS && forall w :: w in AllOf(outputs) ==> w.gaps == NO_GAPS
    modifies config, AllOf(outputs)
    ensures config.gaps == Gaps(10, -10, 0, 0, 0) && ws.gaps == Gaps(-5, 0, 0, 0, 0)
    ensures Bounded(config.gaps, ws.gaps) && !Strong(config.gaps, ws.gaps, Top)
  {
    SetInner(config, outputs, ws, All, SetTo, 10);
    SetInner(config, outputs, ws, Current, Minus, 5);
    LowerTop(config, outputs, ws);
    NotStrong();
  }
}
