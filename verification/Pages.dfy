/**
 dmenu's pages as positions in the list of matches: how many items fit forwards and backwards from a
 position, the steps the keys take, and that the selection stays on the visible page.
 */
module Pages {

  /** The first position that does not fit on the page beginning at k, i being used up already. */
  function Fwd(ws: seq<nat>, n: int, k: nat, i: int): (e: nat)
    requires k <= |ws|
    ensures k <= e <= |ws|
    decreases |ws| - k
  {
    if k == |ws| || i + ws[k] > n then k else Fwd(ws, n, k + 1, i + ws[k])
  }

  /** The first position of the page that ends before k. */
  function Bwd(ws: seq<nat>, n: int, k: nat, i: int): (b: nat)
    requires k <= |ws|
    ensures b <= k
  {
    if k == 0 || i + ws[k - 1] > n then k else Bwd(ws, n, k - 1, i + ws[k - 1])
  }

  function End(ws: seq<nat>, n: int, c: nat): (e: nat)
    requires c <= |ws|
    ensures c <= e <= |ws|
  {
    Fwd(ws, n, c, 0)
  }

  function Start(ws: seq<nat>, n: int, c: nat): (b: nat)
    requires c <= |ws|
    ensures b <= c
  {
    Bwd(ws, n, c, 0)
  }

  function Total(ws: seq<nat>, a: nat, b: nat): nat
    requires a <= b <= |ws|
    decreases b - a
  {
    if a == b then 0 else ws[a] + Total(ws, a + 1, b)
  }

  lemma {:induction false} TotalSplit(ws: seq<nat>, a: nat, b: nat, c: nat)
    requires a <= b <= c <= |ws|
    ensures Total(ws, a, c) == Total(ws, a, b) + Total(ws, b, c)
    decreases b - a
  {
    if a < b { TotalSplit(ws, a + 1, b, c); }
  }

  /** A page holds what fits, and the next item does not. */
  lemma {:induction false} FwdFits(ws: seq<nat>, n: int, k: nat, i: int)
    requires k <= |ws|
    ensures var e := Fwd(ws, n, k, i);
            (e > k ==> i + Total(ws, k, e) <= n) && (e < |ws| ==> i + Total(ws, k, e) + ws[e] > n)
    decreases |ws| - k
  {
    if k < |ws| && i + ws[k] <= n { FwdFits(ws, n, k + 1, i + ws[k]); }
  }

  lemma {:induction false} BwdFits(ws: seq<nat>, n: int, k: nat, i: int)
    requires k <= |ws|
    ensures var b := Bwd(ws, n, k, i);
            (b < k ==> i + Total(ws, b, k) <= n) && (b > 0 ==> i + ws[b - 1] + Total(ws, b, k) > n)
  {
    if k > 0 && i + ws[k - 1] <= n {
      BwdFits(ws, n, k - 1, i + ws[k - 1]);
      var b := Bwd(ws, n, k, i);
      TotalSplit(ws, b, k - 1, k);
    }
  }

  /** The widths are clamped to the page, whose width is not negative. */
  predicate Clamped(ws: seq<nat>, n: int) {
    0 <= n && forall k :: 0 <= k < |ws| ==> ws[k] <= n
  }

  lemma {:induction false} FwdReaches(ws: seq<nat>, n: int, k: nat, i: int, e: nat)
    requires k <= e <= |ws| && i + Total(ws, k, e) <= n
    ensures Fwd(ws, n, k, i) >= e
    decreases e - k
  {
    if k < e { FwdReaches(ws, n, k + 1, i + ws[k], e); }
  }

  /** Packing backwards from c finds a page that, packed forwards, reaches c again. */
  lemma BackwardImpliesForward(ws: seq<nat>, n: int, c: nat)
    requires Clamped(ws, n) && c <= |ws|
    ensures var b := Start(ws, n, c);
            End(ws, n, b) >= c && (c > 0 ==> b < c) && (c < |ws| ==> End(ws, n, c) > c)
  {
    var b := Start(ws, n, c);
    BwdFits(ws, n, c, 0);
    if b < c { FwdReaches(ws, n, b, 0, c); }
  }

  // ---- the keys ----------------------------------------------------------------------------------

  /** The positions of the first visible item and of the selected one. */
  datatype View = View(curr: nat, sel: nat)

  predicate InList(ws: seq<nat>, v: View) {
    if ws == [] then v == View(0, 0) else v.curr < |ws| && v.sel < |ws|
  }

  /** The selection lies on the visible page. */
  predicate Visible(ws: seq<nat>, n: int, v: View) {
    InList(ws, v) && (ws != [] ==> v.curr <= v.sel < End(ws, n, v.curr))
  }

  datatype Move = GoEnd | GoHome | GoUp | GoDown | GoNext | GoPrior | Rematch

  /** From k on, the first position from where everything to the end is visible. */
  function Settle(ws: seq<nat>, n: int, k: nat): (c: nat)
    requires k <= |ws|
    ensures k <= c <= |ws| && End(ws, n, c) == |ws|
    decreases |ws| - k
  {
    if End(ws, n, k) == |ws| then k else Settle(ws, n, k + 1)
  }

  function After(ws: seq<nat>, n: int, v: View, move: Move): View
    requires InList(ws, v)
  {
    if ws == [] then v else
      var next, prev, last := End(ws, n, v.curr), Start(ws, n, v.curr), |ws| - 1;
      match move
      case GoEnd => if next < |ws| then View(Settle(ws, n, Start(ws, n, last)), last) else View(v.curr, last)
      case GoHome => if v.sel == 0 then v else View(0, 0)
      case GoUp => if v.sel == 0 then v else View(if v.sel == v.curr then prev else v.curr, v.sel - 1)
      case GoDown => if v.sel == last then v else View(if v.sel + 1 == next then next else v.curr, v.sel + 1)
      case GoNext => if next == |ws| then v else View(next, next)
      case GoPrior => View(prev, prev)
      case Rematch => View(0, 0)
  }

  lemma {:induction false} SettleBefore(ws: seq<nat>, n: int, k: nat)
    requires Clamped(ws, n) && k < |ws|
    ensures Settle(ws, n, k) < |ws|
    decreases |ws| - k
  {
    BackwardImpliesForward(ws, n, k);
    if End(ws, n, k) < |ws| { SettleBefore(ws, n, k + 1); }
  }

  /** Every key keeps the selection on the page. */
  lemma MoveKeepsVisible(ws: seq<nat>, n: int, v: View, move: Move)
    requires Clamped(ws, n) && Visible(ws, n, v)
    ensures Visible(ws, n, After(ws, n, v, move))
    ensures move == GoEnd && ws != [] ==>
            After(ws, n, v, move).sel == |ws| - 1 && End(ws, n, After(ws, n, v, move).curr) == |ws|
  {
    if ws != [] {
      BackwardImpliesForward(ws, n, v.curr);
      BackwardImpliesForward(ws, n, 0);
      BackwardImpliesForward(ws, n, End(ws, n, v.curr));
      BackwardImpliesForward(ws, n, Start(ws, n, v.curr));
      SettleBefore(ws, n, Start(ws, n, |ws| - 1));
    }
  }

  function AfterAll(ws: seq<nat>, n: int, v: View, moves: seq<Move>): (r: View)
    requires InList(ws, v) && Clamped(ws, n) && Visible(ws, n, v)
    ensures Visible(ws, n, r)
  {
    if moves == [] then v else
      var u := AfterAll(ws, n, v, moves[..|moves| - 1]);
      MoveKeepsVisible(ws, n, u, moves[|moves| - 1]);
      After(ws, n, u, moves[|moves| - 1])
  }

  /** A fresh page shows its first item exactly when the page width is not negative. */
  lemma VisibleNeedsRoom(ws: seq<nat>, n: int)
    requires ws != [] && (0 <= n ==> Clamped(ws, n))
    ensures Visible(ws, n, View(0, 0)) <==> 0 <= n
  {
    if 0 <= n { BackwardImpliesForward(ws, n, 0); }
  }

  // ---- where repeated keys lead ------------------------------------------------------------------

  function Repeat(move: Move, k: nat): (moves: seq<Move>)
    ensures |moves| == k && forall i :: 0 <= i < k ==> moves[i] == move
  {
    seq(k, i => move)
  }

  lemma RepeatStep(move: Move, k: nat)
    ensures Repeat(move, k + 1)[..k] == Repeat(move, k)
  {
  }

  /** k times Down selects the item k places on, or the last one. */
  lemma {:induction false} DownReaches(ws: seq<nat>, n: int, v: View, k: nat)
    requires Clamped(ws, n) && Visible(ws, n, v) && ws != []
    ensures AfterAll(ws, n, v, Repeat(GoDown, k)).sel == if v.sel + k < |ws| then v.sel + k else |ws| - 1
  {
    if k > 0 {
      DownReaches(ws, n, v, k - 1);
      RepeatStep(GoDown, k - 1);
    }
  }

  /** k times Up selects the item k places before, or the first one. */
  lemma {:induction false} UpReaches(ws: seq<nat>, n: int, v: View, k: nat)
    requires Clamped(ws, n) && Visible(ws, n, v) && ws != []
    ensures AfterAll(ws, n, v, Repeat(GoUp, k)).sel == if k <= v.sel then v.sel - k else 0
  {
    if k > 0 {
      UpReaches(ws, n, v, k - 1);
      RepeatStep(GoUp, k - 1);
    }
  }

  /** Up undoes what Down has selected, and Down what Up has. */
  lemma UpUndoesDown(ws: seq<nat>, n: int, v: View)
    requires Clamped(ws, n) && Visible(ws, n, v) && ws != []
    ensures v.sel < |ws| - 1 ==> AfterAll(ws, n, v, [GoDown, GoUp]).sel == v.sel
    ensures v.sel > 0 ==> AfterAll(ws, n, v, [GoUp, GoDown]).sel == v.sel
  {
    assert [GoDown, GoUp][..1] == [GoDown] && [GoUp, GoDown][..1] == [GoUp];
    assert AfterAll(ws, n, v, []) == v && [GoDown][..0] == [] && [GoUp][..0] == [];
    assert AfterAll(ws, n, v, [GoDown]) == After(ws, n, v, GoDown);
    assert AfterAll(ws, n, v, [GoUp]) == After(ws, n, v, GoUp);
  }

  /** Next shows the page that begins where this one ends, and selects its first item; |ws| times Next shows the last
      page. */
  lemma {:induction false} NextReaches(ws: seq<nat>, n: int, v: View, k: nat)
    requires Clamped(ws, n) && Visible(ws, n, v) && ws != []
    ensures End(ws, n, v.curr) < |ws| ==>
              AfterAll(ws, n, v, [GoNext]) == View(End(ws, n, v.curr), End(ws, n, v.curr))
    ensures k >= |ws| - v.curr ==> End(ws, n, AfterAll(ws, n, v, Repeat(GoNext, k)).curr) == |ws|
    ensures AfterAll(ws, n, v, Repeat(GoNext, k)).curr >= v.curr + k ||
            End(ws, n, AfterAll(ws, n, v, Repeat(GoNext, k)).curr) == |ws|
  {
    assert AfterAll(ws, n, v, []) == v && [GoNext][..0] == [];
    if k > 0 {
      NextReaches(ws, n, v, k - 1);
      RepeatStep(GoNext, k - 1);
      BackwardImpliesForward(ws, n, AfterAll(ws, n, v, Repeat(GoNext, k - 1)).curr);
    }
  }

  /** Prior shows an earlier page, if there is one, from where the items up to this page fit; it selects its first item,
      and Home the first one of all. */
  lemma PriorReaches(ws: seq<nat>, n: int, v: View)
    requires Clamped(ws, n) && Visible(ws, n, v) && ws != []
    ensures var u := After(ws, n, v, GoPrior);
            u.sel == u.curr && End(ws, n, u.curr) >= v.curr && (if v.curr > 0 then u.curr < v.curr else u.curr == 0)
    ensures var u := After(ws, n, v, GoHome); u.sel == 0 && (v.sel != 0 ==> u.curr == 0)
  {
    BackwardImpliesForward(ws, n, v.curr);
  }
}
