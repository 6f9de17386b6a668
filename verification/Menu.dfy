/** dmenu's menu: the input line, the list of matches and the page shown, as the key presses change them. */
module Menu {
  import opened Lists
  import opened MatchList
  import opened Pages

  const BUFSIZ := 8192

  class Menu {
    const items: seq<Item>
    const ci: bool             // -i
    const lines: nat           // -l
    const bh: nat
    const room: int            // mw - (promptw + inputw + TEXTW("<") + TEXTW(">"))
    const textw: string -> nat // TEXTW
    var text: string
    var cursor: nat
    var matches: Item?
    var matchend: Item?
    var prev: Item?
    var curr: Item?
    var next: Item?
    var sel: Item?

    constructor (items: seq<Item>, ci: bool, lines: nat, bh: nat, room: int, textw: string -> nat)
      ensures this.items == items && this.ci == ci && this.lines == lines && this.bh == bh && this.room == room
      ensures this.textw == textw && text == [] && cursor == 0
    {
      this.items, this.ci, this.lines, this.bh, this.room, this.textw := items, ci, lines, bh, room, textw;
      text, cursor := [], 0;
      matches, matchend, prev, curr, next, sel := null, null, null, null, null, null;
    }

    /** The width of a page. */
    function Page(): int {
      if lines > 0 then lines * bh else room
    }

    /** In the horizontal menu an item takes its width, or the whole page when it is wider. */
    lemma WidthFits(text: string)
      ensures lines > 0 ==> Page() == lines * bh && Width(text) == bh
      ensures lines == 0 && 0 <= room ==>
                Width(text) <= Page() && (textw(text) <= room ==> Width(text) == textw(text)) &&
                (textw(text) > room ==> Width(text) == Page())
    {
    }

    /** What an item takes of it; the comparison of textw_clamp is unsigned, so no width exceeds a negative room. */
    function Width(text: string): nat {
      if lines > 0 then bh else if 0 <= room < textw(text) then room else textw(text)
    }

    ghost function Widths(l: seq<Item>): (ws: seq<nat>)
      ensures |ws| == |l| && forall k :: 0 <= k < |l| ==> ws[k] == Width(l[k].text)
    {
      seq(|l|, k requires 0 <= k < |l| => Width(l[k].text))
    }

    lemma WidthsClamped(l: seq<Item>)
      requires 0 <= Page()
      ensures Clamped(Widths(l), Page())
    {
      if lines > 0 { assert lines * bh >= bh; }
    }

    static function At(l: seq<Item>, k: nat): Item? {
      if k < |l| then l[k] else null
    }

    /** The page begins at position c. */
    ghost predicate PageAt(l: seq<Item>, c: nat)
      reads this`curr, this`next, this`prev
    {
      && (if l == [] then c == 0 else c < |l|)
      && curr == At(l, c)
      && next == At(l, End(Widths(l), Page(), c))
      && prev == At(l, Start(Widths(l), Page(), c))
    }

    /** The pointers show this view of the list. */
    ghost predicate Shows(l: seq<Item>, v: View)
      reads this`curr, this`next, this`prev, this`sel
    {
      PageAt(l, v.curr) && InList(Widths(l), v) && sel == At(l, v.sel)
    }

    ghost predicate Listed(l: seq<Item>)
      reads this`text, this`matches, this`matchend, l
    {
      NoDup(items) && l == MatchesOf(items, text, ci) && Holds(l, matches, matchend)
    }

    /** What every key leaves: the matches of the input in order, and the selection on the visible page. */
    ghost predicate Valid(l: seq<Item>, v: View)
      reads this, l
    {
      && cursor <= |text| < BUFSIZ
      && Listed(l) && Shows(l, v) && Visible(Widths(l), Page(), v)
    }

    method FindNext(ghost l: seq<Item>, ghost c: nat) returns (next: Item?)
      requires NoDup(l) && Chained(l) && c <= |l| && curr == At(l, c)
      ensures next == At(l, End(Widths(l), Page(), c))
    {
      ghost var ws := Widths(l);
      var n := if lines > 0 then lines * bh else room;
      var i := 0;
      next := curr;
      ghost var k: nat := c;
      while next != null
        invariant k <= |l| && next == At(l, k) && End(ws, n, c) == Fwd(ws, n, k, i)
        decreases |l| - k
      {
        i := i + Width(next.text);
        if i > n {
          return;
        }
        assert LinkedAt(l, k);
        next := next.right;
        k := k + 1;
      }
    }

    method FindPrev(ghost l: seq<Item>, ghost c: nat) returns (prev: Item?)
      requires NoDup(l) && Chained(l) && (if l == [] then c == 0 else c < |l|) && curr == At(l, c)
      ensures prev == At(l, Start(Widths(l), Page(), c))
    {
      ghost var ws := Widths(l);
      var n := if lines > 0 then lines * bh else room;
      var i := 0;
      prev := curr;
      ghost var k: nat := c;
      assert l != [] ==> LinkedAt(l, k);
      while prev != null && prev.left != null
        invariant k <= c && prev == At(l, k) && Start(ws, n, c) == Bwd(ws, n, k, i)
        invariant l != [] ==> LinkedAt(l, k)
        decreases k
      {
        assert LinkedAt(l, k - 1);
        i := i + Width(prev.left.text);
        if i > n {
          return;
        }
        prev := prev.left;
        k := k - 1;
      }
    }

    method CalcOffsets(ghost l: seq<Item>, ghost c: nat)
      requires NoDup(l) && Chained(l) && (if l == [] then c == 0 else c < |l|) && curr == At(l, c)
      modifies this`next, this`prev
      ensures PageAt(l, c)
    {
      next := FindNext(l, c);
      prev := FindPrev(l, c);
    }

    method ShowFirst(ghost l: seq<Item>)
      requires Holds(l, matches, matchend)
      modifies this`curr, this`sel, this`next, this`prev
      ensures Shows(l, View(0, 0))
    {
      sel := matches;
      curr := matches;
      CalcOffsets(l, 0);
    }

    method Rebuild() returns (ghost l: seq<Item>)
      requires NoDup(items)
      modifies this`matches, this`matchend, items
      ensures Listed(l)
    {
      matches, matchend := BuildMatches(items, text, ci);
      l := MatchesOf(items, text, ci);
    }

    /** match: the list is rebuilt and the page starts at its first item. */
    method Match() returns (ghost l: seq<Item>)
      requires NoDup(items) && 0 <= Page() && cursor <= |text| < BUFSIZ
      modifies this, items
      ensures text == old(text) && cursor == old(cursor)
      ensures Valid(l, View(0, 0))
    {
      l := Rebuild();
      ShowFirst(l);
      VisibleIfRoom(l);
    }

    lemma VisibleIfRoom(l: seq<Item>)
      requires 0 <= Page()
      ensures Visible(Widths(l), Page(), View(0, 0))
    {
      WidthsClamped(l);
      if l != [] { VisibleNeedsRoom(Widths(l), Page()); }
    }

    // ---- moving through the pages --------------------------------------------------------------

    ghost function Moved(l: seq<Item>, v: View, move: Move): View
      requires InList(Widths(l), v)
    {
      After(Widths(l), Page(), v, move)
    }

    lemma MovedValid(l: seq<Item>, v: View, move: Move)
      requires 0 <= Page() && Visible(Widths(l), Page(), v)
      requires cursor <= |text| < BUFSIZ && Listed(l) && Shows(l, Moved(l, v, move))
      ensures Valid(l, Moved(l, v, move))
    {
      WidthsClamped(l);
      MoveKeepsVisible(Widths(l), Page(), v, move);
    }

    lemma MovedVisible(l: seq<Item>, v: View, move: Move)
      requires 0 <= Page() && Visible(Widths(l), Page(), v)
      ensures Visible(Widths(l), Page(), Moved(l, v, move))
    {
      WidthsClamped(l);
      MoveKeepsVisible(Widths(l), Page(), v, move);
    }

    method GoTo(item: Item?, ghost l: seq<Item>, ghost c: nat)
      requires NoDup(l) && Chained(l) && (if l == [] then c == 0 else c < |l|) && item == At(l, c)
      modifies this`curr, this`next, this`prev
      ensures PageAt(l, c)
    {
      curr := item;
      CalcOffsets(l, c);
    }

    /** The item behind or before the given one, if there is any; else the item itself. */
    static function Behind(item: Item?): Item?
      reads item
    {
      if item == null || item.right == null then item else item.right
    }

    static function Ahead(item: Item?): Item?
      reads item
    {
      if item == null || item.left == null then item else item.left
    }

    method Down(ghost l: seq<Item>, ghost v: View)
      requires NoDup(l) && Chained(l) && Shows(l, v)
      modifies this`curr, this`sel, this`next, this`prev
      ensures Shows(l, Moved(l, v, GoDown)) && sel == old(Behind(sel))
      ensures curr == if sel != old(sel) && sel == old(next) then sel else old(curr)
    {
      if sel != null {
        assert LinkedAt(l, v.sel);
        if sel.right != null {
          sel := sel.right;
          if sel == next {
            GoTo(next, l, v.sel + 1);
          }
        }
      }
    }

    method Up(ghost l: seq<Item>, ghost v: View)
      requires NoDup(l) && Chained(l) && Shows(l, v)
      modifies this`curr, this`sel, this`next, this`prev
      ensures Shows(l, Moved(l, v, GoUp)) && sel == old(Ahead(sel))
      ensures curr == if sel != old(sel) && old(sel) == old(curr) then old(prev) else old(curr)
    {
      if sel != null {
        assert LinkedAt(l, v.sel);
        if sel.left != null {
          sel := sel.left;
          assert LinkedAt(l, v.sel - 1);
          if sel.right == curr {
            GoTo(prev, l, Start(Widths(l), Page(), v.curr));
          }
        }
      }
    }

    method NextPage(ghost l: seq<Item>, ghost v: View)
      requires NoDup(l) && Chained(l) && Shows(l, v)
      modifies this`curr, this`sel, this`next, this`prev
      ensures Shows(l, Moved(l, v, GoNext))
      ensures if old(next) == null then curr == old(curr) && sel == old(sel) else curr == sel == old(next)
    {
      if next == null {
        return;
      }
      sel := next;
      GoTo(next, l, End(Widths(l), Page(), v.curr));
    }

    method PriorPage(ghost l: seq<Item>, ghost v: View)
      requires NoDup(l) && Chained(l) && Shows(l, v)
      modifies this`curr, this`sel, this`next, this`prev
      ensures Shows(l, Moved(l, v, GoPrior))
      ensures if old(prev) == null then curr == old(curr) && sel == old(sel) else curr == sel == old(prev)
    {
      if prev == null {
        return;
      }
      sel := prev;
      GoTo(prev, l, Start(Widths(l), Page(), v.curr));
    }

    method HomePage(ghost l: seq<Item>, ghost v: View)
      requires NoDup(l) && Chained(l) && Shows(l, v) && matches == FirstOf(l) && sel != matches
      modifies this`curr, this`sel, this`next, this`prev
      ensures Shows(l, Moved(l, v, GoHome)) && curr == sel == matches
    {
      sel := matches;
      GoTo(matches, l, 0);
    }

    /** The loop of the End key: the page moves on until the last item is visible. */
    method SettleAtEnd(ghost l: seq<Item>, ghost c: nat)
      requires NoDup(l) && Chained(l) && c < |l| && PageAt(l, c) && Settle(Widths(l), Page(), c) < |l|
      modifies this`curr, this`next, this`prev
      ensures PageAt(l, Settle(Widths(l), Page(), c))
    {
      ghost var k: nat := c;
      while next != null
        invariant k < |l| && PageAt(l, k) && Settle(Widths(l), Page(), k) == Settle(Widths(l), Page(), c)
        decreases |l| - k
      {
        assert LinkedAt(l, k);
        curr := curr.right;
        k := k + 1;
        if curr == null {
          break;
        }
        CalcOffsets(l, k);
      }
    }

    method JumpToEnd(ghost l: seq<Item>)
      requires 0 <= Page() && NoDup(l) && Chained(l) && l != [] && matchend == LastOf(l)
      modifies this`curr, this`next, this`prev
      ensures PageAt(l, Settle(Widths(l), Page(), Start(Widths(l), Page(), |l| - 1)))
    {
      GoTo(matchend, l, |l| - 1);
      ghost var b := Start(Widths(l), Page(), |l| - 1);
      GoTo(prev, l, b);
      WidthsClamped(l);
      SettleBefore(Widths(l), Page(), b);
      SettleAtEnd(l, b);
    }

    method SelectLast()
      modifies this`sel
      ensures sel == matchend
    {
      sel := matchend;
    }

    /** The page that the End key shows. */
    ghost function EndStart(l: seq<Item>, v: View): nat
      requires InList(Widths(l), v)
    {
      var ws := Widths(l);
      if End(ws, Page(), v.curr) < |l| then Settle(ws, Page(), Start(ws, Page(), |l| - 1)) else v.curr
    }

    lemma EndMoves(l: seq<Item>, v: View)
      requires InList(Widths(l), v)
      ensures Moved(l, v, GoEnd) == View(EndStart(l, v), if l == [] then 0 else |l| - 1)
    {
    }

    method EndPage(ghost l: seq<Item>, ghost v: View)
      requires 0 <= Page() && NoDup(l) && Chained(l) && Shows(l, v) && matchend == LastOf(l)
      modifies this`curr, this`sel, this`next, this`prev
      ensures Shows(l, Moved(l, v, GoEnd)) && sel == matchend
    {
      EndMoves(l, v);
      JumpPage(l, v);
      SelectLast();
    }

    method JumpPage(ghost l: seq<Item>, ghost v: View)
      requires 0 <= Page() && NoDup(l) && Chained(l) && Shows(l, v) && matchend == LastOf(l)
      modifies this`curr, this`next, this`prev
      ensures PageAt(l, EndStart(l, v))
    {
      if next != null {
        JumpToEnd(l);
      }
    }

    // ---- the input line -------------------------------------------------------------------------

    static predicate Continuation(c: char) {
      c as int % 256 / 64 == 2
    }

    /** From n on, the first position that is no continuation byte, or the end. */
    static function BoundaryFrom(t: string, n: nat): (b: nat)
      requires n <= |t|
      ensures n <= b <= |t| && (forall k :: n <= k < b ==> Continuation(t[k])) && (b < |t| ==> !Continuation(t[b]))
      decreases |t| - n
    {
      if n < |t| && Continuation(t[n]) then BoundaryFrom(t, n + 1) else n
    }

    /** Where the last character of t begins: back to a byte that is no continuation, or to the beginning. */
    static function LastRune(t: string): (b: nat)
      requires t != []
      ensures b < |t| && (forall k :: b < k < |t| ==> Continuation(t[k])) && (b > 0 ==> !Continuation(t[b]))
    {
      var n := |t| - 1;
      if n > 0 && Continuation(t[n]) then LastRune(t[..n]) else n
    }

    /** The next boundary of a UTF-8 sequence in the direction inc. */
    method NextRune(inc: int) returns (n: nat)
      requires cursor <= |text|
      requires (inc == 1 && cursor < |text|) || (inc == -1 && cursor > 0)
      ensures inc == 1 ==> n == BoundaryFrom(text, cursor + 1)
      ensures inc == -1 ==> n == LastRune(text[..cursor])
    {
      if inc == 1 {
        n := NextForward();
      } else {
        n := NextBackward();
      }
    }

    /** The loop of nextrune(+1); its other condition, n + 1 >= 0, always holds. */
    method NextForward() returns (n: nat)
      requires cursor < |text|
      ensures n == BoundaryFrom(text, cursor + 1)
    {
      n := cursor + 1;
      while n < |text| && Continuation(text[n])
        invariant n <= |text| && BoundaryFrom(text, n) == BoundaryFrom(text, cursor + 1)
      {
        n := n + 1;
      }
    }

    /** The loop of nextrune(-1). */
    method NextBackward() returns (n: nat)
      requires 0 < cursor <= |text|
      ensures n == LastRune(text[..cursor])
    {
      n := cursor - 1;
      while n - 1 >= 0 && Continuation(text[n])
        invariant n < cursor && LastRune(text[..n + 1]) == LastRune(text[..cursor])
      {
        assert text[..n + 1][..n] == text[..n];
        n := n - 1;
      }
    }

    /** Back over the characters that are (or are not) delimiters, as far as they reach. */
    static function WordStart(t: string, delimiters: string, among: bool): (b: nat)
      ensures b <= |t| && (b > 0 ==> (t[LastRune(t[..b])] in delimiters) != among)
    {
      if t == [] then 0
      else
        var n := LastRune(t);
        if (t[n] in delimiters) == among then
          var b := WordStart(t[..n], delimiters, among);
          assert t[..n][..b] == t[..b];
          b
        else
          assert t[..|t|] == t;
          |t|
    }

    /** Every character passed is one of them. */
    static lemma {:induction false} WordStartPasses(t: string, delimiters: string, among: bool, k: nat)
      requires WordStart(t, delimiters, among) <= k < |t| && !Continuation(t[k])
      ensures (t[k] in delimiters) == among
    {
      var n := LastRune(t);
      if k < n { WordStartPasses(t[..n], delimiters, among, k); }
    }

    /** Forwards over them. */
    static function WordEnd(t: string, n: nat, delimiters: string, among: bool): (b: nat)
      requires n <= |t|
      ensures n <= b <= |t| && (b < |t| ==> (t[b] in delimiters) != among)
      ensures forall k :: n <= k < b && (k == n || !Continuation(t[k])) ==> (t[k] in delimiters) == among
      decreases |t| - n
    {
      if n < |t| && (t[n] in delimiters) == among then WordEnd(t, BoundaryFrom(t, n + 1), delimiters, among) else n
    }

    /** Over delimiters first, and then over a word. */
    static function WordBefore(t: string, delimiters: string): nat {
      WordStart(t[..WordStart(t, delimiters, true)], delimiters, false)
    }

    /** What is passed backwards is a word and the delimiters behind it, each as far as it reaches. */
    static lemma WordBeforeMeans(t: string, delimiters: string) returns (m: nat)
      ensures var b := WordBefore(t, delimiters);
              && b <= m <= |t|
              && (forall k :: m <= k < |t| && !Continuation(t[k]) ==> t[k] in delimiters)
              && (forall k :: b <= k < m && !Continuation(t[k]) ==> t[k] !in delimiters)
              && (m > 0 ==> t[LastRune(t[..m])] !in delimiters) && (b > 0 ==> t[LastRune(t[..b])] in delimiters)
    {
      m := WordStart(t, delimiters, true);
      var b := WordStart(t[..m], delimiters, false);
      forall k | m <= k < |t| && !Continuation(t[k]) ensures t[k] in delimiters {
        WordStartPasses(t, delimiters, true, k);
      }
      forall k | b <= k < m && !Continuation(t[k]) ensures t[k] !in delimiters {
        WordStartPasses(t[..m], delimiters, false, k);
      }
      assert t[..m][..b] == t[..b];
    }

    static function WordBehind(t: string, n: nat, delimiters: string): nat
      requires n <= |t|
    {
      WordEnd(t, WordEnd(t, n, delimiters, true), delimiters, false)
    }

    /** ... and forwards delimiters and the word behind them. */
    static lemma WordBehindMeans(t: string, n: nat, delimiters: string) returns (m: nat)
      requires n <= |t|
      ensures var e := WordBehind(t, n, delimiters);
              && n <= m <= e <= |t|
              && (forall k :: n <= k < m && (k == n || !Continuation(t[k])) ==> t[k] in delimiters)
              && (forall k :: m <= k < e && (k == m || !Continuation(t[k])) ==> t[k] !in delimiters)
              && (m < |t| ==> t[m] !in delimiters) && (e < |t| ==> t[e] in delimiters)
    {
      m := WordEnd(t, n, delimiters, true);
    }

    /** t with str in the place of the `back` characters before the cursor c. */
    static function Spliced(t: string, c: nat, back: nat, str: string): (u: string)
      requires back <= c <= |t|
      ensures |u| == |t| - back + |str|
    {
      t[..c - back] + str + t[c..]
    }

    /** insert(str, |str|), or insert(NULL, -back) when str is empty. */
    method Insert(str: string, back: nat, ghost l0: seq<Item>, ghost v0: View)
      returns (ghost l: seq<Item>, ghost v: View)
      requires 0 <= Page() && Valid(l0, v0) && back <= cursor && (str != [] ==> back == 0)
      modifies this, items
      ensures Valid(l, v)
      ensures if |old(text)| + |str| - back > BUFSIZ - 1
              then text == old(text) && cursor == old(cursor) && l == l0 && v == v0
              else
                && text == Spliced(old(text), old(cursor), back, str)
                && cursor == old(cursor) - back + |str|
                && v == View(0, 0)
    {
      if |text| + |str| - back > BUFSIZ - 1 {
        return l0, v0;
      }
      text := Spliced(text, cursor, back, str);
      cursor := cursor - back + |str|;
      l := Match();
      v := View(0, 0);
    }

    // ---- key presses ----------------------------------------------------------------------------

    method SetCursor(c: nat)
      modifies this`cursor
      ensures cursor == c
    {
      cursor := c;
    }

    method KeyEnd(ghost l: seq<Item>, ghost v: View) returns (ghost v': View)
      requires 0 <= Page() && Valid(l, v)
      modifies this`cursor, this`curr, this`sel, this`next, this`prev
      ensures text == old(text) && cursor == |text| && Valid(l, v')
      ensures v' == if old(cursor) < |text| then v else Moved(l, v, GoEnd)
      ensures sel == if old(cursor) < |text| then old(sel) else matchend
    {
      v' := v;
      if cursor < |text| {
        SetCursor(|text|);
        return;
      }
      v' := LastPage(l, v);
    }

    method LastPage(ghost l: seq<Item>, ghost v: View) returns (ghost v': View)
      requires 0 <= Page() && Valid(l, v)
      modifies this`curr, this`sel, this`next, this`prev
      ensures Valid(l, v') && v' == Moved(l, v, GoEnd) && sel == matchend
    {
      v' := Moved(l, v, GoEnd);
      MovedVisible(l, v, GoEnd);
      EndPage(l, v);
    }

    method KeyHome(ghost l: seq<Item>, ghost v: View) returns (ghost v': View)
      requires 0 <= Page() && Valid(l, v)
      modifies this`cursor, this`curr, this`sel, this`next, this`prev
      ensures text == old(text) && Valid(l, v') && v' == Moved(l, v, GoHome)
      ensures cursor == if old(sel) == matches then 0 else old(cursor)
      ensures sel == matches && (old(sel) != matches ==> curr == matches)
    {
      v' := Moved(l, v, GoHome);
      if sel == matches {
        SetCursor(0);
        return;
      }
      HomePage(l, v);
      MovedValid(l, v, GoHome);
    }

    method KeyUp(ghost l: seq<Item>, ghost v: View) returns (ghost v': View)
      requires 0 <= Page() && Valid(l, v)
      modifies this`curr, this`sel, this`next, this`prev
      ensures text == old(text) && Valid(l, v') && v' == Moved(l, v, GoUp)
      ensures sel == old(Ahead(sel))
    {
      Up(l, v);
      v' := Moved(l, v, GoUp);
      MovedValid(l, v, GoUp);
    }

    method KeyDown(ghost l: seq<Item>, ghost v: View) returns (ghost v': View)
      requires 0 <= Page() && Valid(l, v)
      modifies this`curr, this`sel, this`next, this`prev
      ensures text == old(text) && Valid(l, v') && v' == Moved(l, v, GoDown)
      ensures sel == old(Behind(sel))
    {
      Down(l, v);
      v' := Moved(l, v, GoDown);
      MovedValid(l, v, GoDown);
    }

    method KeyLeft(ghost l: seq<Item>, ghost v: View) returns (ghost v': View)
      requires 0 <= Page() && Valid(l, v)
      modifies this`cursor, this`curr, this`sel, this`next, this`prev
      ensures text == old(text) && Valid(l, v')
      ensures v' == if lines > 0 || (old(cursor) > 0 && (l == [] || v.sel == 0)) then v else Moved(l, v, GoUp)
      ensures cursor == if old(cursor) > 0 && (lines > 0 || l == [] || v.sel == 0) then LastRune(text[..old(cursor)])
                        else old(cursor)
      ensures sel == if lines > 0 then old(sel) else old(Ahead(sel))
    {
      v' := v;
      if sel != null { assert LinkedAt(l, v.sel); }
      if cursor > 0 && (sel == null || sel.left == null || lines > 0) {
        cursor := NextRune(-1);
        return;
      }
      if lines > 0 {
        return;
      }
      v' := KeyUp(l, v);
    }

    method KeyRight(ghost l: seq<Item>, ghost v: View) returns (ghost v': View)
      requires 0 <= Page() && Valid(l, v)
      modifies this`cursor, this`curr, this`sel, this`next, this`prev
      ensures text == old(text) && Valid(l, v')
      ensures v' == if lines > 0 || old(cursor) < |text| then v else Moved(l, v, GoDown)
      ensures cursor == if old(cursor) < |text| then BoundaryFrom(text, old(cursor) + 1) else old(cursor)
      ensures sel == if lines > 0 || old(cursor) < |text| then old(sel) else old(Behind(sel))
    {
      v' := v;
      if cursor < |text| {
        cursor := NextRune(1);
        return;
      }
      if lines > 0 {
        return;
      }
      v' := KeyDown(l, v);
    }

    method KeyNext(ghost l: seq<Item>, ghost v: View) returns (ghost v': View)
      requires 0 <= Page() && Valid(l, v)
      modifies this`curr, this`sel, this`next, this`prev
      ensures text == old(text) && Valid(l, v') && v' == Moved(l, v, GoNext)
      ensures if old(next) == null then curr == old(curr) && sel == old(sel) else curr == sel == old(next)
    {
      NextPage(l, v);
      v' := Moved(l, v, GoNext);
      MovedValid(l, v, GoNext);
    }

    method KeyPrior(ghost l: seq<Item>, ghost v: View) returns (ghost v': View)
      requires 0 <= Page() && Valid(l, v)
      modifies this`curr, this`sel, this`next, this`prev
      ensures text == old(text) && Valid(l, v') && v' == Moved(l, v, GoPrior)
      ensures if old(prev) == null then curr == old(curr) && sel == old(sel) else curr == sel == old(prev)
    {
      PriorPage(l, v);
      v' := Moved(l, v, GoPrior);
      MovedValid(l, v, GoPrior);
    }

    /** What fits into the buffer of the input. */
    static function Truncated(t: string): string {
      if |t| < BUFSIZ then t else t[..BUFSIZ - 1]
    }

    static lemma TruncatedMeans(t: string)
      ensures Truncated(t) <= t && |Truncated(t)| == if |t| < BUFSIZ then |t| else BUFSIZ - 1
    {
    }

    method SetText(t: string)
      modifies this`text, this`cursor
      ensures text == t && cursor == |t|
    {
      text := t;
      cursor := |t|;
    }

    /** Tab takes the selected item for the input. */
    method KeyTab(ghost l: seq<Item>, ghost v: View) returns (ghost l': seq<Item>, ghost v': View)
      requires 0 <= Page() && Valid(l, v)
      modifies this, items
      ensures Valid(l', v')
      ensures if old(sel) == null then text == old(text) && cursor == old(cursor) && l' == l && v' == v
              else text == Truncated(old(sel).text) && cursor == |text| && v' == View(0, 0)
    {
      if sel == null {
        return l, v;
      }
      SetText(Truncated(sel.text));
      l' := Match();
      v' := View(0, 0);
    }

    /** t with cursor c is t0 after everything between c and the old cursor c0 has been deleted. */
    static predicate Deleted(t0: string, c0: nat, t: string, c: nat) {
      c <= c0 <= |t0| && t == t0[..c] + t0[c0..]
    }

    static lemma DeletedTwice(t0: string, c0: nat, t1: string, c1: nat, t2: string, c2: nat)
      requires Deleted(t0, c0, t1, c1) && Deleted(t1, c1, t2, c2)
      ensures Deleted(t0, c0, t2, c2)
    {
      assert t1[..c2] == t0[..c2] && t1[c1..] == t0[c0..];
    }

    static lemma DeletedPrefix(t0: string, c0: nat, t: string, c: nat)
      requires Deleted(t0, c0, t, c)
      ensures t[..c] == t0[..c0][..c]
    {
    }

    /** The character at the cursor goes: the cursor moves behind it, and then it is deleted backwards. */
    method KeyDelete(ghost l: seq<Item>, ghost v: View) returns (ghost l': seq<Item>, ghost v': View)
      requires 0 <= Page() && Valid(l, v)
      modifies this, items
      ensures Valid(l', v') && DeletedAt(old(text), old(cursor), text, cursor)
    {
      if cursor == |text| {
        return l, v;
      }
      cursor := NextRune(1);
      l', v' := KeyBackSpace(l, v);
    }

    /** Delete at the cursor c0: nothing at the end of the text. */
    static predicate DeletedAt(t0: string, c0: nat, t: string, c: nat) {
      if c0 < |t0| then DeletedBefore(t0, BoundaryFrom(t0, c0 + 1), t, c) else t == t0 && c == c0
    }

    /** BackSpace at the cursor c0: the one character before it goes. */
    static predicate DeletedBefore(t0: string, c0: nat, t: string, c: nat) {
      Deleted(t0, c0, t, c) && c == if c0 == 0 then 0 else LastRune(t0[..c0])
    }

    /** insert(NULL, n - cursor). */
    method DeleteBackTo(n: nat, ghost l: seq<Item>, ghost v: View) returns (ghost l': seq<Item>, ghost v': View)
      requires 0 <= Page() && Valid(l, v) && n <= cursor
      modifies this, items
      ensures cursor == n && Deleted(old(text), old(cursor), text, n) && Valid(l', v')
    {
      assert Spliced(text, cursor, cursor - n, "") == text[..n] + text[cursor..];
      l', v' := Insert("", cursor - n, l, v);
    }

    method KeyBackSpace(ghost l: seq<Item>, ghost v: View) returns (ghost l': seq<Item>, ghost v': View)
      requires 0 <= Page() && Valid(l, v)
      modifies this, items
      ensures Valid(l', v') && DeletedBefore(old(text), old(cursor), text, cursor)
    {
      if cursor == 0 {
        assert text == text[..0] + text[0..];
        return l, v;
      }
      var n := NextRune(-1);
      l', v' := DeleteBackTo(n, l, v);
    }

    /** Ctrl-k. */
    method DeleteRight() returns (ghost l': seq<Item>, ghost v': View)
      requires 0 <= Page() && NoDup(items) && cursor <= |text| < BUFSIZ
      modifies this, items
      ensures cursor == old(cursor) && text == old(text[..cursor]) && Valid(l', v')
    {
      text := text[..cursor];
      l' := Match();
      v' := View(0, 0);
    }

    /** Ctrl-w: back over delimiters, and then over what is none. */
    method DeleteWord(delimiters: string, ghost l: seq<Item>, ghost v: View)
      returns (ghost l': seq<Item>, ghost v': View)
      requires 0 <= Page() && Valid(l, v)
      modifies this, items
      ensures Valid(l', v') && Deleted(old(text), old(cursor), text, cursor)
      ensures cursor == WordBefore(old(text)[..old(cursor)], delimiters)
    {
      ghost var t0, c0 := text, cursor;
      l', v' := DeleteWhile(delimiters, true, l, v);
      ghost var t1, c1 := text, cursor;
      l', v' := DeleteWhile(delimiters, false, l', v');
      DeletedTwice(t0, c0, t1, c1, text, cursor);
      DeletedPrefix(t0, c0, t1, c1);
    }

    method DeleteWhile(delimiters: string, among: bool, ghost l: seq<Item>, ghost v: View)
      returns (ghost l': seq<Item>, ghost v': View)
      requires 0 <= Page() && Valid(l, v)
      modifies this, items
      ensures Valid(l', v') && Deleted(old(text), old(cursor), text, cursor)
      ensures cursor == WordStart(old(text)[..old(cursor)], delimiters, among)
    {
      l', v' := l, v;
      ghost var t0, c0 := text, cursor;
      assert text == text[..cursor] + text[cursor..];
      while cursor > 0
        invariant Deleted(t0, c0, text, cursor) && Valid(l', v')
        invariant WordStart(text[..cursor], delimiters, among) == WordStart(t0[..c0], delimiters, among)
        decreases cursor
      {
        var n := NextRune(-1);
        if (text[n] in delimiters) != among {
          return;
        }
        ghost var t1, c1 := text, cursor;
        l', v' := KeyBackSpace(l', v');
        DeletedTwice(t0, c0, t1, c1, text, cursor);
        DeletedPrefix(t1, c1, text, cursor);
      }
    }

    /** Return with Control keeps the menu open and marks the selected item. */
    method KeyReturn(ghost l: seq<Item>, ghost v: View)
      requires Valid(l, v)
      modifies items`out
      ensures Valid(l, v)
      ensures sel != null ==> sel.out
    {
      if sel != null {
        MatchMembers(items, text, ci, sel);
        MarkOut(sel, l);
      }
    }

    /** movewordedge(-1) */
    method MoveWordBack(delimiters: string, among: bool)
      requires cursor <= |text|
      modifies this`cursor
      ensures cursor <= old(cursor) && cursor == WordStart(text[..old(cursor)], delimiters, among)
    {
      while cursor > 0
        invariant cursor <= old(cursor)
        invariant WordStart(text[..cursor], delimiters, among) == WordStart(text[..old(cursor)], delimiters, among)
      {
        var n := NextRune(-1);
        if (text[n] in delimiters) != among {
          return;
        }
        assert text[..cursor][..n] == text[..n];
        cursor := n;
      }
    }

    /** movewordedge(+1) */
    method MoveWordForth(delimiters: string, among: bool)
      requires cursor <= |text|
      modifies this`cursor
      ensures cursor <= |text| && cursor == WordEnd(text, old(cursor), delimiters, among)
    {
      while cursor < |text| && (text[cursor] in delimiters) == among
        invariant cursor <= |text|
        invariant WordEnd(text, cursor, delimiters, among) == WordEnd(text, old(cursor), delimiters, among)
        decreases |text| - cursor
      {
        cursor := NextRune(1);
      }
    }

    method MoveWordEdge(delimiters: string, forwards: bool)
      requires cursor <= |text|
      modifies this`cursor
      ensures cursor <= |text|
      ensures cursor == if forwards then WordBehind(text, old(cursor), delimiters)
                        else WordBefore(text[..old(cursor)], delimiters)
    {
      if forwards {
        MoveWordForth(delimiters, true);
        MoveWordForth(delimiters, false);
      } else {
        ghost var t := text[..cursor];
        MoveWordBack(delimiters, true);
        assert text[..cursor] == t[..cursor];
        MoveWordBack(delimiters, false);
      }
    }

    static predicate Navigates(key: Key) {
      key.EndKey? || key.Home? || key.Left? || key.Up? || key.Next? || key.Prior? || key.Right? || key.Down?
    }

    /** One key press, after the control and meta bindings have been mapped to these. */
    method KeyPress(key: Key, delimiters: string, ghost l: seq<Item>, ghost v: View)
      returns (ghost l': seq<Item>, ghost v': View)
      requires 0 <= Page() && Valid(l, v)
      modifies this, items
      ensures Valid(l', v')
      ensures key.EndKey? || key.Home? || key.Left? || key.Up? || key.Next? || key.Prior? || key.Right? || key.Down? ==>
                text == old(text) && cursor == old(NavigatedCursor(key, l, v)) && sel == old(Selected(key))
      ensures key.Down? ==> l' == l && v' == Moved(l, v, GoDown) && sel == old(Behind(sel))
      ensures key.Up? ==> l' == l && v' == Moved(l, v, GoUp) && sel == old(Ahead(sel))
      ensures key.Next? ==> l' == l && v' == Moved(l, v, GoNext)
      ensures key.Prior? ==> l' == l && v' == Moved(l, v, GoPrior)
      ensures key.Home? ==> l' == l && v' == Moved(l, v, GoHome) && sel == matches
      ensures key.EndKey? ==> l' == l && cursor == |text| && (old(cursor) == |text| ==> sel == matchend)
      ensures key.Typed? || key.Delete? || key.BackSpace? || key.KillRight? || key.KillLeft? || key.KillWord? ||
              key.WordEdge? || key.Tab? || key.Return? ==>
                Edited(key, delimiters, old(text), old(cursor), old(Picked()), text, cursor)
    {
      if Navigates(key) {
        l', v' := NavigationKey(key, l, v);
      } else {
        l', v' := EditKey(key, delimiters, l, v);
      }
    }

    /** What a navigation key does to the view: nothing when it moves the cursor instead. */
    ghost function Navigated(key: Key, l: seq<Item>, v: View): View
      requires InList(Widths(l), v)
      reads this`text, this`cursor
    {
      match key
      case EndKey => if cursor < |text| then v else Moved(l, v, GoEnd)
      case Home => Moved(l, v, GoHome)
      case Left => if lines > 0 || (cursor > 0 && (l == [] || v.sel == 0)) then v else Moved(l, v, GoUp)
      case Up => Moved(l, v, GoUp)
      case Next => Moved(l, v, GoNext)
      case Prior => Moved(l, v, GoPrior)
      case Right => if lines > 0 || cursor < |text| then v else Moved(l, v, GoDown)
      case Down => Moved(l, v, GoDown)
      case _ => v
    }

    /** ... and to the cursor. */
    ghost function NavigatedCursor(key: Key, l: seq<Item>, v: View): nat
      requires cursor <= |text|
      reads this`text, this`cursor, this`sel, this`matches
    {
      match key
      case EndKey => |text|
      case Home => if sel == matches then 0 else cursor
      case Left =>
        if cursor > 0 && (lines > 0 || l == [] || v.sel == 0) then LastRune(text[..cursor]) else cursor
      case Right => if cursor < |text| then BoundaryFrom(text, cursor + 1) else cursor
      case _ => cursor
    }

    /** Where it leads in the list, told from the pointers. */
    function Selected(key: Key): Item?
      reads this`text, this`cursor, this`sel, this`matches, this`matchend, this`next, this`prev, sel
    {
      match key
      case EndKey => if cursor < |text| then sel else matchend
      case Home => matches
      case Left => if lines > 0 then sel else Ahead(sel)
      case Up => Ahead(sel)
      case Next => if next == null then sel else next
      case Prior => if prev == null then sel else prev
      case Right => if lines > 0 || cursor < |text| then sel else Behind(sel)
      case Down => Behind(sel)
      case _ => sel
    }

    method PageKey(key: Key, ghost l: seq<Item>, ghost v: View) returns (ghost v': View)
      requires 0 <= Page() && Valid(l, v) && (key.EndKey? || key.Home? || key.Next? || key.Prior?)
      modifies this`cursor, this`curr, this`sel, this`next, this`prev
      ensures text == old(text) && v' == old(Navigated(key, l, v)) && Valid(l, v')
      ensures cursor == old(NavigatedCursor(key, l, v)) && sel == old(Selected(key))
    {
      if key.EndKey? {
        v' := KeyEnd(l, v);
      } else if key.Home? {
        v' := KeyHome(l, v);
      } else if key.Next? {
        v' := KeyNext(l, v);
      } else {
        v' := KeyPrior(l, v);
      }
    }

    method ArrowKey(key: Key, ghost l: seq<Item>, ghost v: View) returns (ghost v': View)
      requires 0 <= Page() && Valid(l, v) && (key.Left? || key.Up? || key.Right? || key.Down?)
      modifies this`cursor, this`curr, this`sel, this`next, this`prev
      ensures text == old(text) && v' == old(Navigated(key, l, v)) && Valid(l, v')
      ensures cursor == old(NavigatedCursor(key, l, v)) && sel == old(Selected(key))
    {
      if key.Left? {
        v' := KeyLeft(l, v);
      } else if key.Up? {
        v' := KeyUp(l, v);
      } else if key.Right? {
        v' := KeyRight(l, v);
      } else {
        v' := KeyDown(l, v);
      }
    }

    method NavigationKey(key: Key, ghost l: seq<Item>, ghost v: View) returns (ghost l': seq<Item>, ghost v': View)
      requires 0 <= Page() && Valid(l, v) && Navigates(key)
      modifies this`cursor, this`curr, this`sel, this`next, this`prev
      ensures text == old(text) && l' == l && v' == old(Navigated(key, l, v))
      ensures cursor == old(NavigatedCursor(key, l, v)) && sel == old(Selected(key))
      ensures Valid(l', v')
    {
      l' := l;
      if key.EndKey? || key.Home? || key.Next? || key.Prior? {
        v' := PageKey(key, l, v);
      } else {
        v' := ArrowKey(key, l, v);
      }
    }

    /** What an editing key does to the input line t0 with the cursor c0; `picked` is the text of the selected item. */
    static predicate Edited(key: Key, delimiters: string, t0: string, c0: nat, picked: Option<string>, t: string,
                            c: nat)
    {
      c0 <= |t0| &&
      match key
      case Typed(str) =>
        if |t0| + |str| > BUFSIZ - 1 then t == t0 && c == c0 else t == Spliced(t0, c0, 0, str) && c == c0 + |str|
      case Delete => DeletedAt(t0, c0, t, c)
      case BackSpace => DeletedBefore(t0, c0, t, c)
      case KillRight => t == t0[..c0] && c == c0
      case KillLeft => Deleted(t0, c0, t, c) && c == 0
      case KillWord => Deleted(t0, c0, t, c) && c == WordBefore(t0[..c0], delimiters)
      case WordEdge(forwards) =>
        t == t0 && c == if forwards then WordBehind(t0, c0, delimiters) else WordBefore(t0[..c0], delimiters)
      case Tab => if picked.None? then t == t0 && c == c0 else t == Truncated(picked.value) && c == |t|
      case _ => t == t0 && c == c0
    }

    /** t is t0 without what stood between c and c0, exactly one character. */
    static predicate OneCharLess(t0: string, c0: nat, t: string, c: nat) {
      && c < c0 <= |t0| && t == t0[..c] + t0[c0..]
      && (forall k :: c < k < c0 ==> Continuation(t0[k])) && (c > 0 ==> !Continuation(t0[c]))
    }

    static lemma BackSpaceMeans(t0: string, c0: nat, t: string, c: nat)
      requires DeletedBefore(t0, c0, t, c)
      ensures if c0 > 0 then OneCharLess(t0, c0, t, c) else t == t0 && c == 0
    {
      if c0 > 0 {
        forall k | c < k < c0 ensures Continuation(t0[k]) { assert t0[..c0][k] == t0[k]; }
        assert t0[..c0][c] == t0[c];
      } else {
        assert t0[..0] + t0[0..] == t0;
      }
    }

    /** What the deleting keys do, told from the strings. */
    static lemma EditedDeletes(key: Key, delimiters: string, t0: string, c0: nat, t: string, c: nat)
      requires Edited(key, delimiters, t0, c0, None, t, c) && (key.BackSpace? || key.Delete?)
      ensures key.BackSpace? ==> if c0 > 0 then OneCharLess(t0, c0, t, c) else t == t0 && c == 0
      ensures key.Delete? ==>
                if c0 < |t0| then OneCharLess(t0, BoundaryFrom(t0, c0 + 1), t, c) else t == t0 && c == c0
    {
      if key.BackSpace? {
        BackSpaceMeans(t0, c0, t, c);
      } else if c0 < |t0| {
        BackSpaceMeans(t0, BoundaryFrom(t0, c0 + 1), t, c);
      }
    }

    static lemma EditedKills(key: Key, delimiters: string, t0: string, c0: nat, t: string, c: nat)
      requires Edited(key, delimiters, t0, c0, None, t, c)
      ensures key.KillRight? ==> t == t0[..c0] && c == c0
      ensures key.KillLeft? ==> t == t0[c0..] && c == 0
      ensures key.KillWord? ==> t == t0[..c] + t0[c0..] && c == WordBefore(t0[..c0], delimiters)
    {
      assert t0[..0] + t0[c0..] == t0[c0..];
    }

    /** ... and typed text and Tab. */
    static lemma EditedInserts(key: Key, delimiters: string, t0: string, c0: nat, picked: Option<string>, t: string,
                               c: nat)
      requires Edited(key, delimiters, t0, c0, picked, t, c) && (key.Typed? || key.Tab?)
      ensures key.Typed? && |t0| + |key.str| < BUFSIZ ==> t == t0[..c0] + key.str + t0[c0..] && c == c0 + |key.str|
      ensures key.Tab? && picked.Some? ==>
                t <= picked.value && c == |t| && (|picked.value| < BUFSIZ ==> t == picked.value)
    {
    }

    function Picked(): Option<string>
      reads this`sel
    {
      if sel == null then None else Some(sel.text)
    }

    method TypeKey(key: Key, delimiters: string, ghost l: seq<Item>, ghost v: View)
      returns (ghost l': seq<Item>, ghost v': View)
      requires 0 <= Page() && Valid(l, v) && (key.Typed? || key.Tab? || key.Return?)
      modifies this, items
      ensures Valid(l', v') && Edited(key, delimiters, old(text), old(cursor), old(Picked()), text, cursor)
    {
      l', v' := l, v;
      match key {
        case Typed(str) => l', v' := Insert(str, 0, l, v);
        case Tab => l', v' := KeyTab(l, v);
        case Return => KeyReturn(l, v);
        case _ =>
      }
    }

    method WordKey(key: Key, delimiters: string, ghost l: seq<Item>, ghost v: View)
      requires Valid(l, v) && key.WordEdge?
      modifies this`cursor
      ensures Valid(l, v) && Edited(key, delimiters, old(text), old(cursor), None, text, cursor)
    {
      MoveWordEdge(delimiters, key.forwards);
    }

    method DeleteKey(key: Key, delimiters: string, ghost l: seq<Item>, ghost v: View)
      returns (ghost l': seq<Item>, ghost v': View)
      requires 0 <= Page() && Valid(l, v) && !key.Typed? && !key.WordEdge? && !key.Tab? && !key.Return?
      modifies this, items
      ensures Valid(l', v') && Edited(key, delimiters, old(text), old(cursor), None, text, cursor)
    {
      l', v' := l, v;
      match key {
        case Delete => l', v' := KeyDelete(l, v);
        case BackSpace => l', v' := KeyBackSpace(l, v);
        case KillRight => l', v' := DeleteRight();
        case KillLeft => l', v' := DeleteBackTo(0, l, v);
        case KillWord => l', v' := DeleteWord(delimiters, l, v);
        case _ =>
      }
    }

    method EditKey(key: Key, delimiters: string, ghost l: seq<Item>, ghost v: View)
      returns (ghost l': seq<Item>, ghost v': View)
      requires 0 <= Page() && Valid(l, v)
      modifies this, items
      ensures Valid(l', v') && Edited(key, delimiters, old(text), old(cursor), old(Picked()), text, cursor)
    {
      if key.WordEdge? {
        l', v' := l, v;
        WordKey(key, delimiters, l, v);
      } else if key.Typed? || key.Tab? || key.Return? {
        l', v' := TypeKey(key, delimiters, l, v);
      } else {
        l', v' := DeleteKey(key, delimiters, l, v);
      }
    }

    /** From the first page on, through any key presses, the selection is on the visible page. */
    method Run(keys: seq<Key>, delimiters: string) returns (ghost l: seq<Item>, ghost v: View)
      requires NoDup(items) && 0 <= Page() && cursor <= |text| < BUFSIZ
      modifies this, items
      ensures Valid(l, v)
    {
      l := Match();
      v := View(0, 0);
      for i := 0 to |keys|
        invariant Valid(l, v)
      {
        l, v := KeyPress(keys[i], delimiters, l, v);
      }
    }
  }

  datatype Key = EndKey | Home | Left | Up | Next | Prior | Right | Down
               | Typed(str: string) | Delete | BackSpace | KillRight | KillLeft | KillWord | WordEdge(forwards: bool)
               | Tab | Return
}
