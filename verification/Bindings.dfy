/**
 Key and button bindings: which binding an X event activates, how release bindings remember that their
 key was pressed, and the order that makes the most specific binding win.
 */
module Bindings {
  import opened Lists

  datatype Upon = KeyPress | KeyRelease | KeyReleaseIgnoreMods
  datatype InputType = Keyboard | Mouse
  datatype Keycode = Keycode(keycode: nat, modifiers: bv32)

  /** An i3_event_state_mask_t: a number of 32 bits. */
  type Mask = x: int | 0 <= x < 0x1_0000_0000

  function Bits(m: Mask): bv32 {
    m as bv32
  }

  class Binding {
    const inputType: InputType
    const keycode: nat
    const mask: Mask            // event_state_mask: modifiers below, XKB groups above
    const symbol: Option<string>
    const keycodes: seq<Keycode>
    var release: Upon
  }

  // ---- the event state ---------------------------------------------------------------------------

  /** The group bit of an event, from bits 13 and 14 of its state. */
  function GroupBit(eventState: bv32): bv32 {
    if eventState & 0x6000 == 0 then 0x1_0000
    else if eventState & 0x6000 == 0x2000 then 0x2_0000
    else if eventState & 0x6000 == 0x4000 then 0x4_0000
    else 0x8_0000
  }

  /** CapsLock removed, the group bit g set, the two bits of the group removed. */
  function WithGroup(eventState: bv32, g: bv32): bv32 {
    ((eventState & 0xFFFF_FFFD) | g) & 0xFFFF_9FFF
  }

  /** The transformation in get_binding_from_xcb_event. */
  function Filtered(eventState: bv32): bv32 {
    WithGroup(eventState, GroupBit(eventState))
  }

  /** The switch over the keyboard group. */
  method GroupMask(eventState: bv32) returns (bit: bv32)
    ensures bit == GroupBit(eventState)
  {
    var group := (eventState & 0x6000) >> 13;
    if group == 0 {
      bit := 0x1_0000;
    } else if group == 1 {
      bit := 0x2_0000;
    } else if group == 2 {
      bit := 0x4_0000;
    } else {
      bit := 0x8_0000;
    }
  }

  /** Group n of the event, from bits 13 and 14, is bit n of the upper half. */
  lemma GroupShifted(eventState: bv32)
    ensures GroupBit(eventState) == 0x1_0000 << ((eventState >> 13) & 3)
  {
  }

  method FilterState(eventState: bv32) returns (state: bv32)
    ensures state == Filtered(eventState)
  {
    state := eventState & 0xFFFF_FFFD;
    var bit := GroupMask(eventState);
    state := state | bit;
    state := state & 0xFFFF_9FFF;
  }

  predicate GroupsMatch(mask: bv32, state: bv32) {
    (state & 0xFFFF_0000) & (mask & 0xFFFF_0000) == mask & 0xFFFF_0000
  }

  /** More than one of the four group bits, as counted by configure_binding. */
  predicate SeveralGroups(mask: bv32) {
    var g := (mask >> 16) & 0xF;
    g != 0 && g & (g - 1) != 0
  }

  predicate IsGroup(g: bv32) {
    g == 0x1_0000 || g == 0x2_0000 || g == 0x4_0000 || g == 0x8_0000
  }

  lemma WithGroupHalves(x: bv32, g: bv32)
    requires IsGroup(g) && x & 0xFFFF_0000 == 0
    ensures WithGroup(x, g) & 0xFFFF == x & 0x9FFD
    ensures WithGroup(x, g) & 0xFFFF_0000 == g
  {
  }

  /** An event has a state of 16 bits: the modifiers stay except CapsLock, and the upper half is one group bit. */
  lemma FilteredHalves(eventState: bv32)
    requires eventState & 0xFFFF_0000 == 0
    ensures IsGroup(GroupBit(eventState))
    ensures Filtered(eventState) & 0xFFFF == eventState & 0x9FFD
    ensures Filtered(eventState) & 0xFFFF_0000 == GroupBit(eventState)
  {
    WithGroupHalves(eventState, GroupBit(eventState));
  }

  /** In a state with one group bit, a mask fits if it names no group or that group alone; never if it names several. */
  lemma OneGroup(mask: bv32, state: bv32)
    requires IsGroup(state & 0xFFFF_0000)
    ensures GroupsMatch(mask, state) <==> (mask & 0xFFFF_0000 == 0 || mask & 0xFFFF_0000 == state & 0xFFFF_0000)
    ensures SeveralGroups(mask) ==> !GroupsMatch(mask, state)
  {
  }

  // ---- what matches ------------------------------------------------------------------------------

  function Mods(x: bv32): bv32 {
    x & 0xFFFF
  }

  /** The modifiers and the group make up the whole state. */
  lemma HalvesMake(x: bv32)
    ensures x == Mods(x) | (x & 0xFFFF_0000)
  {
  }

  predicate BySymbol(b: Binding) {
    b.inputType == Keyboard && b.symbol.Some?
  }

  /** Keycode k of the binding fits the code (of 8 bits, if a symbol was bound) and, unless ignored, the modifiers. */
  predicate FitsAt(b: Binding, k: nat, state: bv32, code: nat, ignoreMods: bool) {
    && k < |b.keycodes|
    && (BySymbol(b) ==> b.keycodes[k].keycode == code % 256)
    && (ignoreMods || Mods(b.keycodes[k].modifiers) == Mods(state))
  }

  predicate KeyMatches(b: Binding, state: bv32, code: nat, ignoreMods: bool) {
    (BySymbol(b) || b.keycode == code) && exists k :: 0 <= k < |b.keycodes| && FitsAt(b, k, state, code, ignoreMods)
  }

  /** A symbol is looked up among the translated keycodes, a keycode compared with that of the binding; one of
      the entries must have the modifiers of the event. */
  lemma KeyMeans(b: Binding, state: bv32, code: nat, ignoreMods: bool)
    ensures b.inputType == Keyboard && b.symbol.Some? ==>
              (KeyMatches(b, state, code, ignoreMods) <==>
               exists c :: c in b.keycodes && c.keycode == code % 256 &&
                           (ignoreMods || Mods(c.modifiers) == Mods(state)))
    ensures b.inputType == Mouse || b.symbol.None? ==>
              (KeyMatches(b, state, code, ignoreMods) <==>
               b.keycode == code &&
               exists c :: c in b.keycodes && (ignoreMods || Mods(c.modifiers) == Mods(state)))
  {
    if KeyMatches(b, state, code, ignoreMods) {
      var k :| 0 <= k < |b.keycodes| && FitsAt(b, k, state, code, ignoreMods);
      assert b.keycodes[k] in b.keycodes;
    }
    forall k | 0 <= k < |b.keycodes| && (BySymbol(b) ==> b.keycodes[k].keycode == code % 256) &&
               (ignoreMods || Mods(b.keycodes[k].modifiers) == Mods(state))
      ensures FitsAt(b, k, state, code, ignoreMods)
    {
    }
  }

  /** The binding is for this input with these modifiers in this group. */
  predicate Matches(b: Binding, state: bv32, code: nat, t: InputType) {
    b.inputType == t && GroupsMatch(Bits(b.mask), state) && KeyMatches(b, state, code, false)
  }

  /** The same without regard to the modifiers. */
  predicate MatchesKey(b: Binding, state: bv32, code: nat, t: InputType) {
    b.inputType == t && GroupsMatch(Bits(b.mask), state) && KeyMatches(b, state, code, true)
  }

  lemma MatchesMatchesKey(b: Binding, state: bv32, code: nat, t: InputType)
    requires Matches(b, state, code, t)
    ensures MatchesKey(b, state, code, t)
  {
    var k :| 0 <= k < |b.keycodes| && FitsAt(b, k, state, code, false);
    assert FitsAt(b, k, state, code, true);
  }

  // ---- a press -----------------------------------------------------------------------------------

  datatype Hit = Miss | PressHit | ReleaseHit

  /** What a press event finds in each binding; `onPress` are the bindings that are activated by presses. */
  ghost function HitOf(b: Binding, onPress: set<Binding>, state: bv32, code: nat, t: InputType): Hit {
    if !Matches(b, state, code, t) then Miss else if b in onPress then PressHit else ReleaseHit
  }

  ghost function Hits(list: seq<Binding>, onPress: set<Binding>, state: bv32, code: nat, t: InputType): (h: seq<Hit>)
    ensures |h| == |list|
    ensures forall k {:trigger HitOf(list[k], onPress, state, code, t)} :: 0 <= k < |list| ==>
            h[k] == HitOf(list[k], onPress, state, code, t)
  {
    seq(|list|, k requires 0 <= k < |list| => HitOf(list[k], onPress, state, code, t))
  }

  /** The first hit of a kind from position k on. */
  function FirstHit(h: seq<Hit>, kind: Hit, k: nat): (i: nat)
    requires k <= |h|
    ensures k <= i <= |h| && (i < |h| ==> h[i] == kind) && forall j :: k <= j < i ==> h[j] != kind
    decreases |h| - k
  {
    if k == |h| || h[k] == kind then k else FirstHit(h, kind, k + 1)
  }

  /** The walk over the bindings ends behind the first release binding that follows the binding found. */
  function LastLooked(h: seq<Hit>): nat {
    FirstHit(h, ReleaseHit, FirstHit(h, PressHit, 0))
  }

  /** The release bindings that a press marks. */
  predicate Marked(h: seq<Hit>, k: nat)
    requires k < |h|
  {
    h[k] == ReleaseHit && k <= LastLooked(h)
  }

  function Cleared(u: Upon): Upon {
    if u == KeyReleaseIgnoreMods then KeyRelease else u
  }

  method ResetMarks(list: seq<Binding>, t: InputType)
    requires NoDup(list)
    modifies list`release
    ensures forall b :: b in list ==> b.release == if b.inputType == t then Cleared(old(b.release)) else old(b.release)
  {
    for i := 0 to |list|
      invariant forall k :: 0 <= k < i ==>
                list[k].release == if list[k].inputType == t then Cleared(old(list[k].release))
                  else old(list[k].release)
      invariant forall k :: i <= k < |list| ==> list[k].release == old(list[k].release)
    {
      if list[i].inputType == t && list[i].release == KeyReleaseIgnoreMods {
        list[i].release := KeyRelease;
      }
    }
  }

  /** The inner loops of get_binding. */
  method FindKeycode(b: Binding, state: bv32, isRelease: bool, code: nat) returns (found: bool)
    ensures found <==> KeyMatches(b, state, code, b.release == KeyReleaseIgnoreMods && isRelease)
  {
    var bySymbol := b.inputType == Keyboard && b.symbol.Some?;
    var ignoreMods := b.release == KeyReleaseIgnoreMods && isRelease;
    if !bySymbol && b.keycode != code {
      return false;
    }
    for k := 0 to |b.keycodes|
      invariant forall j :: 0 <= j < k ==> !FitsAt(b, j, state, code, ignoreMods)
    {
      var modsMatch := Mods(b.keycodes[k].modifiers) == Mods(state);
      if (bySymbol ==> b.keycodes[k].keycode == code % 256) && (modsMatch || ignoreMods) {
        assert FitsAt(b, k, state, code, ignoreMods);
        return true;
      }
    }
    found := false;
  }

  /** The tests of get_binding up to the keycode. */
  method Fits(b: Binding, state: bv32, isRelease: bool, code: nat, t: InputType) returns (found: bool)
    ensures found <==> if b.release == KeyReleaseIgnoreMods && isRelease then MatchesKey(b, state, code, t)
            else Matches(b, state, code, t)
  {
    if b.inputType != t {
      return false;
    }
    if !GroupsMatch(Bits(b.mask), state) {
      return false;
    }
    found := FindKeycode(b, state, isRelease, code);
  }

  /** The bindings that are activated by presses are these. */
  ghost predicate OnPress(list: seq<Binding>, onPress: set<Binding>)
    reads list`release
  {
    forall b :: b in list ==> (b.release == KeyPress <==> b in onPress)
  }

  method Mark(bind: Binding)
    modifies bind`release
    ensures bind.release == KeyReleaseIgnoreMods
  {
    bind.release := KeyReleaseIgnoreMods;
  }

  method Pressed(bind: Binding, state: bv32, code: nat, t: InputType, ghost i: nat, ghost list: seq<Binding>,
                 ghost onPress: set<Binding>)
    returns (found: bool)
    requires i < |list| && bind == list[i] && (bind.release == KeyPress <==> bind in onPress)
    ensures Hits(list, onPress, state, code, t)[i] == if !found then Miss else if bind.release == KeyPress then PressHit
            else ReleaseHit
    ensures found ==> bind.inputType == t
  {
    assert Hits(list, onPress, state, code, t)[i] == HitOf(list[i], onPress, state, code, t);
    found := Fits(bind, state, false, code, t);
  }

  /** One binding under a press: a release binding that matches is marked. */
  method Look(bind: Binding, state: bv32, code: nat, t: InputType, ghost i: nat, ghost list: seq<Binding>,
              ghost onPress: set<Binding>)
    returns (pressed: bool, marked: bool)
    requires i < |list| && bind == list[i] && (bind.release == KeyPress <==> bind in onPress)
    requires bind.inputType == t ==> bind.release != KeyReleaseIgnoreMods
    modifies bind`release
    ensures var hit := Hits(list, onPress, state, code, t)[i];
            && (pressed <==> hit == PressHit) && (marked <==> hit == ReleaseHit)
            && bind.release == if hit == ReleaseHit then KeyReleaseIgnoreMods else old(bind.release)
  {
    var found := Pressed(bind, state, code, t, i, list, onPress);
    pressed, marked := false, false;
    if !found {
      return;
    }
    if bind.release == KeyRelease {
      Mark(bind);
      marked := true;
    } else {
      pressed := true;
    }
  }

  /** Position p is the first of its kind from position k on, or the end if there is none. */
  ghost predicate IsFirst(h: seq<Hit>, kind: Hit, k: nat, p: nat) {
    k <= p <= |h| && (p < |h| ==> h[p] == kind) && forall j :: k <= j < p ==> h[j] != kind
  }

  ghost predicate ReleasesAre(list: seq<Binding>, was: seq<Upon>)
    reads list`release
  {
    |was| == |list| && forall k {:trigger list[k].release} :: 0 <= k < |list| ==> list[k].release == was[k]
  }

  ghost function Releases(list: seq<Binding>): (was: seq<Upon>)
    reads list`release
    ensures ReleasesAre(list, was)
  {
    if list == [] then [] else Releases(list[..|list| - 1]) + [list[|list| - 1].release]
  }

  /** The marks of the first i bindings are set where they were hit. */
  ghost function Stamped(was: seq<Upon>, h: seq<Hit>, i: nat): (now: seq<Upon>)
    requires |h| == |was| && i <= |was|
    ensures |now| == |was| && forall k :: 0 <= k < |was| ==>
            now[k] == if k < i && h[k] == ReleaseHit then KeyReleaseIgnoreMods else was[k]
  {
    seq(|was|, k requires 0 <= k < |was| => if k < i && h[k] == ReleaseHit then KeyReleaseIgnoreMods else was[k])
  }

  method LookAt(list: seq<Binding>, i: nat, state: bv32, code: nat, t: InputType, ghost onPress: set<Binding>,
                ghost was: seq<Upon>, ghost h: seq<Hit>)
    returns (pressed: bool, marked: bool)
    requires NoDup(list) && i < |list| && |was| == |list| && h == Hits(list, onPress, state, code, t)
    requires ReleasesAre(list, Stamped(was, h, i)) && (was[i] == KeyPress <==> list[i] in onPress)
    requires list[i].inputType == t ==> was[i] != KeyReleaseIgnoreMods
    modifies list`release
    ensures (pressed <==> h[i] == PressHit) && (marked <==> h[i] == ReleaseHit)
    ensures ReleasesAre(list, Stamped(was, h, i + 1))
  {
    assert list[i].release == Stamped(was, h, i)[i];
    pressed, marked := Look(list[i], state, code, t, i, list, onPress);
  }

  /** get_binding for a press, its marks being reset: p is the position of the result, and e where the walk ends. */
  method WalkPressed(list: seq<Binding>, state: bv32, code: nat, t: InputType, ghost onPress: set<Binding>,
                     ghost was: seq<Upon>, ghost h: seq<Hit>)
    returns (result: Binding?, ghost p: nat, ghost e: nat)
    requires NoDup(list) && ReleasesAre(list, was) && h == Hits(list, onPress, state, code, t)
    requires forall k :: 0 <= k < |list| ==> (was[k] == KeyPress <==> list[k] in onPress)
    requires forall k :: 0 <= k < |list| && list[k].inputType == t ==> was[k] != KeyReleaseIgnoreMods
    modifies list`release
    ensures p == FirstHit(h, PressHit, 0) && e == FirstHit(h, ReleaseHit, p)
    ensures result == (if p < |list| then list[p] else null)
    ensures ReleasesAre(list, Stamped(was, h, if e < |list| then e + 1 else e))
  {
    result := null;
    p, e := |list|, |list|;
    for i := 0 to |list|
      invariant ReleasesAre(list, Stamped(was, h, i))
      invariant e == |list| && if result == null then p == |list| else p < i && result == list[p] && h[p] == PressHit
      invariant FirstHit(h, PressHit, 0) == if result == null then FirstHit(h, PressHit, i) else p
      invariant result != null ==> FirstHit(h, ReleaseHit, p) == FirstHit(h, ReleaseHit, i)
    {
      var pressed, marked := LookAt(list, i, state, code, t, onPress, was, h);
      if marked && result != null {
        e := i;
        return;
      }
      if pressed && result == null {
        result := list[i];
        p := i;
      }
    }
  }

  method FindPressed(list: seq<Binding>, state: bv32, code: nat, t: InputType,
                     ghost onPress: set<Binding>) returns (result: Binding?)
    requires NoDup(list) && OnPress(list, onPress)
    requires forall b :: b in list && b.inputType == t ==> b.release != KeyReleaseIgnoreMods
    modifies list`release
    ensures var h := Hits(list, onPress, state, code, t);
            && result == (if FirstHit(h, PressHit, 0) < |list| then list[FirstHit(h, PressHit, 0)] else null)
            && forall k :: 0 <= k < |list| ==>
                list[k].release == if Marked(h, k) then KeyReleaseIgnoreMods else old(list[k].release)
  {
    ghost var h := Hits(list, onPress, state, code, t);
    ghost var was := Releases(list);
    ghost var p, e;
    result, p, e := WalkPressed(list, state, code, t, onPress, was, h);
  }

  // ---- a release ---------------------------------------------------------------------------------

  /** A release activates a binding with its modifiers, or one that its press has marked. */
  predicate Releasable(b: Binding, marked: bool, onPress: bool, state: bv32, code: nat, t: InputType) {
    !onPress && if marked then MatchesKey(b, state, code, t) else Matches(b, state, code, t)
  }

  method FindReleased(list: seq<Binding>, state: bv32, code: nat, t: InputType,
                      ghost onPress: set<Binding>) returns (result: Binding?, ghost p: nat)
    requires OnPress(list, onPress)
    ensures p <= |list| && result == if p < |list| then list[p] else null
    ensures forall k :: 0 <= k < p ==>
            !Releasable(list[k], list[k].release == KeyReleaseIgnoreMods, list[k] in onPress, state, code, t)
    ensures p < |list| ==>
            Releasable(list[p], list[p].release == KeyReleaseIgnoreMods, list[p] in onPress, state, code, t)
    ensures result == null ==> forall b :: b in list ==>
            !Releasable(b, b.release == KeyReleaseIgnoreMods, b in onPress, state, code, t)
    ensures result != null ==> result in list
    ensures result != null ==>
              Releasable(result, result.release == KeyReleaseIgnoreMods, result in onPress, state, code, t)
  {
    for i := 0 to |list|
      invariant forall k :: 0 <= k < i ==>
                !Releasable(list[k], list[k].release == KeyReleaseIgnoreMods, list[k] in onPress, state, code, t)
    {
      var bind := list[i];
      var found := Fits(bind, state, true, code, t);
      if !found {
        continue;
      }
      if bind.release == KeyPress {
        continue;
      }
      return bind, i;
    }
    result, p := null, |list|;
  }

  /** A binding that its press has marked answers to the release of the key with any modifiers, in its group. */
  lemma MarkedAnswers(b: Binding, pressed: bv32, released: bv32, code: nat, t: InputType)
    requires Matches(b, pressed, code, t) && GroupsMatch(Bits(b.mask), released)
    ensures Releasable(b, true, false, released, code, t)
  {
    var k :| 0 <= k < |b.keycodes| && FitsAt(b, k, pressed, code, false);
    assert FitsAt(b, k, released, code, true);
  }

  // ---- runs --------------------------------------------------------------------------------------

  datatype Event = Input(isRelease: bool, inputType: InputType, state: bv32, code: nat) | Switch(mode: string)

  /** The last press of this input type since the last change of the mode. */
  ghost function LastPress(past: seq<Event>, modes: set<string>, t: InputType): Option<Event> {
    if past == [] then None else
      var e := past[|past| - 1];
      if e.Switch? && e.mode in modes then None
      else if e.Input? && !e.isRelease && e.inputType == t then Some(e)
      else LastPress(past[..|past| - 1], modes, t)
  }

  /** The mode after these events. */
  ghost function ModeAfter(past: seq<Event>, modes: set<string>, start: string): string {
    if past == [] then start else
      var e := past[|past| - 1];
      if e.Switch? && e.mode in modes then e.mode else ModeAfter(past[..|past| - 1], modes, start)
  }

  /** The event matched the binding: its key, its modifiers and its group. */
  predicate MatchedBy(b: Binding, e: Event) {
    e.Input? && Matches(b, e.state, e.code, e.inputType)
  }

  /** Before position k the event matches a press binding and, behind it, a release binding. */
  ghost predicate Overlooked(list: seq<Binding>, onPress: set<Binding>, e: Event, k: nat)
    requires k <= |list|
  {
    exists p, q {:trigger MatchedBy(list[p], e), MatchedBy(list[q], e)} :: 0 <= p < q < k &&
      list[p] in onPress && MatchedBy(list[p], e) && list[q] !in onPress && MatchedBy(list[q], e)
  }

  /** The press marks the k-th binding: it matches it, is not of its kind, and does not stop before. */
  ghost predicate Marks(list: seq<Binding>, onPress: set<Binding>, e: Event, k: nat)
    requires k < |list|
  {
    list[k] !in onPress && MatchedBy(list[k], e) && !Overlooked(list, onPress, e, k)
  }

  /** The last press marked the k-th binding. */
  ghost predicate Noted(list: seq<Binding>, onPress: set<Binding>, past: seq<Event>, modes: set<string>, k: nat)
    requires k < |list|
  {
    var last := LastPress(past, modes, list[k].inputType);
    last.Some? && Marks(list, onPress, last.value, k)
  }

  /** Exactly the release bindings that the last press marked are marked. */
  ghost predicate Remembered(list: seq<Binding>, onPress: set<Binding>, past: seq<Event>, modes: set<string>)
    reads list`release
  {
    forall k :: 0 <= k < |list| ==>
      (list[k].release == KeyReleaseIgnoreMods <==> Noted(list, onPress, past, modes, k))
  }

  /** The event is one for the k-th binding: a press that matches a press binding, or a release that matches a release
      binding or has the key and the group of one that is marked. */
  ghost predicate Answers(list: seq<Binding>, onPress: set<Binding>, past: seq<Event>, modes: set<string>, e: Event,
                          k: nat)
    requires k < |list| && e.Input?
  {
    if e.isRelease then
      && list[k] !in onPress
      && (MatchedBy(list[k], e) ||
          (Noted(list, onPress, past, modes, k) && MatchesKey(list[k], e.state, e.code, e.inputType)))
    else list[k] in onPress && MatchedBy(list[k], e)
  }

  /** It is the first one that the event is for. */
  ghost predicate AnswersFirst(list: seq<Binding>, onPress: set<Binding>, past: seq<Event>, modes: set<string>,
                               e: Event, k: nat)
    requires k < |list| && e.Input?
  {
    && Answers(list, onPress, past, modes, e, k)
    && forall j :: 0 <= j < k ==> !Answers(list, onPress, past, modes, e, j)
  }

  /** The result is the first binding of the list that the event is for, and null only if there is none.  No other
      press binding that the press matches is more specific. */
  ghost predicate Justified(result: Binding?, list: seq<Binding>, onPress: set<Binding>, past: seq<Event>,
                            modes: set<string>, e: Event)
    requires e.Input?
  {
    && (result == null ==> forall k :: 0 <= k < |list| ==> !Answers(list, onPress, past, modes, e, k))
    && (result != null ==>
          exists k :: 0 <= k < |list| && result == list[k] && AnswersFirst(list, onPress, past, modes, e, k))
    && (result != null && !e.isRelease ==>
          forall b :: b in list && b in onPress && MatchedBy(b, e) ==> b.mask <= result.mask)
  }

  /** The most specific bindings come first. */
  predicate Descending(list: seq<Binding>) {
    forall i, j :: 0 <= i < j < |list| ==> list[i].mask >= list[j].mask
  }

  lemma OthersRemembered(past: seq<Event>, modes: set<string>, e: Event, t: InputType)
    requires e.Input? && (e.isRelease || e.inputType != t)
    ensures LastPress(past + [e], modes, t) == LastPress(past, modes, t)
  {
    assert (past + [e])[..|past|] == past;
  }

  lemma HitAt(list: seq<Binding>, onPress: set<Binding>, e: Event, k: nat)
    requires e.Input? && k < |list|
    ensures var h := Hits(list, onPress, e.state, e.code, e.inputType);
            && (h[k] == PressHit <==> list[k] in onPress && MatchedBy(list[k], e))
            && (h[k] == ReleaseHit <==> list[k] !in onPress && MatchedBy(list[k], e))
  {
    assert Hits(list, onPress, e.state, e.code, e.inputType)[k]
           == HitOf(list[k], onPress, e.state, e.code, e.inputType);
  }

  /** What the walk marks. */
  lemma MarkedMarks(list: seq<Binding>, onPress: set<Binding>, e: Event, k: nat)
    requires e.Input? && k < |list|
    ensures Marked(Hits(list, onPress, e.state, e.code, e.inputType), k) <==> Marks(list, onPress, e, k)
  {
    var h := Hits(list, onPress, e.state, e.code, e.inputType);
    var first, end := FirstHit(h, PressHit, 0), LastLooked(h);
    forall j | 0 <= j < |list|
      ensures h[j] == PressHit <==> list[j] in onPress && MatchedBy(list[j], e)
      ensures h[j] == ReleaseHit <==> list[j] !in onPress && MatchedBy(list[j], e)
    {
      HitAt(list, onPress, e, j);
    }
    if end < k {
      assert MatchedBy(list[first], e) && MatchedBy(list[end], e);
    }
  }

  /** Every press binding that matches stands at or behind the first one. */
  lemma FirstIsFirst(list: seq<Binding>, onPress: set<Binding>, e: Event, p: nat, b: Binding)
    requires e.Input? && IsFirst(Hits(list, onPress, e.state, e.code, e.inputType), PressHit, 0, p)
    requires b in list && b in onPress && MatchedBy(b, e)
    ensures p <= Index(list, b) < |list|
  {
    HitAt(list, onPress, e, Index(list, b));
  }

  lemma NotAbove(list: seq<Binding>, i: nat, j: nat)
    requires Descending(list) && i <= j < |list|
    ensures list[j].mask <= list[i].mask
  {
  }

  lemma FirstIsGreatest(list: seq<Binding>, onPress: set<Binding>, e: Event, p: nat, b: Binding)
    requires e.Input? && Descending(list)
    requires IsFirst(Hits(list, onPress, e.state, e.code, e.inputType), PressHit, 0, p)
    requires b in list && b in onPress && MatchedBy(b, e)
    ensures p < |list| && b.mask <= list[p].mask
  {
    FirstIsFirst(list, onPress, e, p, b);
    NotAbove(list, p, Index(list, b));
  }

  lemma PressJustified(list: seq<Binding>, onPress: set<Binding>, past: seq<Event>, modes: set<string>, e: Event,
                       p: nat)
    requires e.Input? && !e.isRelease && Descending(list)
    requires IsFirst(Hits(list, onPress, e.state, e.code, e.inputType), PressHit, 0, p)
    ensures Justified(if p < |list| then list[p] else null, list, onPress, past, modes, e)
  {
    forall k | 0 <= k < |list|
      ensures Hits(list, onPress, e.state, e.code, e.inputType)[k] == PressHit <==>
              Answers(list, onPress, past, modes, e, k)
    {
      HitAt(list, onPress, e, k);
    }
    forall b | b in list && b in onPress && MatchedBy(b, e) ensures p < |list| && b.mask <= list[p].mask {
      FirstIsGreatest(list, onPress, e, p, b);
    }
  }

  lemma ReleasedAnswers(list: seq<Binding>, onPress: set<Binding>, past: seq<Event>, modes: set<string>, e: Event,
                        k: nat)
    requires e.Input? && e.isRelease && k < |list|
    ensures Answers(list, onPress, past, modes, e, k) <==>
            Releasable(list[k], Noted(list, onPress, past, modes, k), list[k] in onPress, e.state, e.code, e.inputType)
  {
    if MatchedBy(list[k], e) { MatchesMatchesKey(list[k], e.state, e.code, e.inputType); }
  }

  /** What get_binding leaves of the marks after a press. */
  ghost predicate MarkedBy(list: seq<Binding>, onPress: set<Binding>, e: Event)
    requires e.Input?
    reads list`release
  {
    && OnPress(list, onPress)
    && var h := Hits(list, onPress, e.state, e.code, e.inputType);
       forall k :: 0 <= k < |list| ==>
         (list[k].release == KeyReleaseIgnoreMods && list[k].inputType == e.inputType ==> Marked(h, k)) &&
             (Marked(h, k) ==> list[k].release == KeyReleaseIgnoreMods)
  }

  /** get_binding for a press. */
  method GetPressed(list: seq<Binding>, ghost onPress: set<Binding>, e: Event, ghost past: seq<Event>,
                    ghost modes: set<string>) returns (result: Binding?)
    requires NoDup(list) && OnPress(list, onPress) && Descending(list) && e.Input? && !e.isRelease
    modifies list`release
    ensures Justified(result, list, onPress, past, modes, e)
    ensures MarkedBy(list, onPress, e)
    ensures forall b :: b in list && b.inputType != e.inputType ==> b.release == old(b.release)
  {
    ResetMarks(list, e.inputType);
    result := FindPressed(list, e.state, e.code, e.inputType, onPress);
    ghost var h := Hits(list, onPress, e.state, e.code, e.inputType);
    PressJustified(list, onPress, past, modes, e, FirstHit(h, PressHit, 0));
    forall k | 0 <= k < |list| && Marked(h, k) ensures list[k] !in onPress && list[k].inputType == e.inputType {
      HitAt(list, onPress, e, k);
    }
  }

  /** After a press exactly what it marks is marked. */
  lemma PressRemembered(list: seq<Binding>, onPress: set<Binding>, past: seq<Event>, modes: set<string>, e: Event,
                        k: nat)
    requires e.Input? && !e.isRelease && k < |list| && list[k].inputType == e.inputType
    ensures Noted(list, onPress, past + [e], modes, k) <==>
            Marked(Hits(list, onPress, e.state, e.code, e.inputType), k)
  {
    assert (past + [e])[|past|] == e;
    MarkedMarks(list, onPress, e, k);
  }

  lemma OtherNoted(list: seq<Binding>, onPress: set<Binding>, past: seq<Event>, modes: set<string>, e: Event, k: nat)
    requires e.Input? && k < |list| && (e.isRelease || list[k].inputType != e.inputType)
    ensures Noted(list, onPress, past + [e], modes, k) <==> Noted(list, onPress, past, modes, k)
  {
    OthersRemembered(past, modes, e, list[k].inputType);
  }

  method GetReleased(list: seq<Binding>, e: Event, ghost onPress: set<Binding>, ghost past: seq<Event>,
                     ghost modes: set<string>)
    returns (result: Binding?)
    requires e.Input? && e.isRelease && OnPress(list, onPress) && Remembered(list, onPress, past, modes)
    ensures Justified(result, list, onPress, past, modes, e)
  {
    ghost var p;
    result, p := FindReleased(list, e.state, e.code, e.inputType, onPress);
    forall k | 0 <= k < |list|
      ensures Answers(list, onPress, past, modes, e, k) <==>
              Releasable(list[k], list[k].release == KeyReleaseIgnoreMods, list[k] in onPress, e.state, e.code,
                         e.inputType)
    {
      ReleasedAnswers(list, onPress, past, modes, e, k);
    }
  }

  /** get_binding. */
  method GetBinding(list: seq<Binding>, e: Event, ghost onPress: set<Binding>, ghost past: seq<Event>,
                    ghost modes: set<string>)
    returns (result: Binding?)
    requires e.Input? && NoDup(list) && OnPress(list, onPress) && Descending(list) &&
             Remembered(list, onPress, past, modes)
    modifies list`release
    ensures OnPress(list, onPress) && Remembered(list, onPress, past + [e], modes)
    ensures Justified(result, list, onPress, past, modes, e)
    ensures if e.isRelease then forall b :: b in list ==> b.release == old(b.release) else MarkedBy(list, onPress, e)
  {
    if e.isRelease {
      result := GetReleased(list, e, onPress, past, modes);
    } else {
      result := GetPressed(list, onPress, e, past, modes);
    }
    forall k | 0 <= k < |list|
      ensures list[k].release == KeyReleaseIgnoreMods <==> Noted(list, onPress, past + [e], modes, k)
    {
      if e.isRelease || list[k].inputType != e.inputType {
        OtherNoted(list, onPress, past, modes, e, k);
      } else {
        PressRemembered(list, onPress, past, modes, e, k);
      }
    }
  }

  // ---- modes -------------------------------------------------------------------------------------

  /** The modes with their bindings, and the one whose bindings are active. */
  class Modes {
    var modes: map<string, seq<Binding>>
    var current: string

    constructor (modes: map<string, seq<Binding>>, current: string)
      ensures this.modes == modes && this.current == current
    {
      this.modes, this.current := modes, current;
    }
  }

  /** Each mode lists its bindings once, the most specific first. */
  ghost predicate Ordered(modes: map<string, seq<Binding>>, all: set<Binding>) {
    forall m :: m in modes ==> NoDup(modes[m]) && Descending(modes[m]) && forall b :: b in modes[m] ==> b in all
  }

  ghost predicate AllOnPress(all: set<Binding>, onPress: set<Binding>)
    reads all`release
  {
    forall b :: b in all ==> (b.release == KeyPress <==> b in onPress)
  }

  /** The state between two events: only what the last press since the last change of mode matched is marked. */
  ghost predicate Settled(m: Modes, all: set<Binding>, onPress: set<Binding>, past: seq<Event>)
    reads m, all`release
  {
    && Ordered(m.modes, all) && AllOnPress(all, onPress) && m.current in m.modes
    && (forall b :: b in m.modes[m.current] ==> b in all)
    && Remembered(m.modes[m.current], onPress, past, m.modes.Keys)
  }

  /** switch_mode: an unknown mode changes nothing. */
  method SwitchMode(m: Modes, mode: string, ghost all: set<Binding>, ghost onPress: set<Binding>,
                    ghost past: seq<Event>)
    requires Settled(m, all, onPress, past)
    modifies m`current, all`release
    ensures m.modes == old(m.modes) && m.current == if mode in m.modes then mode else old(m.current)
    ensures Settled(m, all, onPress, past + [Switch(mode)])
    ensures forall b :: b in all ==>
              b.release == if mode in m.modes && b in m.modes[mode] then Cleared(old(b.release)) else old(b.release)
  {
    assert (past + [Switch(mode)])[..|past|] == past;
    if mode !in m.modes {
      return;
    }
    m.current := mode;
    var list := m.modes[mode];
    for i := 0 to |list|
      invariant m.modes == old(m.modes) && m.current == mode && AllOnPress(all, onPress)
      invariant forall b :: b in all ==> b.release == if b in list[..i] then Cleared(old(b.release)) else old(b.release)
    {
      assert list[..i + 1] == list[..i] + [list[i]];
      if list[i].release == KeyReleaseIgnoreMods {
        list[i].release := KeyRelease;
      }
    }
  }

  /** An X event in the active mode. */
  method HandleInput(m: Modes, e: Event, ghost all: set<Binding>, ghost onPress: set<Binding>,
                     ghost past: seq<Event>) returns (result: Binding?)
    requires Settled(m, all, onPress, past) && e.Input?
    modifies all`release
    ensures Settled(m, all, onPress, past + [e])
    ensures Justified(result, m.modes[m.current], onPress, past, m.modes.Keys, e)
  {
    result := GetBinding(m.modes[m.current], e, onPress, past, m.modes.Keys);
  }

  /** What an event activates after these: a change of mode nothing, and any other what is justified in the mode by
      then. */
  ghost predicate Outcome(modes: map<string, seq<Binding>>, start: string, onPress: set<Binding>, past: seq<Event>,
                          e: Event, result: Binding?)
  {
    if e.Switch? then result == null
    else
      var mode := ModeAfter(past, modes.Keys, start);
      mode in modes && Justified(result, modes[mode], onPress, past, modes.Keys, e)
  }

  ghost predicate Explained(modes: map<string, seq<Binding>>, start: string, onPress: set<Binding>,
                            events: seq<Event>, i: nat, result: Binding?)
    requires i < |events|
  {
    Outcome(modes, start, onPress, events[..i], events[i], result)
  }

  lemma ModeStep(past: seq<Event>, e: Event, modes: set<string>, start: string)
    ensures ModeAfter(past + [e], modes, start) ==
            if e.Switch? && e.mode in modes then e.mode else ModeAfter(past, modes, start)
  {
    assert (past + [e])[..|past|] == past;
  }

  method Handle(m: Modes, e: Event, ghost modes: map<string, seq<Binding>>, ghost start: string,
                ghost all: set<Binding>, ghost onPress: set<Binding>, ghost past: seq<Event>)
    returns (result: Binding?)
    requires m.modes == modes && Settled(m, all, onPress, past) && m.current == ModeAfter(past, modes.Keys, start)
    modifies m`current, all`release
    ensures m.modes == modes && Settled(m, all, onPress, past + [e])
    ensures m.current == ModeAfter(past + [e], modes.Keys, start)
    ensures Outcome(modes, start, onPress, past, e, result)
  {
    ModeStep(past, e, modes.Keys, start);
    result := null;
    if e.Switch? {
      SwitchMode(m, e.mode, all, onPress, past);
    } else {
      result := HandleInput(m, e, all, onPress, past);
    }
  }

  /** Any run of presses, releases and changes of mode. */
  method Run(m: Modes, events: seq<Event>, ghost all: set<Binding>, ghost onPress: set<Binding>)
    returns (results: seq<Binding?>)
    requires Settled(m, all, onPress, [])
    modifies m`current, all`release
    ensures m.modes == old(m.modes) && Settled(m, all, onPress, events)
    ensures |results| == |events| && forall i :: 0 <= i < |events| ==>
            Explained(m.modes, old(m.current), onPress, events, i, results[i])
  {
    results := [];
    ghost var modes, start := m.modes, m.current;
    for i := 0 to |events|
      invariant m.modes == modes && Settled(m, all, onPress, events[..i])
      invariant m.current == ModeAfter(events[..i], modes.Keys, start)
      invariant |results| == i && forall j :: 0 <= j < i ==> Explained(modes, start, onPress, events, j, results[j])
    {
      TakeOne(events, i);
      var result := Handle(m, events[i], modes, start, all, onPress, events[..i]);
      assert Explained(modes, start, onPress, events, i, result);
      results := results + [result];
    }
    assert events[..|events|] == events;
  }

  /** No press of this type and no change to a known mode comes at positions i to j. */
  ghost predicate Undisturbed(events: seq<Event>, modes: set<string>, t: InputType, i: nat, j: nat)
    requires j <= |events|
  {
    forall k :: i <= k < j ==>
      match events[k]
      case Switch(mode) => mode !in modes
      case Input(isRelease, inputType, state, code) => isRelease || inputType != t
  }

  lemma {:induction false} PressStays(events: seq<Event>, modes: set<string>, start: string, i: nat, j: nat)
    requires i < j <= |events| && events[i].Input? && !events[i].isRelease
    requires Undisturbed(events, modes, events[i].inputType, i + 1, j)
    ensures LastPress(events[..j], modes, events[i].inputType) == Some(events[i])
    ensures ModeAfter(events[..j], modes, start) == ModeAfter(events[..i], modes, start)
    decreases j
  {
    assert events[..j][j - 1] == events[j - 1] && events[..j][..j - 1] == events[..j - 1];
    if i + 1 < j { PressStays(events, modes, start, i, j - 1); }
  }

  /** In any run, a release activates a binding if the press of that key marked one and the group still fits, whatever
      the modifiers are by then: the marked one, unless an earlier one answers too. */
  lemma PressThenRelease(modes: map<string, seq<Binding>>, start: string, onPress: set<Binding>, events: seq<Event>,
                         i: nat, j: nat, k: nat, result: Binding?)
    requires i < j < |events| && events[i].Input? && !events[i].isRelease && events[j].Input? && events[j].isRelease
    requires events[j].inputType == events[i].inputType && events[j].code == events[i].code
    requires Undisturbed(events, modes.Keys, events[i].inputType, i + 1, j)
    requires ModeAfter(events[..i], modes.Keys, start) in modes
    requires var list := modes[ModeAfter(events[..i], modes.Keys, start)];
             k < |list| && Marks(list, onPress, events[i], k) && GroupsMatch(Bits(list[k].mask), events[j].state)
    requires Explained(modes, start, onPress, events, j, result)
    ensures var list := modes[ModeAfter(events[..i], modes.Keys, start)];
            result != null && result !in onPress && exists p :: 0 <= p <= k && result == list[p]
  {
    var list := modes[ModeAfter(events[..i], modes.Keys, start)];
    var e, past := events[j], events[..j];
    PressStays(events, modes.Keys, start, i, j);
    MarkedAnswers(list[k], events[i].state, e.state, e.code, e.inputType);
    assert Answers(list, onPress, past, modes.Keys, e, k);
    var p :| 0 <= p < |list| && result == list[p] && AnswersFirst(list, onPress, past, modes.Keys, e, p);
  }

  /** No event can activate a binding that names several groups. */
  lemma SeveralGroupsNeverTrigger(b: Binding, eventState: bv32, code: nat, t: InputType)
    requires eventState & 0xFFFF_0000 == 0 && SeveralGroups(Bits(b.mask))
    ensures !MatchesKey(b, Filtered(eventState), code, t)
  {
    FilteredHalves(eventState);
    OneGroup(Bits(b.mask), Filtered(eventState));
  }

  // ---- reordering --------------------------------------------------------------------------------

  predicate SortedCopy(list: seq<Binding>, tmp: seq<Binding>) {
    Descending(tmp) && multiset(tmp) == multiset(list)
  }

  ghost function Insert(b: Binding, list: seq<Binding>): seq<Binding> {
    if list == [] || b.mask >= list[0].mask then [b] + list else [list[0]] + Insert(b, list[1..])
  }

  lemma {:induction false} InsertMembers(b: Binding, list: seq<Binding>)
    ensures multiset(Insert(b, list)) == multiset(list) + multiset{b}
    ensures forall x :: x in Insert(b, list) ==> x == b || x in list
  {
    if list != [] && b.mask < list[0].mask {
      assert list == [list[0]] + list[1..];
      InsertMembers(b, list[1..]);
    }
  }

  lemma ConsDescending(b: Binding, list: seq<Binding>)
    requires Descending(list) && forall x :: x in list ==> x.mask <= b.mask
    ensures Descending([b] + list)
  {
  }

  lemma {:induction false} InsertSorted(b: Binding, list: seq<Binding>)
    requires Descending(list)
    ensures Descending(Insert(b, list))
  {
    if list == [] || b.mask >= list[0].mask {
      ConsDescending(b, list);
    } else {
      InsertSorted(b, list[1..]);
      InsertMembers(b, list[1..]);
      ConsDescending(list[0], Insert(b, list[1..]));
    }
  }

  lemma {:induction false} SortedCopyExists(list: seq<Binding>)
    ensures exists tmp :: SortedCopy(list, tmp)
  {
    if list == [] {
      assert SortedCopy(list, list);
    } else {
      SortedCopyExists(list[1..]);
      var rest :| SortedCopy(list[1..], rest);
      InsertSorted(list[0], rest);
      InsertMembers(list[0], rest);
      assert list == [list[0]] + list[1..];
      assert SortedCopy(list, Insert(list[0], rest));
    }
  }

  lemma CopyNoDup(list: seq<Binding>, tmp: seq<Binding>)
    requires NoDup(list) && multiset(tmp) == multiset(list)
    ensures NoDup(tmp) && forall b :: b in tmp <==> b in list
  {
    forall b ensures b in tmp <==> b in list {
      assert b in multiset(tmp) <==> b in multiset(list);
    }
    forall i, j | 0 <= i < j < |tmp| ensures tmp[i] != tmp[j] {
      if tmp[i] == tmp[j] {
        CountTwice(tmp, i, j);
        CountOnce(list, tmp[i]);
      }
    }
  }

  lemma CountTwice(s: seq<Binding>, i: nat, j: nat)
    requires i < j < |s| && s[i] == s[j]
    ensures multiset(s)[s[i]] >= 2
  {
    assert s == s[..i] + [s[i]] + s[i + 1..j] + [s[j]] + s[j + 1..];
  }

  lemma {:induction false} CountOnce(s: seq<Binding>, b: Binding)
    requires NoDup(s)
    ensures multiset(s)[b] <= 1
  {
    if s != [] {
      assert s == [s[0]] + s[1..];
      if s[0] == b { assert b !in s[1..]; } else { CountOnce(s[1..], b); }
    }
  }

  /** reorder_bindings_of_mode; qsort may leave equal masks in any order. */
  method ReorderBindingsOfMode(m: Modes, mode: string)
    requires mode in m.modes && NoDup(m.modes[mode])
    modifies m`modes
    ensures m.modes.Keys == old(m.modes.Keys) &&
            (forall n :: n in m.modes && n != mode ==> m.modes[n] == old(m.modes)[n])
    ensures SortedCopy(old(m.modes)[mode], m.modes[mode]) && NoDup(m.modes[mode])
  {
    var list := m.modes[mode];
    var reordered := MoveSorted(list);
    m.modes := m.modes[mode := reordered];
  }

  lemma RemoveOne(s: seq<Binding>, b: Binding)
    requires b in s
    ensures multiset(Remove(s, b)) == multiset(s) - multiset{b}
  {
    var i := Index(s, b);
    assert s == s[..i] + [b] + s[i + 1..];
  }

  /** The array after qsort. */
  method Qsort(list: seq<Binding>) returns (tmp: seq<Binding>)
    ensures SortedCopy(list, tmp)
  {
    SortedCopyExists(list);
    tmp :| SortedCopy(list, tmp);
  }

  method MoveSorted(list: seq<Binding>) returns (reordered: seq<Binding>)
    requires NoDup(list)
    ensures SortedCopy(list, reordered) && NoDup(reordered)
  {
    var tmp := Qsort(list);
    CopyNoDup(list, tmp);
    reordered := [];
    var rest := list;
    for i := 0 to |tmp|
      invariant reordered == tmp[..i] && multiset(rest) == multiset(tmp[i..])
    {
      assert tmp[i..] == [tmp[i]] + tmp[i + 1..];
      assert tmp[i] in multiset(rest);
      RemoveOne(rest, tmp[i]);
      rest := Remove(rest, tmp[i]);
      reordered := reordered + [tmp[i]];
    }
    assert |multiset(rest)| == |rest| && rest == [];
    assert tmp[..|tmp|] == tmp;
  }

  /** Each mode lists its bindings once. */
  ghost predicate Listed(modes: map<string, seq<Binding>>, all: set<Binding>) {
    forall m :: m in modes ==> NoDup(modes[m]) && forall b :: b in modes[m] ==> b in all
  }

  /** The modes of `done` are sorted, the others as before. */
  ghost predicate Reordered(before: map<string, seq<Binding>>, modes: map<string, seq<Binding>>, done: seq<string>) {
    && modes.Keys == before.Keys
    && forall m :: m in modes ==> if m in done then SortedCopy(before[m], modes[m]) else modes[m] == before[m]
  }

  lemma ReorderedOrdered(before: map<string, seq<Binding>>, modes: map<string, seq<Binding>>, names: seq<string>,
                         all: set<Binding>)
    requires Listed(before, all) && Reordered(before, modes, names) && forall m :: m in modes ==> m in names
    ensures Ordered(modes, all)
  {
    forall m | m in modes
      ensures NoDup(modes[m]) && Descending(modes[m]) && forall b :: b in modes[m] ==> b in all
    {
      CopyNoDup(before[m], modes[m]);
    }
  }

  /** reorder_bindings: afterwards the modes are as get_binding needs them. */
  method ReorderBindings(m: Modes, names: seq<string>, ghost all: set<Binding>)
    requires NoDup(names) && (forall n :: n in names <==> n in m.modes) && Listed(m.modes, all)
    modifies m`modes
    ensures Reordered(old(m.modes), m.modes, names) && Ordered(m.modes, all)
  {
    for i := 0 to |names|
      invariant Reordered(old(m.modes), m.modes, names[..i])
    {
      TakeOne(names, i);
      ReorderBindingsOfMode(m, names[i]);
    }
    assert names[..|names|] == names;
    ReorderedOrdered(old(m.modes), m.modes, names, all);
  }
}
