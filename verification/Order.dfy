/**
 Lists kept in order by inserting before the first greater entry, as workspaces and dock clients are:
 sorted, with equal entries in the order of their arrival, through any run of changes.
 */
module Order {
  import opened Lists
  import opened Text

  ghost predicate StrictWeak<K(!new)>(less: (K, K) -> bool) {
    && (forall a, b :: less(a, b) ==> !less(b, a))
    && (forall a, b, c :: !less(a, b) && !less(b, c) ==> !less(a, c))
  }

  /** The position of the first key greater than k. */
  function Place<K>(keys: seq<K>, k: K, less: (K, K) -> bool): (i: nat)
    ensures i <= |keys|
    ensures forall j :: 0 <= j < i ==> !less(k, keys[j])
    ensures i < |keys| ==> less(k, keys[i])
  {
    if keys == [] || less(k, keys[0]) then 0 else 1 + Place(keys[1..], k, less)
  }

  /** An entry that arrived in its list at time `since`. */
  datatype Entry<T, K> = Entry(item: T, key: K, since: nat)

  function Keys<T, K>(s: seq<Entry<T, K>>): (keys: seq<K>)
    ensures |keys| == |s| && forall i :: 0 <= i < |s| ==> keys[i] == s[i].key
  {
    seq(|s|, i requires 0 <= i < |s| => s[i].key)
  }

  ghost predicate Before<T, K>(a: Entry<T, K>, b: Entry<T, K>, less: (K, K) -> bool) {
    less(a.key, b.key) || (!less(b.key, a.key) && a.since < b.since)
  }

  ghost predicate InOrder<T, K>(s: seq<Entry<T, K>>, less: (K, K) -> bool) {
    forall i, j :: 0 <= i < j < |s| ==> Before(s[i], s[j], less)
  }

  ghost predicate Arranged<T, K>(s: seq<Entry<T, K>>, clock: nat, less: (K, K) -> bool) {
    InOrder(s, less) && forall i :: 0 <= i < |s| ==> s[i].since < clock
  }

  datatype Change<T, K> = Add(item: T, key: K) | Drop(item: T) | Rename(item: T, key: K)

  function Arrive<T, K>(s: seq<Entry<T, K>>, item: T, key: K, clock: nat, less: (K, K) -> bool): seq<Entry<T, K>> {
    var p := Place(Keys(s), key, less);
    s[..p] + [Entry(item, key, clock)] + s[p..]
  }

  /** The first entry of an item, or the length of the list. */
  function Where<T(==), K>(s: seq<Entry<T, K>>, item: T): (k: nat)
    ensures k <= |s| && (k < |s| ==> s[k].item == item) && forall j :: 0 <= j < k ==> s[j].item != item
  {
    if s == [] || s[0].item == item then 0 else 1 + Where(s[1..], item)
  }

  function Leave<T(==), K>(s: seq<Entry<T, K>>, item: T): seq<Entry<T, K>> {
    var k := Where(s, item);
    if k < |s| then s[..k] + s[k + 1..] else s
  }

  /** A rename detaches the entry and attaches it again under its new key. */
  function Apply<T(==), K>(s: seq<Entry<T, K>>, change: Change<T, K>, clock: nat,
                   less: (K, K) -> bool): seq<Entry<T, K>>
  {
    match change
    case Add(item, key) => Arrive(s, item, key, clock, less)
    case Drop(item) => Leave(s, item)
    case Rename(item, key) => Arrive(Leave(s, item), item, key, clock, less)
  }

  /** The changes happen one after the other from time `clock` on. */
  function Run<T(==), K>(s: seq<Entry<T, K>>, changes: seq<Change<T, K>>, clock: nat, less: (K, K) -> bool)
    : seq<Entry<T, K>>
    decreases |changes|
  {
    if changes == [] then s else Run(Apply(s, changes[0], clock, less), changes[1..], clock + 1, less)
  }

  /** The new entry stands behind all that are not greater and before all that are. */
  lemma ArriveBetween<T, K(!new)>(s: seq<Entry<T, K>>, e: Entry<T, K>, less: (K, K) -> bool)
    requires StrictWeak(less) && Arranged(s, e.since, less)
    ensures var p := Place(Keys(s), e.key, less);
            && (forall i :: 0 <= i < p ==> Before(s[i], e, less))
            && (forall j :: p <= j < |s| ==> Before(e, s[j], less))
  {
    var p := Place(Keys(s), e.key, less);
    forall i | 0 <= i < p ensures Before(s[i], e, less) { assert !less(e.key, Keys(s)[i]); }
    forall j | p <= j < |s| ensures Before(e, s[j], less) {
      assert less(e.key, Keys(s)[p]);
      if p < j { assert Before(s[p], s[j], less); assert !less(s[j].key, s[p].key); }
    }
  }

  ghost predicate AllBefore<T, K>(a: seq<Entry<T, K>>, b: seq<Entry<T, K>>, less: (K, K) -> bool) {
    forall i, j :: 0 <= i < |a| && 0 <= j < |b| ==> Before(a[i], b[j], less)
  }

  lemma JoinInOrder<T, K>(a: seq<Entry<T, K>>, b: seq<Entry<T, K>>, less: (K, K) -> bool)
    ensures InOrder(a + b, less) <==> InOrder(a, less) && InOrder(b, less) && AllBefore(a, b, less)
  {
    var s := a + b;
    assert forall i :: 0 <= i < |a| ==> a[i] == s[i];
    assert forall j :: 0 <= j < |b| ==> b[j] == s[|a| + j];
  }

  lemma ArriveArranged<T, K(!new)>(s: seq<Entry<T, K>>, item: T, key: K, clock: nat, less: (K, K) -> bool)
    requires StrictWeak(less) && Arranged(s, clock, less)
    ensures Arranged(Arrive(s, item, key, clock, less), clock + 1, less)
  {
    var p, e := Place(Keys(s), key, less), Entry(item, key, clock);
    ArriveBetween(s, e, less);
    var l, r := s[..p], s[p..];
    assert s == l + r;
    JoinInOrder(l, r, less);
    InsertInOrder(l, e, r, less);
  }

  lemma InsertInOrder<T, K>(l: seq<Entry<T, K>>, e: Entry<T, K>, r: seq<Entry<T, K>>, less: (K, K) -> bool)
    requires InOrder(l, less) && InOrder(r, less) && AllBefore(l, r, less)
    requires (forall i :: 0 <= i < |l| ==> Before(l[i], e, less)) &&
             (forall j :: 0 <= j < |r| ==> Before(e, r[j], less))
    ensures InOrder(l + [e] + r, less)
  {
    JoinInOrder(l, [e], less);
    JoinInOrder(l + [e], r, less);
  }

  lemma LeaveArranged<T, K>(s: seq<Entry<T, K>>, item: T, clock: nat, less: (K, K) -> bool)
    requires Arranged(s, clock, less)
    ensures Arranged(Leave(s, item), clock, less)
  {
    var k := Where(s, item);
    var t := Leave(s, item);
    assert forall i :: 0 <= i < |t| ==> t[i] == s[if i < k then i else i + 1];
  }

  lemma ApplyArranged<T, K(!new)>(s: seq<Entry<T, K>>, change: Change<T, K>, clock: nat, less: (K, K) -> bool)
    requires StrictWeak(less) && Arranged(s, clock, less)
    ensures Arranged(Apply(s, change, clock, less), clock + 1, less)
  {
    match change
    case Add(item, key) => ArriveArranged(s, item, key, clock, less);
    case Drop(item) => LeaveArranged(s, item, clock, less);
    case Rename(item, key) =>
      LeaveArranged(s, item, clock, less);
      ArriveArranged(Leave(s, item), item, key, clock, less);
  }

  /** Through any run of attaching, detaching and renaming the list stays in order. */
  lemma {:induction false} RunArranged<T, K(!new)>(s: seq<Entry<T, K>>, changes: seq<Change<T, K>>, clock: nat,
                                                   less: (K, K) -> bool)
    requires StrictWeak(less) && Arranged(s, clock, less)
    ensures Arranged(Run(s, changes, clock, less), clock + |changes|, less)
    decreases |changes|
  {
    if changes != [] {
      ApplyArranged(s, changes[0], clock, less);
      RunArranged(Apply(s, changes[0], clock, less), changes[1..], clock + 1, less);
    }
  }

  // ---- workspaces ------------------------------------------------------------------------------

  /** Workspaces by number; -1 marks a named one, and those come last. */
  predicate WsLess(a: int, b: int) {
    a != -1 && (b == -1 || a < b)
  }

  lemma WsStrictWeak()
    ensures StrictWeak(WsLess)
  {
  }

  /** Numbered workspaces in non-decreasing order, then all named ones, equal ones as they arrived. */
  lemma WorkspaceOrder<T>(s: seq<Entry<T, int>>, changes: seq<Change<T, int>>, clock: nat, i: nat, j: nat)
    requires Arranged(s, clock, WsLess) && i < j < |Run(s, changes, clock, WsLess)|
    ensures var a, b := Run(s, changes, clock, WsLess)[i], Run(s, changes, clock, WsLess)[j];
            && (a.key == -1 ==> b.key == -1)
            && (b.key != -1 ==> a.key <= b.key)
            && (a.key == b.key ==> a.since < b.since)
  {
    WsStrictWeak();
    RunArranged(s, changes, clock, WsLess);
    assert Before(Run(s, changes, clock, WsLess)[i], Run(s, changes, clock, WsLess)[j], WsLess);
  }

  // ---- dock clients ----------------------------------------------------------------------------

  /** strcasecmp: negative, zero or positive. */
  function StrCaseCmp(a: string, b: string): int {
    if a == [] && b == [] then 0
    else if a == [] then -1
    else if b == [] then 1
    else if ToLower(a[0]) < ToLower(b[0]) then -1
    else if ToLower(a[0]) > ToLower(b[0]) then 1
    else StrCaseCmp(a[1..], b[1..])
  }

  function StrCaseCmpNullable(a: Option<string>, b: Option<string>): int {
    if a.None? && b.None? then 0 else if a.None? then -1 else if b.None? then 1 else StrCaseCmp(a.value, b.value)
  }

  lemma {:induction false} CmpTrans(a: string, b: string, c: string)
    ensures StrCaseCmp(a, b) == -StrCaseCmp(b, a)
    ensures StrCaseCmp(a, b) <= 0 && StrCaseCmp(b, c) <= 0 ==> StrCaseCmp(a, c) <= 0
    ensures StrCaseCmp(a, b) == 0 && StrCaseCmp(b, c) == 0 ==> StrCaseCmp(a, c) == 0
    decreases |a| + |b| + |c|
  {
    if a != [] && b != [] && c != [] { CmpTrans(a[1..], b[1..], c[1..]); }
    else if a != [] && b != [] { CmpTrans(a[1..], b[1..], c); }
  }

  lemma NullableTrans(a: Option<string>, b: Option<string>, c: Option<string>)
    ensures StrCaseCmpNullable(a, b) == -StrCaseCmpNullable(b, a)
    ensures StrCaseCmpNullable(a, b) <= 0 && StrCaseCmpNullable(b, c) <= 0 ==> StrCaseCmpNullable(a, c) <= 0
    ensures StrCaseCmpNullable(a, b) == 0 && StrCaseCmpNullable(b, c) == 0 ==> StrCaseCmpNullable(a, c) == 0
  {
    if a.Some? && b.Some? && c.Some? { CmpTrans(a.value, b.value, c.value); }
    else if a.Some? && b.Some? { CmpTrans(a.value, b.value, ""); }
  }

  datatype DockKey = DockKey(cls: Option<string>, instance: Option<string>)

  /** Dock clients by class and then by instance. */
  predicate DockLess(a: DockKey, b: DockKey) {
    var c := StrCaseCmpNullable(a.cls, b.cls);
    (if c == 0 then StrCaseCmpNullable(a.instance, b.instance) else c) < 0
  }

  lemma DockLinear(a: DockKey, b: DockKey, c: DockKey)
    ensures DockLess(a, b) ==> !DockLess(b, a)
    ensures !DockLess(a, b) && !DockLess(b, c) ==> !DockLess(a, c)
  {
    NullableTrans(a.cls, b.cls, c.cls);
    NullableTrans(c.cls, b.cls, a.cls);
    NullableTrans(a.cls, c.cls, b.cls);
    NullableTrans(b.cls, a.cls, c.cls);
    NullableTrans(a.instance, b.instance, c.instance);
    NullableTrans(c.instance, b.instance, a.instance);
    NullableTrans(a.instance, c.instance, b.instance);
  }

  lemma DockStrictWeak()
    ensures StrictWeak(DockLess)
  {
    forall a, b ensures DockLess(a, b) ==> !DockLess(b, a) { DockLinear(a, b, b); }
    forall a, b, c ensures !DockLess(a, b) && !DockLess(b, c) ==> !DockLess(a, c) { DockLinear(a, b, c); }
  }

  /** The first k characters agree but for their case. */
  predicate Agree(a: string, b: string, k: nat)
    requires k <= |a| && k <= |b|
  {
    forall i :: 0 <= i < k ==> ToLower(a[i]) == ToLower(b[i])
  }

  /** a ends after k common characters, or has the smaller one there. */
  predicate Smaller(a: string, b: string, k: int) {
    0 <= k <= |a| && k < |b| && Agree(a, b, k) && (k == |a| || ToLower(a[k]) < ToLower(b[k]))
  }

  /** strcasecmp: the first character in which they differ decides, or the end of the shorter one. */
  lemma {:induction false} CmpMeans(a: string, b: string)
    ensures StrCaseCmp(a, b) == 0 <==> |a| == |b| && Agree(a, b, |a|)
    ensures StrCaseCmp(a, b) < 0 <==> exists k :: Smaller(a, b, k)
  {
    if a != [] && b != [] && ToLower(a[0]) == ToLower(b[0]) {
      CmpMeans(a[1..], b[1..]);
      forall k | 0 <= k <= |a[1..]| && k <= |b[1..]| ensures Agree(a[1..], b[1..], k) <==> Agree(a, b, k + 1) {
        AgreeTail(a, b, k);
      }
      if k :| Smaller(a, b, k) {
        assert k > 0 && Smaller(a[1..], b[1..], k - 1);
      }
      if k :| Smaller(a[1..], b[1..], k) {
        assert Smaller(a, b, k + 1);
      }
    } else {
      assert Agree(a, b, 0) && (StrCaseCmp(a, b) < 0 ==> Smaller(a, b, 0));
    }
  }

  lemma AgreeTail(a: string, b: string, k: nat)
    requires a != [] && b != [] && ToLower(a[0]) == ToLower(b[0]) && k < |a| && k < |b|
    ensures Agree(a[1..], b[1..], k) <==> Agree(a, b, k + 1)
  {
    if Agree(a[1..], b[1..], k) {
      forall i | 0 <= i < k + 1 ensures ToLower(a[i]) == ToLower(b[i]) {
        if i > 0 { assert a[1..][i - 1] == a[i] && b[1..][i - 1] == b[i]; }
      }
    }
    if Agree(a, b, k + 1) {
      forall i | 0 <= i < k ensures ToLower(a[1..][i]) == ToLower(b[1..][i]) {
        assert a[1..][i] == a[i + 1] && b[1..][i] == b[i + 1];
      }
    }
  }

  /** No name comes first, and then strcasecmp decides: the class before the instance. */
  lemma DockMeans(a: DockKey, b: DockKey)
    ensures a.cls.None? && b.cls.Some? ==> DockLess(a, b)
    ensures a.cls.Some? && b.cls.Some? && StrCaseCmp(a.cls.value, b.cls.value) != 0 ==>
              (DockLess(a, b) <==> StrCaseCmp(a.cls.value, b.cls.value) < 0)
    ensures (a.cls.None? && b.cls.None?) ||
            (a.cls.Some? && b.cls.Some? && StrCaseCmp(a.cls.value, b.cls.value) == 0) ==>
              && (a.instance.None? ==> (DockLess(a, b) <==> b.instance.Some?))
              && (a.instance.Some? && b.instance.Some? ==>
                    (DockLess(a, b) <==> StrCaseCmp(a.instance.value, b.instance.value) < 0))
  {
  }

  /** Dock clients in the order of class and instance, equal ones as they arrived. */
  lemma DockOrder<T>(s: seq<Entry<T, DockKey>>, changes: seq<Change<T, DockKey>>, clock: nat, i: nat, j: nat)
    requires Arranged(s, clock, DockLess) && i < j < |Run(s, changes, clock, DockLess)|
    ensures var a, b := Run(s, changes, clock, DockLess)[i], Run(s, changes, clock, DockLess)[j];
            DockLess(a.key, b.key) || (!DockLess(b.key, a.key) && a.since < b.since)
  {
    DockStrictWeak();
    RunArranged(s, changes, clock, DockLess);
    assert Before(Run(s, changes, clock, DockLess)[i], Run(s, changes, clock, DockLess)[j], DockLess);
  }
}
