/** The sequences that a tail queue stands for, and what the queue operations do to them. */
module Lists {

  /** No element is listed twice. */
  ghost predicate NoDup<T>(s: seq<T>) {
    forall i, j :: 0 <= i < j < |s| ==> s[i] != s[j]
  }

  /** Where x occurs first. */
  function Index<T(==)>(s: seq<T>, x: T): (i: nat)
    requires x in s
    ensures i < |s| && s[i] == x && x !in s[..i]
  {
    if s[0] == x then 0 else 1 + Index(s[1..], x)
  }

  /** s without the first occurrence of x. */
  function Remove<T(==)>(s: seq<T>, x: T): (r: seq<T>)
    ensures x !in s ==> r == s
    ensures x in s ==> |r| == |s| - 1
    ensures x in s ==> forall k :: 0 <= k < |r| ==> r[k] == s[if k < Index(s, x) then k else k + 1]
  {
    if x in s then var i := Index(s, x); s[..i] + s[i + 1..] else s
  }

  /** s with x put directly after y. */
  function InsertAfter<T(==)>(s: seq<T>, y: T, x: T): (r: seq<T>)
    requires y in s
    ensures |r| == |s| + 1
  {
    var i := Index(s, y);
    s[..i + 1] + [x] + s[i + 1..]
  }

  /** s with x moved to the front. */
  function ToFront<T(==)>(s: seq<T>, x: T): seq<T> {
    [x] + Remove(s, x)
  }

  /** The transposition of a and b. */
  function Other<T(==)>(x: T, a: T, b: T): T {
    if x == a then b else if x == b then a else x
  }

  /** s with a and b in each other's places. */
  function Trade<T(==)>(s: seq<T>, a: T, b: T): (r: seq<T>)
    ensures |r| == |s|
    ensures forall i :: 0 <= i < |s| ==> r[i] == Other(s[i], a, b)
  {
    seq(|s|, i requires 0 <= i < |s| => Other(s[i], a, b))
  }

  lemma TakeOne<T>(s: seq<T>, i: nat)
    requires i < |s|
    ensures s[..i + 1] == s[..i] + [s[i]]
  {
  }

  lemma IndexUnique<T>(s: seq<T>, i: nat)
    requires NoDup(s) && i < |s|
    ensures Index(s, s[i]) == i
  {
  }

  lemma RemoveFacts<T>(s: seq<T>, x: T)
    requires NoDup(s)
    ensures NoDup(Remove(s, x)) && x !in Remove(s, x)
    ensures forall y :: y in Remove(s, x) <==> y in s && y != x
  {
    var r := Remove(s, x);
    if x in s {
      var i := Index(s, x);
      forall y | y in s && y != x ensures y in r {
        var k := Index(s, y);
        assert r[if k < i then k else k - 1] == y;
      }
    }
  }

  lemma ToFrontFacts<T>(s: seq<T>, x: T)
    requires NoDup(s) && x in s
    ensures NoDup(ToFront(s, x)) && |ToFront(s, x)| == |s|
    ensures forall y :: y in ToFront(s, x) <==> y in s
  {
    RemoveFacts(s, x);
  }

  lemma NoDupMiddle<T>(l: seq<T>, x: T, r: seq<T>)
    ensures NoDup(l + [x] + r) <==> NoDup(l + r) && x !in l + r
  {
    var s, t := l + [x] + r, l + r;
    assert s[|l|] == x;
    assert forall k :: 0 <= k < |t| ==> t[k] == s[if k < |l| then k else k + 1];
    assert forall k :: 0 <= k < |s| && k != |l| ==> s[k] == t[if k < |l| then k else k - 1];
  }

  lemma NoDupNeighbours<T>(l: seq<T>, x: T, y: T, r: seq<T>)
    requires NoDup(l + [x, y] + r)
    ensures NoDup(l + [y, x] + r)
  {
    var s, t := l + [x, y] + r, l + [y, x] + r;
    assert forall k :: 0 <= k < |t| ==> t[k] == s[if k == |l| then k + 1 else if k == |l| + 1 then k - 1 else k];
  }

  lemma IndexAt<T>(l: seq<T>, y: T, r: seq<T>)
    requires y !in l
    ensures y in l + [y] + r && Index(l + [y] + r, y) == |l|
  {
    assert (l + [y] + r)[|l|] == y;
  }

  lemma InsertAfterAt<T>(l: seq<T>, y: T, r: seq<T>, x: T)
    requires y !in l
    ensures InsertAfter(l + [y] + r, y, x) == l + [y, x] + r
  {
    IndexAt(l, y, r);
  }

  lemma RemoveAt<T>(l: seq<T>, x: T, r: seq<T>)
    requires x !in l
    ensures Remove(l + [x] + r, x) == l + r
  {
    IndexAt(l, x, r);
  }

  lemma TradeFacts<T>(s: seq<T>, a: T, b: T)
    requires NoDup(s)
    ensures NoDup(Trade(s, a, b))
    ensures forall x :: x in Trade(s, a, b) <==> Other(x, a, b) in s
  {
    var t := Trade(s, a, b);
    forall x | Other(x, a, b) in s ensures x in t {
      var k := Index(s, Other(x, a, b));
      assert t[k] == x;
    }
  }

  lemma SplitAt<T>(s: seq<T>, x: T)
    requires x in s
    ensures var i := Index(s, x); s == s[..i] + [x] + s[i + 1..]
  {
  }

  /** Trading goes through each stretch of the list; a stretch without a and b stays. */
  lemma TradeOne<T>(l: seq<T>, x: T, r: seq<T>, y: T)
    requires x !in l && y !in l && x !in r && y !in r
    ensures Trade(l + [x] + r, x, y) == l + [y] + r && Trade(l + [x] + r, y, x) == l + [y] + r
  {
  }

  lemma TradeAdjacent<T>(s: seq<T>, i: nat)
    requires NoDup(s) && i + 1 < |s|
    ensures var a, b := s[i], s[i + 1];
            && s == s[..i] + [a, b] + s[i + 2..]
            && Trade(s, a, b) == Trade(s, b, a) == s[..i] + [b, a] + s[i + 2..]
  {
    var a, b := s[i], s[i + 1];
    var r := s[..i] + [b, a] + s[i + 2..];
    forall k | 0 <= k < |s| ensures r[k] == Other(s[k], a, b) == Other(s[k], b, a) {
      assert r[k] == if k == i then b else if k == i + 1 then a else s[k];
    }
  }

  lemma TradeApart<T>(l: seq<T>, a: T, m: seq<T>, b: T, r: seq<T>)
    requires NoDup(l + [a] + m + [b] + r)
    ensures var s, t := l + [a] + m + [b] + r, l + [b] + m + [a] + r; Trade(s, a, b) == t == Trade(s, b, a)
  {
    var s, t := l + [a] + m + [b] + r, l + [b] + m + [a] + r;
    var i, j := |l|, |l| + 1 + |m|;
    assert s[i] == a && s[j] == b;
    forall k | 0 <= k < |s| ensures t[k] == Other(s[k], a, b) == Other(s[k], b, a) {
      assert t[k] == if k == i then b else if k == j then a else s[k];
    }
  }

  /** Trading twice changes nothing, and trading absent elements changes nothing. */
  lemma TradeTwice<T>(s: seq<T>, a: T, b: T)
    ensures Trade(Trade(s, a, b), a, b) == s
    ensures a !in s && b !in s ==> Trade(s, a, b) == s
  {
  }

  datatype Option<+T> = None | Some(value: T)

  /** The element before x. */
  function PrevOf<T(==)>(s: seq<T>, x: T): Option<T>
    requires x in s
  {
    var i := Index(s, x);
    if i == 0 then None else Some(s[i - 1])
  }

  /** x put after `before`, or at the head when there is nothing before it. */
  function Put<T(==)>(s: seq<T>, before: Option<T>, x: T): seq<T>
    requires before.Some? ==> before.value in s
  {
    if before.None? then [x] + s else InsertAfter(s, before.value, x)
  }

  lemma PutAt<T>(l: seq<T>, r: seq<T>, x: T)
    requires NoDup(l + r)
    ensures var before := if l == [] then None else Some(l[|l| - 1]);
            (before.Some? ==> before.value in l + r) && Put(l + r, before, x) == l + [x] + r
  {
    if l == [] {
      assert l + r == r && l + [x] + r == [x] + r;
    } else {
      var k, y := l[..|l| - 1], l[|l| - 1];
      assert l + r == k + [y] + r && l + [x] + r == k + [y, x] + r;
      NoDupMiddle(k, y, r);
      InsertAfterAt(k, y, r, x);
      IndexAt(k, y, r);
    }
  }

  /** Taking a out of its list and b out of another, and putting each after what preceded the other. */
  lemma PutAcross<T>(s: seq<T>, a: T, b: T)
    requires NoDup(s) && a in s && b !in s
    ensures PrevOf(s, a).Some? ==> PrevOf(s, a).value in Remove(s, a)
    ensures Put(Remove(s, a), PrevOf(s, a), b) == Trade(s, a, b) == Trade(s, b, a)
  {
    var i := Index(s, a);
    var l, r := s[..i], s[i + 1..];
    SplitAt(s, a);
    NoDupMiddle(l, a, r);
    PutAt(l, r, b);
    TradeOne(l, a, r, b);
  }

  /** Both in one list, a before b: taking them out in either order. */
  lemma TakeBoth<T>(l: seq<T>, a: T, m: seq<T>, b: T, r: seq<T>)
    requires NoDup(l + [a] + m + [b] + r)
    ensures var s, q := l + [a] + m + [b] + r, l + m + r;
            NoDup(q) && a !in q && b !in q && Remove(Remove(s, a), b) == q == Remove(Remove(s, b), a)
  {
    var s, l2, q := l + [a] + m + [b] + r, l + [a] + m, l + m + r;
    var sa, sb := (l + m) + [b] + r, l + [a] + (m + r);
    assert s == l2 + [b] + r == l + [a] + (m + [b] + r);
    assert l + (m + [b] + r) == sa && l2 + r == sb && l + (m + r) == q;
    assert Remove(s, a) == sa && NoDup(sa) && a !in sa by {
      NoDupMiddle(l, a, m + [b] + r);
      RemoveAt(l, a, m + [b] + r);
    }
    assert Remove(s, b) == sb && NoDup(sb) && b !in sb by { NoDupMiddle(l2, b, r); RemoveAt(l2, b, r); }
    assert Remove(sa, b) == q && NoDup(q) && b !in q by { NoDupMiddle(l + m, b, r); RemoveAt(l + m, b, r); }
    assert Remove(sb, a) == q && a !in q by { NoDupMiddle(l, a, m + r); RemoveAt(l, a, m + r); }
  }

  /** What precedes each of them. */
  lemma PrevBoth<T>(l: seq<T>, a: T, m: seq<T>, b: T, r: seq<T>)
    requires NoDup(l + [a] + m + [b] + r) && m != []
    ensures var s := l + [a] + m + [b] + r;
            && a in s && b in s
            && PrevOf(s, a) == (if l == [] then None else Some(l[|l| - 1]))
            && PrevOf(s, b) == Some(m[|m| - 1])
  {
    var s, l2 := l + [a] + m + [b] + r, l + [a] + m;
    assert s == l2 + [b] + r == l + [a] + (m + [b] + r);
    NoDupMiddle(l, a, m + [b] + r);
    NoDupMiddle(l2, b, r);
    IndexAt(l, a, m + [b] + r);
    IndexAt(l2, b, r);
  }

  /** Putting a in b's place and then b in a's place. */
  lemma PutLateFirst<T>(l: seq<T>, a: T, m: seq<T>, b: T, r: seq<T>)
    requires NoDup(l + m + r) && m != [] && a !in l + m + r
    ensures var q, pa, pb := l + m + r, (if l == [] then None else Some(l[|l| - 1])), Some(m[|m| - 1]);
            && pb.value in q && (pa.Some? ==> pa.value in Put(q, pb, a))
            && Put(Put(q, pb, a), pa, b) == l + [b] + m + [a] + r
  {
    var qa := l + m + [a] + r;
    assert Put(l + m + r, Some(m[|m| - 1]), a) == qa by { PutAt(l + m, r, a); }
    var n, pa := m + [a] + r, if l == [] then None else Some(l[|l| - 1]);
    assert qa == l + n && NoDup(qa) by { NoDupMiddle(l + m, a, r); }
    assert (pa.Some? ==> pa.value in qa) && Put(qa, pa, b) == l + [b] + n by { PutAt(l, n, b); }
    assert l + [b] + n == l + [b] + m + [a] + r;
  }

  /** Putting b in a's place and then a in b's place. */
  lemma PutEarlyFirst<T>(l: seq<T>, a: T, m: seq<T>, b: T, r: seq<T>)
    requires NoDup(l + m + r) && m != [] && b !in l + m + r
    ensures var q, pa, pb := l + m + r, (if l == [] then None else Some(l[|l| - 1])), Some(m[|m| - 1]);
            && (pa.Some? ==> pa.value in q) && pb.value in Put(q, pa, b)
            && Put(Put(q, pa, b), pb, a) == l + [b] + m + [a] + r
  {
    var mr, k := m + r, l + [b] + m;
    assert l + m + r == l + mr && l + [b] + mr == k + r;
    assert k != [] && k[|k| - 1] == m[|m| - 1];
    NoDupMiddle(l, b, mr);
    PutAt(l, mr, b);
    PutAt(k, r, a);
  }

  /** TAILQ_SWAP on the sequence: x and the element after it change places. */
  function SwapNext<T(==)>(s: seq<T>, x: T): seq<T>
    requires x in s && Index(s, x) + 1 < |s|
  {
    var i := Index(s, x);
    s[..i] + [s[i + 1], x] + s[i + 2..]
  }

  /** The four steps of SWAP_CONS_IN_TREE in one list trade a and b, when they are not adjacent. */
  lemma StepsTrade<T>(s: seq<T>, a: T, b: T)
    requires NoDup(s) && a in s && b in s && a != b
    requires PrevOf(s, b) != Some(a) && PrevOf(s, a) != Some(b)
    ensures var q, pa, pb := Remove(Remove(s, a), b), PrevOf(s, a), PrevOf(s, b);
            && (pb.Some? ==> pb.value in q) && (pa.Some? ==> pa.value in Put(q, pb, a))
            && Put(Put(q, pb, a), pa, b) == Trade(s, a, b)
  {
    var i, j := Index(s, a), Index(s, b);
    if i < j { StepsForward(s, i, j); } else { StepsBackward(s, j, i); }
  }

  lemma Segments<T>(s: seq<T>, i: nat, j: nat) returns (l: seq<T>, m: seq<T>, r: seq<T>)
    requires i < j < |s|
    ensures s == l + [s[i]] + m + [s[j]] + r && |l| == i && |m| == j - i - 1
  {
    l, m, r := s[..i], s[i + 1..j], s[j + 1..];
  }

  lemma StepsForward<T>(s: seq<T>, i: nat, j: nat)
    requires NoDup(s) && i + 1 < j < |s|
    ensures var a, b := s[i], s[j];
            var q, pa, pb := Remove(Remove(s, a), b), PrevOf(s, a), PrevOf(s, b);
            && (pb.Some? ==> pb.value in q) && (pa.Some? ==> pa.value in Put(q, pb, a))
            && Put(Put(q, pb, a), pa, b) == Trade(s, a, b)
  {
    var a, b := s[i], s[j];
    var l, m, r := Segments(s, i, j);
    TakeBoth(l, a, m, b, r);
    PrevBoth(l, a, m, b, r);
    PutLateFirst(l, a, m, b, r);
    TradeApart(l, a, m, b, r);
  }

  lemma StepsBackward<T>(s: seq<T>, i: nat, j: nat)
    requires NoDup(s) && i + 1 < j < |s|
    ensures var b, a := s[i], s[j];
            var q, pa, pb := Remove(Remove(s, a), b), PrevOf(s, a), PrevOf(s, b);
            && (pb.Some? ==> pb.value in q) && (pa.Some? ==> pa.value in Put(q, pb, a))
            && Put(Put(q, pb, a), pa, b) == Trade(s, a, b)
  {
    var b, a := s[i], s[j];
    var l, m, r := Segments(s, i, j);
    TakeBoth(l, b, m, a, r);
    PrevBoth(l, b, m, a, r);
    PutEarlyFirst(l, b, m, a, r);
    TradeApart(l, b, m, a, r);
  }

  lemma SwapNextTrades<T>(s: seq<T>, a: T, b: T)
    requires NoDup(s) && a in s && b in s && PrevOf(s, b) == Some(a)
    ensures Index(s, a) + 1 < |s| && SwapNext(s, a) == Trade(s, a, b) == Trade(s, b, a)
  {
    IndexUnique(s, Index(s, b) - 1);
    TradeAdjacent(s, Index(s, a));
  }
}
