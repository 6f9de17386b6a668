/**
 dmenu's match: the list of matching items, rebuilt on the links of the items themselves after every
 edit of the input.
 */
module MatchList {
  import opened Lists
  import opened Text

  class Item {
    const text: string
    var left: Item?
    var right: Item?
    var out: bool
  }

  // ---- text --------------------------------------------------------------------------------------

  /** Equality of characters, under -i without regard to case. */
  predicate SameChar(c: char, d: char, ci: bool) {
    if ci then ToLower(c) == ToLower(d) else c == d
  }

  predicate SameText(a: string, b: string, ci: bool) {
    |a| == |b| && forall k :: 0 <= k < |a| ==> SameChar(a[k], b[k], ci)
  }

  predicate StartsWith(h: string, n: string, ci: bool) {
    |n| <= |h| && SameText(h[..|n|], n, ci)
  }

  predicate FoundAt(h: string, n: string, ci: bool, i: nat) {
    i <= |h| && StartsWith(h[i..], n, ci)
  }

  predicate Contains(h: string, n: string, ci: bool) {
    exists i :: 0 <= i <= |h| && FoundAt(h, n, ci, i)
  }

  /** A text contains what some part of it is the same as. */
  lemma ContainsMeans(h: string, n: string, ci: bool)
    ensures Contains(h, n, ci) <==> exists i, j :: 0 <= i <= j <= |h| && SameText(h[i..j], n, ci)
  {
    if Contains(h, n, ci) {
      var i :| 0 <= i <= |h| && FoundAt(h, n, ci, i);
      assert h[i..][..|n|] == h[i..i + |n|];
    }
    forall i, j | 0 <= i <= j <= |h| && SameText(h[i..j], n, ci) ensures Contains(h, n, ci) {
      assert h[i..][..|n|] == h[i..j];
      assert FoundAt(h, n, ci, i);
    }
  }

  /** The words of the input: maximal runs of characters other than the blank. */
  function Tokens(s: string): (ts: seq<string>)
    decreases |s|
  {
    if s == [] then [] else if s[0] == ' ' then Tokens(s[1..]) else [s[..Word(s)]] + Tokens(s[Word(s)..])
  }

  /** The length of the word at the beginning of s. */
  function Word(s: string): (n: nat)
    ensures n <= |s| && (forall k :: 0 <= k < n ==> s[k] != ' ') && (n < |s| ==> s[n] == ' ')
  {
    if s == [] || s[0] == ' ' then 0 else 1 + Word(s[1..])
  }

  predicate IsWord(t: string) {
    t != [] && forall k :: 0 <= k < |t| ==> t[k] != ' '
  }

  function Joined(ts: seq<string>): string {
    if ts == [] then [] else " " + ts[0] + Joined(ts[1..])
  }

  lemma {:induction false} TokensAreWords(s: string)
    ensures forall t :: t in Tokens(s) ==> IsWord(t)
    decreases |s|
  {
    if s != [] && s[0] == ' ' {
      TokensAreWords(s[1..]);
    } else if s != [] {
      TokensAreWords(s[Word(s)..]);
    }
  }

  lemma {:induction false} WordAt(t: string, rest: string)
    requires (forall k :: 0 <= k < |t| ==> t[k] != ' ') && (rest != [] ==> rest[0] == ' ')
    ensures Word(t + rest) == |t|
  {
    var s := t + rest;
    assert forall k :: 0 <= k < |t| ==> s[k] == t[k] != ' ';
    if rest != [] { assert s[|t|] == rest[0]; }
  }

  /** Words set apart by blanks are the tokens of the text. */
  lemma {:induction false} JoinedTokens(ts: seq<string>)
    requires forall t :: t in ts ==> IsWord(t)
    ensures Tokens(Joined(ts)) == ts
  {
    if ts != [] {
      var t, rest := ts[0], Joined(ts[1..]);
      JoinedTokens(ts[1..]);
      var s := t + rest;
      assert Joined(ts)[1..] == s;
      assert IsWord(t);
      WordAt(t, rest);
      assert s[..|t|] == t && s[|t|..] == rest;
    }
  }

  // ---- the order of the matches ------------------------------------------------------------------

  datatype Tier = NoMatch | Exact | Prefix | Substring

  function TierOf(item: string, text: string, ci: bool): Tier {
    var ts := Tokens(text);
    if exists t :: t in ts && !Contains(item, t, ci) then NoMatch
    else if ts == [] || SameText(text, item, ci) then Exact
    else if StartsWith(item, ts[0], ci) then Prefix
    else Substring
  }

  /** Those of the first n items that are of the tier, in input order. */
  ghost function Pick(items: seq<Item>, n: nat, text: string, ci: bool, tier: Tier): (r: seq<Item>)
    requires n <= |items|
    ensures forall x {:trigger x in r} :: x in r ==> x in items && TierOf(x.text, text, ci) == tier
  {
    if n == 0 then [] else Grown(Pick(items, n - 1, text, ci, tier), items[n - 1],
                                 TierOf(items[n - 1].text, text, ci) == tier)
  }

  ghost function Grown(l: seq<Item>, item: Item, more: bool): seq<Item> {
    if more then l + [item] else l
  }

  /** What match leaves: exact matches, then prefixes, then substrings. */
  ghost function MatchesOf(items: seq<Item>, text: string, ci: bool): seq<Item> {
    var n := |items|;
    Pick(items, n, text, ci, Exact) + Pick(items, n, text, ci, Prefix) + Pick(items, n, text, ci, Substring)
  }

  lemma {:induction false} PickHas(items: seq<Item>, n: nat, text: string, ci: bool, tier: Tier, k: nat)
    requires k < n <= |items| && TierOf(items[k].text, text, ci) == tier
    ensures items[k] in Pick(items, n, text, ci, tier)
  {
    if k < n - 1 { PickHas(items, n - 1, text, ci, tier, k); }
  }

  /** Listed once, in input order, and before position n of the input. */
  ghost predicate Ascending(items: seq<Item>, n: nat, p: seq<Item>) {
    && (forall x :: x in p ==> x in items && Index(items, x) < n)
    && (forall i, j :: 0 <= i < j < |p| ==> Index(items, p[i]) < Index(items, p[j]))
  }

  lemma GrownAscending(items: seq<Item>, n: nat, p: seq<Item>, more: bool)
    requires NoDup(items) && n < |items| && Ascending(items, n, p)
    ensures Ascending(items, n + 1, Grown(p, items[n], more))
  {
    IndexUnique(items, n);
    var q := Grown(p, items[n], more);
    forall i, j | 0 <= i < j < |q| ensures Index(items, q[i]) < Index(items, q[j]) {
      assert q[i] == p[i];
      if j < |p| { assert q[j] == p[j]; }
    }
  }

  lemma {:induction false} PickOrder(items: seq<Item>, n: nat, text: string, ci: bool, tier: Tier)
    requires NoDup(items) && n <= |items|
    ensures Ascending(items, n, Pick(items, n, text, ci, tier)) && NoDup(Pick(items, n, text, ci, tier))
  {
    if n > 0 {
      PickOrder(items, n - 1, text, ci, tier);
      GrownAscending(items, n - 1, Pick(items, n - 1, text, ci, tier), TierOf(items[n - 1].text, text, ci) == tier);
    }
  }

  function Level(tier: Tier): nat {
    match tier case NoMatch => 0 case Exact => 1 case Prefix => 2 case Substring => 3
  }

  ghost predicate Precedes(items: seq<Item>, text: string, ci: bool, x: Item, y: Item)
    requires x in items && y in items
  {
    var a, b := TierOf(x.text, text, ci), TierOf(y.text, text, ci);
    Level(a) < Level(b) || (a == b && Index(items, x) < Index(items, y))
  }

  /** Listed by tier and then in input order. */
  ghost predicate Ordered(items: seq<Item>, text: string, ci: bool, l: seq<Item>) {
    && (forall x :: x in l ==> x in items)
    && forall i, j :: 0 <= i < j < |l| ==> Precedes(items, text, ci, l[i], l[j])
  }

  lemma PickPrecedes(items: seq<Item>, n: nat, text: string, ci: bool, tier: Tier)
    requires NoDup(items) && n <= |items|
    ensures Ordered(items, text, ci, Pick(items, n, text, ci, tier))
  {
    PickOrder(items, n, text, ci, tier);
    var l := Pick(items, n, text, ci, tier);
    forall i, j | 0 <= i < j < |l| ensures Precedes(items, text, ci, l[i], l[j]) {
      assert l[i] in l && l[j] in l;
    }
  }

  /** Lists of ascending tiers, one after the other. */
  lemma InOrder(items: seq<Item>, text: string, ci: bool, a: seq<Item>, b: seq<Item>)
    requires Ordered(items, text, ci, a) && Ordered(items, text, ci, b)
    requires forall x, y :: x in a && y in b ==> Level(TierOf(x.text, text, ci)) < Level(TierOf(y.text, text, ci))
    ensures Ordered(items, text, ci, a + b)
  {
  }

  /** The matches are the items that contain all tokens. */
  lemma MatchMembers(items: seq<Item>, text: string, ci: bool, x: Item)
    ensures x in MatchesOf(items, text, ci) <==> x in items && forall t :: t in Tokens(text) ==> Contains(x.text, t, ci)
  {
    if x in items && TierOf(x.text, text, ci) != NoMatch {
      PickHas(items, |items|, text, ci, TierOf(x.text, text, ci), Index(items, x));
    }
  }

  /** They are listed by tier and then in input order, so each only once. */
  lemma MatchOrder(items: seq<Item>, text: string, ci: bool)
    requires NoDup(items)
    ensures NoDup(MatchesOf(items, text, ci)) && Ordered(items, text, ci, MatchesOf(items, text, ci))
  {
    var n := |items|;
    var e, p, s := Pick(items, n, text, ci, Exact), Pick(items, n, text, ci, Prefix),
        Pick(items, n, text, ci, Substring);
    PickPrecedes(items, n, text, ci, Exact);
    PickPrecedes(items, n, text, ci, Prefix);
    PickPrecedes(items, n, text, ci, Substring);
    InOrder(items, text, ci, e, p);
    InOrder(items, text, ci, e + p, s);
    var m := MatchesOf(items, text, ci);
    forall i, j | 0 <= i < j < |m| ensures m[i] != m[j] { assert Precedes(items, text, ci, m[i], m[j]); }
  }

  /** The order told from the texts: what is the input comes before what is not; of the rest, what begins with the
      first token comes before what does not; and otherwise the order of the input stays. */
  lemma MatchRanks(items: seq<Item>, text: string, ci: bool, i: nat, j: nat)
    requires NoDup(items) && i < j < |MatchesOf(items, text, ci)|
    ensures var x, y, ts := MatchesOf(items, text, ci)[i], MatchesOf(items, text, ci)[j], Tokens(text);
            && x in items && y in items
            && (ts == [] ==> Index(items, x) < Index(items, y))
            && (ts != [] ==>
                  var exact, begins := item => SameText(text, item, ci), item => StartsWith(item, ts[0], ci);
                  && (exact(y.text) ==> exact(x.text))
                  && (begins(y.text) ==> exact(x.text) || begins(x.text))
                  && (exact(x.text) == exact(y.text) && (exact(y.text) || begins(x.text) == begins(y.text)) ==>
                        Index(items, x) < Index(items, y)))
  {
    MatchOrder(items, text, ci);
    var l := MatchesOf(items, text, ci);
    assert Precedes(items, text, ci, l[i], l[j]);
    MatchMembers(items, text, ci, l[i]);
    MatchMembers(items, text, ci, l[j]);
  }

  /** Under -i an upper-case letter is the same as its lower-case one, and nothing else is the same. */
  lemma CaseIgnored(c: char, d: char)
    ensures SameChar(c, d, false) <==> c == d
    ensures SameChar(c, d, true) <==>
              c == d || ('A' <= c <= 'Z' && d == (c as int + 32) as char) ||
                  ('A' <= d <= 'Z' && c == (d as int + 32) as char)
  {
  }

  // ---- the links ---------------------------------------------------------------------------------

  /** The items are linked to each other in this order, and to nothing else. */
  ghost predicate Chained(l: seq<Item>)
    reads l
  {
    forall k :: 0 <= k < |l| ==> LinkedAt(l, k)
  }

  ghost predicate LinkedAt(l: seq<Item>, k: int)
    requires 0 <= k < |l|
    reads l[k]
  {
    && (if k == 0 then l[k].left == null else l[k].left == l[k - 1])
    && (if k + 1 < |l| then l[k].right == l[k + 1] else l[k].right == null)
  }

  method MarkOut(item: Item, ghost l: seq<Item>)
    requires Chained(l)
    modifies item`out
    ensures Chained(l) && item.out
  {
    item.out := true;
    forall k | 0 <= k < |l| ensures LinkedAt(l, k) { assert old(LinkedAt(l, k)); }
  }

  function FirstOf(l: seq<Item>): Item? {
    if l == [] then null else l[0]
  }

  function LastOf(l: seq<Item>): Item? {
    if l == [] then null else l[|l| - 1]
  }

  method AppendItem(item: Item, list: Item?, last: Item?, ghost l: seq<Item>) returns (list': Item?, last': Item?)
    requires NoDup(l) && Chained(l) && list == FirstOf(l) && last == LastOf(l) && item !in l
    modifies item, last
    ensures Chained(l + [item]) && list' == FirstOf(l + [item]) && last' == LastOf(l + [item])
  {
    list' := list;
    if last != null {
      last.right := item;
    } else {
      list' := item;
    }
    item.left := last;
    item.right := null;
    last' := item;
    ghost var s := l + [item];
    forall k | 0 <= k < |s|
      ensures LinkedAt(s, k)
    {
      if k < |l| { assert old(LinkedAt(l, k)) && s[k] == l[k] && l[k] != item; }
      if k + 1 < |l| { assert s[k + 1] == l[k + 1] && l[k] != last; }
      if 0 < k { assert s[k - 1] == l[k - 1]; }
    }
  }

  // ---- the code ----------------------------------------------------------------------------------

  method StrNCmp(a: string, b: string, ci: bool) returns (same: bool)
    requires |a| <= |b|
    ensures same <==> SameText(a, b[..|a|], ci)
  {
    var i := 0;
    while i < |a| && SameChar(a[i], b[i], ci)
      invariant 0 <= i <= |a| && forall k :: 0 <= k < i ==> SameChar(a[k], b[..|a|][k], ci)
    {
      i := i + 1;
    }
    assert i < |a| ==> !SameChar(a[i], b[..|a|][i], ci);
    same := i == |a|;
  }

  /** strstr, or cistrstr under -i. */
  method StrStr(h: string, n: string, ci: bool) returns (found: bool)
    ensures found <==> Contains(h, n, ci)
  {
    if n == [] {
      assert FoundAt(h, n, ci, 0);
      return true;
    }
    var start := 0;
    while start < |h|
      invariant start <= |h| && forall i :: 0 <= i < start ==> !FoundAt(h, n, ci, i)
    {
      var i := 0;
      while i < |n| && start + i < |h| && SameChar(n[i], h[start + i], ci)
        invariant 0 <= i <= |n| && start + i <= |h|
        invariant forall k :: 0 <= k < i ==> SameChar(h[start..][..i][k], n[k], ci)
      {
        i := i + 1;
      }
      if i == |n| {
        assert FoundAt(h, n, ci, start);
        return true;
      }
      assert !FoundAt(h, n, ci, start) by {
        if start + i < |h| && i < |n| && |n| <= |h[start..]| {
          assert h[start..][..|n|][i] == h[start + i];
        }
      }
      start := start + 1;
    }
    found := false;
  }

  method WordEnd(text: string, i: nat) returns (j: nat)
    requires i <= |text|
    ensures i <= j <= |text| && j - i == Word(text[i..])
  {
    j := i;
    while j < |text| && text[j] != ' '
      invariant i <= j <= |text| && Word(text[i..]) == j - i + Word(text[j..])
    {
      j := j + 1;
    }
  }

  lemma TokensStep(text: string, i: nat)
    requires i < |text|
    ensures if text[i] == ' ' then Tokens(text[i..]) == Tokens(text[i + 1..])
            else var j := i + Word(text[i..]); i < j <= |text| && Tokens(text[i..]) == [text[i..j]] + Tokens(text[j..])
  {
    var r := text[i..];
    assert r[1..] == text[i + 1..];
    if text[i] != ' ' {
      var n := Word(r);
      assert r[..n] == text[i..i + n] && r[n..] == text[i + n..];
    }
  }

  /** The strtok loop. */
  method Tokenize(text: string) returns (tokv: seq<string>)
    ensures tokv == Tokens(text)
  {
    tokv := [];
    var i := 0;
    assert text[0..] == text;
    while i < |text|
      invariant i <= |text| && Tokens(text) == tokv + Tokens(text[i..])
    {
      TokensStep(text, i);
      if text[i] == ' ' {
        i := i + 1;
      } else {
        var j := WordEnd(text, i);
        tokv := tokv + [text[i..j]];
        i := j;
      }
    }
  }

  /** The tests that match makes of one item. */
  method Classify(item: string, text: string, tokv: seq<string>, ci: bool) returns (tier: Tier)
    requires tokv == Tokens(text)
    ensures tier == TierOf(item, text, ci)
  {
    var i := 0;
    while i < |tokv|
      invariant i <= |tokv| && forall k :: 0 <= k < i ==> Contains(item, tokv[k], ci)
    {
      var found := StrStr(item, tokv[i], ci);
      if !found {
        return NoMatch;
      }
      i := i + 1;
    }
    var exact := false;
    if |text| == |item| {
      exact := StrNCmp(text, item, ci);
      assert item[..|text|] == item;
    }
    if |tokv| == 0 || exact {
      return Exact;
    }
    var prefix := false;
    if |tokv[0]| <= |item| {
      prefix := StrNCmp(tokv[0], item, ci);
    }
    tier := if prefix then Prefix else Substring;
  }

  /** A list under construction: its items, and the pointers to its first and last one. */
  ghost predicate Holds(l: seq<Item>, list: Item?, last: Item?)
    reads l
  {
    NoDup(l) && Chained(l) && list == FirstOf(l) && last == LastOf(l)
  }

  ghost predicate Apart(a: seq<Item>, b: seq<Item>) {
    forall x :: x in a ==> x !in b
  }

  /** The two ends of a list under construction. */
  datatype Ends = Ends(first: Item?, last: Item?)

  /** Those of the first n items that are of each tier. */
  ghost predicate Picked(items: seq<Item>, n: nat, text: string, ci: bool, e: seq<Item>, p: seq<Item>, s: seq<Item>)
    requires n <= |items|
  {
    && e == Pick(items, n, text, ci, Exact)
    && p == Pick(items, n, text, ci, Prefix)
    && s == Pick(items, n, text, ci, Substring)
  }

  ghost predicate Disjoint(items: seq<Item>, e: seq<Item>, p: seq<Item>, s: seq<Item>) {
    && Apart(e, p) && Apart(e, s) && Apart(p, e) && Apart(p, s) && Apart(s, e) && Apart(s, p)
    && (forall x :: x in e ==> x in items) && (forall x :: x in p ==> x in items) && (forall x :: x in s ==> x in items)
  }

  /** The item n is new to all lists, and goes at most into the list of its tier. */
  lemma PickAll(items: seq<Item>, n: nat, text: string, ci: bool, tier: Tier, e: seq<Item>, p: seq<Item>, s: seq<Item>)
    requires NoDup(items) && n < |items| && Picked(items, n, text, ci, e, p, s) &&
             tier == TierOf(items[n].text, text, ci)
    ensures Disjoint(items, e, p, s) && items[n] !in e && items[n] !in p && items[n] !in s
    ensures Picked(items, n + 1, text, ci, Grown(e, items[n], tier == Exact), Grown(p, items[n], tier == Prefix),
                   Grown(s, items[n], tier == Substring))
  {
    IndexUnique(items, n);
    PickOrder(items, n, text, ci, Exact);
    PickOrder(items, n, text, ci, Prefix);
    PickOrder(items, n, text, ci, Substring);
  }

  /** Appending to one list leaves lists without common items alone. */
  method AppendApart(item: Item, ends: Ends, ghost l: seq<Item>, ghost l1: seq<Item>, ghost ends1: Ends,
                     ghost l2: seq<Item>, ghost ends2: Ends)
    returns (ends': Ends)
    requires Holds(l, ends.first, ends.last) && Holds(l1, ends1.first, ends1.last) && Holds(l2, ends2.first, ends2.last)
    requires Apart(l, l1) && Apart(l, l2) && item !in l && item !in l1 && item !in l2
    modifies item, ends.last
    ensures Holds(l + [item], ends'.first, ends'.last) && Holds(l1, ends1.first, ends1.last) &&
            Holds(l2, ends2.first, ends2.last)
  {
    assert ends.last != null ==> ends.last in l;
    var first, last := AppendItem(item, ends.first, ends.last, l);
    ends' := Ends(first, last);
  }

  method AddItem(item: Item, tier: Tier, exact: Ends, prefix: Ends, substr: Ends, ghost items: seq<Item>,
                 ghost e: seq<Item>, ghost p: seq<Item>, ghost s: seq<Item>)
    returns (exact': Ends, prefix': Ends, substr': Ends)
    requires Disjoint(items, e, p, s) && item in items && item !in e && item !in p && item !in s
    requires Holds(e, exact.first, exact.last) && Holds(p, prefix.first, prefix.last) &&
             Holds(s, substr.first, substr.last)
    modifies items
    ensures Holds(Grown(e, item, tier == Exact), exact'.first, exact'.last)
    ensures Holds(Grown(p, item, tier == Prefix), prefix'.first, prefix'.last)
    ensures Holds(Grown(s, item, tier == Substring), substr'.first, substr'.last)
  {
    exact', prefix', substr' := exact, prefix, substr;
    assert exact.last != null ==> exact.last in e && exact.last in items;
    assert prefix.last != null ==> prefix.last in p && prefix.last in items;
    assert substr.last != null ==> substr.last in s && substr.last in items;
    match tier {
      case NoMatch =>
      case Exact => exact' := AppendApart(item, exact, e, p, prefix, s, substr);
      case Prefix => prefix' := AppendApart(item, prefix, p, e, exact, s, substr);
      case Substring => substr' := AppendApart(item, substr, s, e, exact, p, prefix);
    }
  }

  /** match, up to the choice of the page: from any links whatever to the list of the matches. */
  method BuildMatches(items: seq<Item>, text: string, ci: bool) returns (matches: Item?, matchend: Item?)
    requires NoDup(items)
    modifies items
    ensures Holds(MatchesOf(items, text, ci), matches, matchend)
  {
    var tokv := Tokenize(text);
    var exact, prefix, substr := Ends(null, null), Ends(null, null), Ends(null, null);
    ghost var e: seq<Item>, p: seq<Item>, s: seq<Item> := [], [], [];
    var n := 0;
    while n < |items|
      invariant n <= |items| && Picked(items, n, text, ci, e, p, s)
      invariant Holds(e, exact.first, exact.last) && Holds(p, prefix.first, prefix.last) &&
                Holds(s, substr.first, substr.last)
    {
      var item := items[n];
      var tier := Classify(item.text, text, tokv, ci);
      PickAll(items, n, text, ci, tier, e, p, s);
      exact, prefix, substr := AddItem(item, tier, exact, prefix, substr, items, e, p, s);
      e, p, s := Grown(e, item, tier == Exact), Grown(p, item, tier == Prefix), Grown(s, item, tier == Substring);
      n := n + 1;
    }
    matches, matchend := ConcatenateAll(items, exact, prefix, substr, e, p, s);
  }

  lemma NoDupJoin(a: seq<Item>, b: seq<Item>)
    requires NoDup(a) && NoDup(b) && Apart(a, b)
    ensures NoDup(a + b)
  {
    forall i, j | 0 <= i < j < |a + b| ensures (a + b)[i] != (a + b)[j] {
      assert i < |a| <= j ==> (a + b)[i] in a && (a + b)[j] in b;
    }
  }

  /** The list b appended to the list a. */
  method Concatenate(list: Item?, last: Item?, b: Item?, bend: Item?, ghost l: seq<Item>,
                     ghost m: seq<Item>) returns (list': Item?, last': Item?)
    requires Holds(l, list, last) && Holds(m, b, bend) && Apart(l, m)
    modifies last, b
    ensures Holds(l + m, list', last')
  {
    list', last' := list, last;
    if b != null {
      if list != null {
        last.right := b;
        b.left := last;
      } else {
        list' := b;
      }
      last' := bend;
    }
    ghost var s := l + m;
    NoDupJoin(l, m);
    if m == [] { assert s == l; }
    if l != [] { assert s[|l| - 1] == last; }
    if m != [] { assert s[|l|] == b; }
    forall k | 0 <= k < |s| ensures LinkedAt(s, k) {
      if k < |l| {
        assert old(LinkedAt(l, k)) && s[k] == l[k];
      } else {
        assert old(LinkedAt(m, k - |l|)) && s[k] == m[k - |l|];
      }
    }
  }

  method ConcatenateAll(items: seq<Item>, exact: Ends, prefix: Ends, substr: Ends, ghost e: seq<Item>,
                        ghost p: seq<Item>, ghost s: seq<Item>)
    returns (matches: Item?, matchend: Item?)
    requires Disjoint(items, e, p, s)
    requires Holds(e, exact.first, exact.last) && Holds(p, prefix.first, prefix.last) &&
             Holds(s, substr.first, substr.last)
    modifies items
    ensures Holds(e + p + s, matches, matchend)
  {
    assert exact.last != null ==> exact.last in e && exact.last in items;
    assert prefix.first != null ==> prefix.first in p && prefix.first in items;
    matches, matchend := Concatenate(exact.first, exact.last, prefix.first, prefix.last, e, p);
    assert matchend != null ==> (matchend in e || matchend in p) && matchend in items;
    assert substr.first != null ==> substr.first in s && substr.first in items;
    matches, matchend := Concatenate(matches, matchend, substr.first, substr.last, e + p, s);
  }
}
