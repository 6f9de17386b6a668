/** The string scanner of the command parser: quoted strings, words, and their escapes. */
module ParseString {
  import opened Lists

  const NUL := '\0'

  /** The character at i of a string that ends with NUL. */
  function At(s: string, i: nat): char
    requires i <= |s|
  {
    if i < |s| then s[i] else NUL
  }

  // ---- what the scan accepts ---------------------------------------------------------------------

  /** Where the scan of a quoted string that has come to i ends: on a quote or NUL that no backslash precedes. */
  function QuotedEnd(s: string, i: nat): (e: nat)
    requires i <= |s|
    ensures i <= e <= |s| && (At(s, e) == NUL || At(s, e) == '"')
    decreases |s| - i
  {
    if At(s, i) == NUL || At(s, i) == '"' then i
    else if At(s, i) == '\\' && At(s, i + 1) != NUL then QuotedEnd(s, i + 2)
    else QuotedEnd(s, i + 1)
  }

  predicate EndsString(c: char) {
    c == ';' || c == ',' || c == NUL || c == '\r' || c == '\n'
  }

  predicate EndsWord(c: char) {
    c == ' ' || c == '\t' || c == ']' || c == ',' || c == ';' || c == '\r' || c == '\n' || c == NUL
  }

  predicate Ends(c: char, asWord: bool) {
    if asWord then EndsWord(c) else EndsString(c)
  }

  function PlainEnd(s: string, i: nat, asWord: bool): (e: nat)
    requires i <= |s|
    ensures i <= e <= |s| && Ends(At(s, e), asWord) && forall k :: i <= k < e ==> !Ends(At(s, k), asWord)
    decreases |s| - i
  {
    if Ends(At(s, i), asWord) then i else PlainEnd(s, i + 1, asWord)
  }

  predicate Escapable(c: char) {
    c == '"' || c == '\\'
  }

  /** The text that a scanned span stands for: a backslash before a quote or a backslash is dropped. */
  function Unescape(t: string): (u: string)
    ensures |u| <= |t|
  {
    if t == [] then []
    else if t[0] == '\\' && |t| > 1 && Escapable(t[1]) then [t[1]] + Unescape(t[2..])
    else [t[0]] + Unescape(t[1..])
  }

  /** Where parsing begins, behind an opening quote. */
  function Begin(s: string, w: nat): (b: nat)
    requires w <= |s|
    ensures w <= b <= |s|
  {
    if At(s, w) == '"' then w + 1 else w
  }

  function End(s: string, w: nat, asWord: bool): (e: nat)
    requires w <= |s|
    ensures Begin(s, w) <= e <= |s|
  {
    if At(s, w) == '"' then QuotedEnd(s, w + 1) else PlainEnd(s, w, asWord)
  }

  /** parse_string: nothing for an empty span. */
  function Parsed(s: string, w: nat, asWord: bool): Option<string>
    requires w <= |s|
  {
    var b, e := Begin(s, w), End(s, w, asWord);
    if b == e then None else Some(Unescape(s[b..e]))
  }

  // ---- the scan and the copying pair backslashes alike -------------------------------------------

  /** Where the copying loop stands: where the scan stood, or behind a backslash that escapes nothing. */
  predicate InStep(s: string, i: nat, e: nat)
    requires i <= e <= |s|
  {
    QuotedEnd(s, i) == e ||
    (0 < i < e && s[i - 1] == '\\' && !Escapable(s[i]) && QuotedEnd(s, i + 1) == e)
  }

  /** One step of the copying loop stays in step, so it ends exactly at the end of the span. */
  lemma StepStays(s: string, i: nat, e: nat)
    requires i < e <= |s| && InStep(s, i, e)
    ensures var skip := s[i] == '\\' && Escapable(At(s, i + 1));
            var n := if skip then i + 2 else i + 1;
            n <= e && InStep(s, n, e)
  {
  }

  /** The position i is inside the span of what is parsed at w, and in step with its scan. */
  predicate Copying(s: string, w: nat, asWord: bool, i: nat)
    requires w <= |s|
  {
    Begin(s, w) <= i <= End(s, w, asWord) && (At(s, w) == '"' ==> InStep(s, i, End(s, w, asWord)))
  }

  /** Where the character copied for position i stands. */
  function Source(s: string, i: nat): nat
    requires i < |s|
  {
    if s[i] == '\\' && Escapable(At(s, i + 1)) then i + 1 else i
  }

  lemma CopyStays(s: string, w: nat, asWord: bool, i: nat)
    requires w <= |s| && Copying(s, w, asWord, i) && i < End(s, w, asWord)
    ensures Source(s, i) < End(s, w, asWord) && Copying(s, w, asWord, Source(s, i) + 1)
    ensures Rest(s, w, asWord, i) == [s[Source(s, i)]] + Rest(s, w, asWord, Source(s, i) + 1)
  {
    var e := End(s, w, asWord);
    if At(s, w) == '"' { StepStays(s, i, e); }
    var t := s[i..e];
    assert t[1..] == s[i + 1..e];
    if |t| > 1 { assert t[2..] == s[i + 2..e]; }
  }

  method Scan(s: string, walk: nat, asWord: bool) returns (e: nat)
    requires walk <= |s|
    ensures e == End(s, walk, asWord)
  {
    e := walk;
    if At(s, e) == '"' {
      e := e + 1;
      while At(s, e) != NUL && At(s, e) != '"'
        invariant e <= |s| && QuotedEnd(s, e) == QuotedEnd(s, walk + 1)
        decreases |s| - e
      {
        if At(s, e) == '\\' && At(s, e + 1) != NUL {
          e := e + 1;
        }
        e := e + 1;
      }
    } else if !asWord {
      while !EndsString(At(s, e))
        invariant e <= |s| && PlainEnd(s, e, asWord) == PlainEnd(s, walk, asWord)
        decreases |s| - e
      {
        e := e + 1;
      }
    } else {
      while !EndsWord(At(s, e))
        invariant e <= |s| && PlainEnd(s, e, asWord) == PlainEnd(s, walk, asWord)
        decreases |s| - e
      {
        e := e + 1;
      }
    }
  }

  /** What is still to be copied. */
  function Rest(s: string, w: nat, asWord: bool, i: nat): string
    requires w <= |s| && i <= End(s, w, asWord)
  {
    Unescape(s[i..End(s, w, asWord)])
  }

  /** The position of the character to copy, a backslash that escapes being skipped. */
  method Skip(s: string, inpos: nat) returns (i: nat)
    requires inpos < |s|
    ensures i == Source(s, inpos)
  {
    i := inpos;
    if s[inpos] == '\\' && (At(s, inpos + 1) == '"' || At(s, inpos + 1) == '\\') {
      i := i + 1;
    }
  }

  lemma Append(done: string, c: char, rest: string)
    ensures done + ([c] + rest) == done + [c] + rest
  {
  }

  /** One round of the loop: the next character that is copied, and what is then left. */
  lemma CopyStep(s: string, walk: nat, asWord: bool, inpos: nat, done: string)
    requires walk <= |s| && inpos < End(s, walk, asWord) && Copying(s, walk, asWord, inpos)
    ensures inpos <= Source(s, inpos) < End(s, walk, asWord) && Copying(s, walk, asWord, Source(s, inpos) + 1)
    ensures done + [s[Source(s, inpos)]] + Rest(s, walk, asWord, Source(s, inpos) + 1)
         == done + Rest(s, walk, asWord, inpos)
  {
    CopyStays(s, walk, asWord, inpos);
    Append(done, s[Source(s, inpos)], Rest(s, walk, asWord, Source(s, inpos) + 1));
  }

  method Store(str: array<char>, outpos: nat, c: char)
    requires outpos < str.Length
    modifies str
    ensures str[..outpos + 1] == old(str[..outpos]) + [c]
  {
    str[outpos] := c;
  }

  method CopyOne(s: string, walk: nat, asWord: bool, str: array<char>, inpos: nat, outpos: nat, ghost done: string)
    returns (next: nat)
    requires walk <= |s| && inpos < End(s, walk, asWord) && Copying(s, walk, asWord, inpos)
    requires outpos < str.Length && str[..outpos] == done
    modifies str
    ensures inpos < next <= End(s, walk, asWord) && Copying(s, walk, asWord, next)
    ensures str[..outpos + 1] == done + [s[next - 1]]
    ensures done + [s[next - 1]] + Rest(s, walk, asWord, next) == done + Rest(s, walk, asWord, inpos)
  {
    CopyStep(s, walk, asWord, inpos, done);
    next := Skip(s, inpos);
    Store(str, outpos, s[next]);
    next := next + 1;
  }

  /** The copying loop: it never leaves the span. */
  method Copy(s: string, walk: nat, asWord: bool, beginning: nat, end: nat) returns (text: string)
    requires walk <= |s| && beginning == Begin(s, walk) && end == End(s, walk, asWord)
    ensures text == Unescape(s[beginning..end])
  {
    var str := new char[end - beginning + 1](_ => NUL);
    var inpos, outpos := beginning, 0;
    ghost var done := "";
    while inpos < end
      invariant inpos <= end && Copying(s, walk, asWord, inpos)
      invariant outpos <= inpos - beginning && str[..outpos] == done
      invariant done + Rest(s, walk, asWord, inpos) == Rest(s, walk, asWord, beginning)
    {
      inpos := CopyOne(s, walk, asWord, str, inpos, outpos, done);
      done := done + [s[inpos - 1]];
      outpos := outpos + 1;
    }
    text := str[..outpos];
  }

  /** parse_string: the text parsed, and where the cursor stands then. */
  method ParseString(s: string, walk: nat, asWord: bool) returns (parsed: Option<string>, walk': nat)
    requires walk <= |s|
    ensures parsed == Parsed(s, walk, asWord) && walk' == End(s, walk, asWord)
  {
    var beginning := if At(s, walk) == '"' then walk + 1 else walk;
    walk' := Scan(s, walk, asWord);
    if walk' == beginning {
      return None, walk';
    }
    var text := Copy(s, walk, asWord, beginning, walk');
    parsed := Some(text);
  }

  // ---- round trip --------------------------------------------------------------------------------

  /** A backslash before every quote and every backslash. */
  function Escape(u: string): string {
    if u == [] then [] else (if Escapable(u[0]) then ['\\', u[0]] else [u[0]]) + Escape(u[1..])
  }

  function Quoted(u: string): string {
    "\"" + Escape(u) + "\""
  }

  lemma {:induction false} UnescapeEscape(u: string)
    ensures Unescape(Escape(u)) == u && (u != [] ==> Escape(u) != [])
  {
    if u != [] {
      UnescapeEscape(u[1..]);
      var t := Escape(u);
      if Escapable(u[0]) {
        assert t[2..] == Escape(u[1..]);
      } else {
        assert t[1..] == Escape(u[1..]);
      }
    }
  }

  /** The scan of an escaped text stops at the quote behind it. */
  lemma {:induction false} ScanEscaped(pre: string, u: string, post: string)
    requires forall k :: 0 <= k < |u| ==> u[k] != NUL
    requires post != [] && post[0] == '"'
    ensures QuotedEnd(pre + Escape(u) + post, |pre|) == |pre + Escape(u)|
    decreases |u|
  {
    var s := pre + Escape(u) + post;
    if u == [] {
      assert s == pre + post;
    } else if Escapable(u[0]) {
      var pre2 := pre + ['\\', u[0]];
      ScanEscaped(pre2, u[1..], post);
      assert pre2 + Escape(u[1..]) == pre + Escape(u);
      assert s[|pre|] == '\\' && s[|pre| + 1] == u[0];
    } else {
      var pre2 := pre + [u[0]];
      ScanEscaped(pre2, u[1..], post);
      assert pre2 + Escape(u[1..]) == pre + Escape(u);
      assert s[|pre|] == u[0];
    }
  }

  /** Parsing a quoted text gives the text back and leaves the cursor on the closing quote, unless the text is empty. */
  lemma RoundTrip(pre: string, u: string, post: string, asWord: bool)
    requires forall k :: 0 <= k < |u| ==> u[k] != NUL
    ensures var s := pre + Quoted(u) + post;
            && Parsed(s, |pre|, asWord) == (if u == [] then None else Some(u))
            && End(s, |pre|, asWord) == |pre| + |Quoted(u)| - 1 && At(s, End(s, |pre|, asWord)) == '"'
  {
    var s, p := pre + Quoted(u) + post, pre + "\"";
    assert s == p + Escape(u) + ("\"" + post);
    ScanEscaped(p, u, "\"" + post);
    UnescapeEscape(u);
    assert s[|pre|] == '"';
    assert s[|p|..|p + Escape(u)|] == Escape(u);
  }

  /** Nothing in the text ends a span of this form. */
  predicate Unbroken(u: string, asWord: bool) {
    forall k :: 0 <= k < |u| ==> !Ends(u[k], asWord)
  }

  lemma {:induction false} EscapeUnbroken(u: string, asWord: bool)
    requires Unbroken(u, asWord)
    ensures Unbroken(Escape(u), asWord)
  {
    if u != [] {
      EscapeUnbroken(u[1..], asWord);
      var first := if Escapable(u[0]) then ['\\', u[0]] else [u[0]];
      assert Escape(u) == first + Escape(u[1..]);
    }
  }

  lemma {:induction false} PlainScan(s: string, i: nat, e: nat, asWord: bool)
    requires i <= e <= |s| && Ends(At(s, e), asWord) && forall k :: i <= k < e ==> !Ends(At(s, k), asWord)
    ensures PlainEnd(s, i, asWord) == e
    decreases e - i
  {
    if i < e { PlainScan(s, i + 1, e, asWord); }
  }

  /** Without quotes an escaped text is parsed back too, if nothing in it ends the word or string. */
  lemma PlainRoundTrip(pre: string, u: string, post: string, asWord: bool)
    requires Unbroken(u, asWord) && u != [] && (post == [] || Ends(post[0], asWord))
    ensures var s := pre + Escape(u) + post;
            && Parsed(s, |pre|, asWord) == Some(u)
            && End(s, |pre|, asWord) == |pre| + |Escape(u)|
  {
    var s, t := pre + Escape(u) + post, Escape(u);
    UnescapeEscape(u);
    EscapeUnbroken(u, asWord);
    assert t[0] != '"';
    assert At(s, |pre|) == t[0];
    forall k | |pre| <= k < |pre| + |t| ensures !Ends(At(s, k), asWord) { assert s[k] == t[k - |pre|]; }
    PlainScan(s, |pre|, |pre| + |t|, asWord);
    assert s[|pre|..|pre| + |t|] == t;
  }
}
