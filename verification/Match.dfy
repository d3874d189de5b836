/** The regular expression matcher against a declarative semantics of patterns. */
module Match {

  // ---------------------------------------------------------------------------
  // Patterns and their meaning
  // ---------------------------------------------------------------------------

  datatype Token =
    | Lit(c: char)    // c itself
    | Any             // .
    | Esc(c: char)    // \c
    | Star(c: char)   // c*
    | Eos             // a final $
    | Dangling        // a final \, with nothing to escape

  /** Every backslash that starts an escape has a character after it. */
  predicate Paired(p: string)
  {
    if p == [] then true
    else if p[0] == '\\' then |p| >= 2 && Paired(p[2..])
    else if |p| >= 2 && p[1] == '*' then Paired(p[2..])
    else Paired(p[1..])
  }

  /** What the matcher can be used on: on an unpaired backslash and a text with a backslash it may read past
      the end of the pattern. */
  predicate Readable(p: string, text: string) { Paired(p) || '\\' !in text }

  /** How a pattern reads from left to right. */
  function Tokens(p: string): seq<Token>
  {
    if p == [] then []
    else if p == "\\" then [Dangling]
    else if p[0] == '\\' then [Esc(p[1])] + Tokens(p[2..])
    else if |p| >= 2 && p[1] == '*' then [Star(p[0])] + Tokens(p[2..])
    else if p == "$" then [Eos]
    else [if p[0] == '.' then Any else Lit(p[0])] + Tokens(p[1..])
  }

  predicate Eats(c: char, x: char) { x == c || c == '.' }

  /** The strings a token stands for. An escape stands for its character, or for a backslash. */
  predicate Fits(t: Token, w: string)
  {
    match t
    case Lit(c) => w == [c]
    case Any => |w| == 1
    case Esc(c) => |w| == 1 && (w[0] == c || w[0] == '\\')
    case Star(c) => forall k :: 0 <= k < |w| ==> Eats(c, w[k])
    case Eos => w == []
    case Dangling => false
  }

  function Flat(pieces: seq<string>): string
  {
    if pieces == [] then [] else pieces[0] + Flat(pieces[1..])
  }

  ghost predicate Splits(ts: seq<Token>, pieces: seq<string>)
  {
    |pieces| == |ts| && forall k :: 0 <= k < |ts| ==> Fits(ts[k], pieces[k])
  }

  predicate Anchored(ts: seq<Token>) { Eos in ts }

  /** Some way of reading a prefix of the text, the whole text if the pattern ends in $, token by
      token. */
  ghost predicate MatchesAt(ts: seq<Token>, text: string)
  {
    exists pieces :: Witness(ts, text, pieces)
  }

  ghost predicate Witness(ts: seq<Token>, text: string, pieces: seq<string>)
  {
    Splits(ts, pieces) && Flat(pieces) <= text && (Anchored(ts) ==> Flat(pieces) == text)
  }

  /** The meaning of a search: at the beginning for patterns starting with ^, anywhere otherwise,
      including at the very end of the text. */
  function Body(p: string): string { if p != [] && p[0] == '^' then p[1..] else p }

  ghost predicate Matches(p: string, text: string)
  {
    if p != [] && p[0] == '^' then MatchesAt(Tokens(p[1..]), text)
    else exists i :: 0 <= i <= |text| && MatchesAt(Tokens(p), text[i..])
  }

  // ---------------------------------------------------------------------------
  // Peeling off one token
  // ---------------------------------------------------------------------------

  lemma EmptyMatches(text: string)
    ensures MatchesAt([], text)
  {
    assert Witness([], text, []);
  }

  lemma EosMatches(text: string)
    ensures MatchesAt([Eos], text) <==> text == []
  {
    if text == [] {
      assert Flat([""]) == "";
      assert Witness([Eos], text, [""]);
    }
    if MatchesAt([Eos], text) {
      var pieces :| Witness([Eos], text, pieces);
      assert Fits([Eos][0], pieces[0]) && [Eos][0] in [Eos];
      assert pieces == [pieces[0]] && Flat(pieces) == pieces[0] + Flat([]);
    }
  }

  /** The first piece is a prefix of the text that fits the first token; the rest match what follows. */
  lemma PeelWitness(t: Token, ts: seq<Token>, text: string, pieces: seq<string>)
    requires !t.Eos? && Witness([t] + ts, text, pieces)
    ensures pieces != [] && Fits(t, pieces[0]) && pieces[0] <= text
    ensures MatchesAt(ts, text[|pieces[0]|..])
  {
    assert Fits(([t] + ts)[0], pieces[0]);
    var rest := pieces[1..];
    forall k | 0 <= k < |ts| ensures Fits(ts[k], rest[k]) {
      assert Fits(([t] + ts)[k + 1], pieces[k + 1]);
    }
    assert Anchored(ts) ==> Anchored([t] + ts) by {
      if Anchored(ts) {
        var k :| 0 <= k < |ts| && ts[k] == Eos;
        assert ([t] + ts)[k + 1] == Eos;
      }
    }
    assert Witness(ts, text[|pieces[0]|..], rest);
  }

  lemma DanglingNever(text: string)
    ensures !MatchesAt([Dangling], text)
  {
    forall pieces: seq<string> | |pieces| == 1 ensures !Witness([Dangling], text, pieces) {
      assert !Fits([Dangling][0], pieces[0]);
    }
  }

  lemma PrependWitness(t: Token, ts: seq<Token>, text: string, n: nat)
    requires !t.Eos? && n <= |text| && Fits(t, text[..n]) && MatchesAt(ts, text[n..])
    ensures MatchesAt([t] + ts, text)
  {
    var rest :| Witness(ts, text[n..], rest);
    var pieces := [text[..n]] + rest;
    assert pieces[1..] == rest;
    forall k | 0 <= k < |pieces| ensures Fits(([t] + ts)[k], pieces[k]) {
      if k > 0 { assert Fits(ts[k - 1], rest[k - 1]); }
    }
    assert text == text[..n] + text[n..];
    assert Witness([t] + ts, text, pieces);
  }

  predicate Single(t: Token) { t.Lit? || t.Any? || t.Esc? }

  /** A one-character token matches the next character. */
  lemma SingleMatches(t: Token, ts: seq<Token>, text: string)
    requires Single(t)
    ensures MatchesAt([t] + ts, text) <==> text != [] && Fits(t, text[..1]) && MatchesAt(ts, text[1..])
  {
    if MatchesAt([t] + ts, text) {
      var pieces :| Witness([t] + ts, text, pieces);
      PeelWitness(t, ts, text, pieces);
      assert pieces[0] == text[..1];
    }
    if text != [] && Fits(t, text[..1]) && MatchesAt(ts, text[1..]) {
      PrependWitness(t, ts, text, 1);
    }
  }

  /** c* eats any number of fitting characters. */
  ghost predicate StarTo(c: char, ts: seq<Token>, text: string, n: nat)
  {
    n <= |text| && (forall k :: 0 <= k < n ==> Eats(c, text[k])) && MatchesAt(ts, text[n..])
  }

  lemma StarMatches(c: char, ts: seq<Token>, text: string)
    ensures MatchesAt([Star(c)] + ts, text) <==> exists n :: StarTo(c, ts, text, n)
  {
    if MatchesAt([Star(c)] + ts, text) {
      var pieces :| Witness([Star(c)] + ts, text, pieces);
      PeelWitness(Star(c), ts, text, pieces);
      assert forall k :: 0 <= k < |pieces[0]| ==> text[k] == pieces[0][k];
      assert StarTo(c, ts, text, |pieces[0]|);
    }
    if exists n :: StarTo(c, ts, text, n) {
      var n :| StarTo(c, ts, text, n);
      PrependWitness(Star(c), ts, text, n);
    }
  }

  // ---------------------------------------------------------------------------
  // The matcher
  // ---------------------------------------------------------------------------

  /** Matching at the beginning of the text is sound and complete, and it terminates. */
  method MatchHere(regexp: string, text: string) returns (r: bool)
    requires Readable(regexp, text)
    ensures r <==> MatchesAt(Tokens(regexp), text)
    decreases |regexp|, 0
  {
    var force := if regexp != [] && regexp[0] == '\\' then 1 else 0;
    if regexp == [] {
      EmptyMatches(text);
      return true;
    }
    if |regexp| >= 2 && regexp[1] == '*' && force == 0 {
      r := MatchStar(regexp[0], regexp[2..], text);
      return;
    }
    if regexp[0] == '$' && |regexp| == 1 {
      EosMatches(text);
      return text == [];
    }
    if regexp == "\\" {
      DanglingNever(text);
    } else {
      SingleMatches(Tokens(regexp)[0], Tokens(regexp[1 + force..]), text);
    }
    if text != [] && ((regexp[0] == '.' && force == 0) || (force == 1 && |regexp| > 1 && regexp[1] == text[0])
                      || regexp[0] == text[0]) {
      r := MatchHere(regexp[1 + force..], text[1..]);
      return;
    }
    return false;
  }

  /** Searching for c* followed by regexp: a do-while loop that eats one character at a time. */
  method MatchStar(c: char, regexp: string, text: string) returns (r: bool)
    requires Readable(regexp, text)
    ensures r <==> MatchesAt([Star(c)] + Tokens(regexp), text)
    decreases |regexp|, 1
  {
    ghost var ts := Tokens(regexp);
    StarMatches(c, ts, text);
    var n := 0;
    while true
      invariant n <= |text| && forall k :: 0 <= k < n ==> Eats(c, text[k])
      invariant forall k :: 0 <= k < n ==> !MatchesAt(ts, text[k..])
      decreases |text| - n
    {
      var here := MatchHere(regexp, text[n..]);
      if here {
        assert StarTo(c, ts, text, n);
        return true;
      }
      if !(n < |text| && (text[n] == c || c == '.')) {
        break;
      }
      n := n + 1;
    }
    return false;
  }

  /** The search itself: every suffix is tried, the empty one included. */
  method Search(regexp: string, text: string) returns (r: bool)
    requires Readable(Body(regexp), text)
    ensures r <==> Matches(regexp, text)
  {
    if regexp != [] && regexp[0] == '^' {
      r := MatchHere(regexp[1..], text);
      return;
    }
    var i := 0;
    while true
      invariant i <= |text| && forall k :: 0 <= k < i ==> !MatchesAt(Tokens(regexp), text[k..])
      decreases |text| - i
    {
      var here := MatchHere(regexp, text[i..]);
      if here { return true; }
      if i == |text| { break; }
      i := i + 1;
    }
    return false;
  }

  /** How the original matcher, which knows no escapes, reads a pattern: only the first token is its own. */
  function OrigTokens(p: string): seq<Token>
  {
    if p == [] then []
    else if |p| >= 2 && p[1] == '*' then [Star(p[0])] + Tokens(p[2..])
    else if p == "$" then [Eos]
    else [if p[0] == '.' then Any else Lit(p[0])] + Tokens(p[1..])
  }

  predicate OrigReadable(p: string, text: string)
  {
    Readable(if p == [] then [] else if |p| >= 2 && p[1] == '*' then p[2..] else p[1..], text)
  }

  /** The two matchers read a pattern alike if and only if it does not begin with a backslash. */
  lemma OrigAgreesIff(p: string)
    ensures OrigTokens(p) == Tokens(p) <==> p == [] || p[0] != '\\'
  {
    if p != [] && p[0] == '\\' {
      assert OrigTokens(p)[0] in {Star('\\'), Lit('\\')};
      assert Tokens(p)[0] == if |p| == 1 then Dangling else Esc(p[1]);
    }
  }

  method MatchHereOrig(regexp: string, text: string) returns (r: bool)
    requires OrigReadable(regexp, text)
    ensures r <==> MatchesAt(OrigTokens(regexp), text)
  {
    if regexp == [] {
      EmptyMatches(text);
      return true;
    }
    if |regexp| >= 2 && regexp[1] == '*' {
      r := MatchStar(regexp[0], regexp[2..], text);
      return;
    }
    if regexp[0] == '$' && |regexp| == 1 {
      EosMatches(text);
      return text == [];
    }
    SingleMatches(OrigTokens(regexp)[0], Tokens(regexp[1..]), text);
    if text != [] && (regexp[0] == '.' || regexp[0] == text[0]) {
      r := MatchHere(regexp[1..], text[1..]);
      return;
    }
    return false;
  }

  // ---------------------------------------------------------------------------
  // Consequences
  // ---------------------------------------------------------------------------

  /** A pattern of ordinary characters. */
  predicate Plain(p: string) { forall k :: 0 <= k < |p| ==> p[k] !in {'\\', '*', '.', '$', '^'} }

  lemma {:induction false} PlainTokens(p: string, text: string)
    requires Plain(p)
    ensures Paired(p) && (MatchesAt(Tokens(p), text) <==> p <= text)
    decreases |p|
  {
    if p == [] {
      EmptyMatches(text);
    } else {
      PlainTokens(p[1..], if text == [] then [] else text[1..]);
      SingleMatches(Lit(p[0]), Tokens(p[1..]), text);
      assert p == [p[0]] + p[1..];
    }
  }

  /** On patterns without special characters, searching is substring search. */
  lemma PlainIsSubstring(p: string, text: string)
    requires Plain(p)
    ensures Paired(Body(p)) && (Matches(p, text) <==> exists i :: 0 <= i <= |text| && p <= text[i..])
  {
    forall i | 0 <= i <= |text| ensures Paired(p) && (MatchesAt(Tokens(p), text[i..]) <==> p <= text[i..]) {
      PlainTokens(p, text[i..]);
    }
    PlainTokens(p, text);
  }

  /** The tokens of a plain string in front of a pattern that does not begin with a repetition. */
  lemma {:induction false} PlainThen(p: string, rest: string, text: string)
    requires Plain(p) && (rest == "" || rest[0] != '*')
    ensures MatchesAt(Tokens(p + rest), text) <==> p <= text && MatchesAt(Tokens(rest), text[|p|..])
    decreases |p|
  {
    if p == [] {
      assert p + rest == rest && text[0..] == text;
    } else {
      var later := p[1..] + rest;
      assert p + rest == [p[0]] + later;
      SingleMatches(Lit(p[0]), Tokens(later), text);
      if text != [] {
        PlainThen(p[1..], rest, text[1..]);
        assert p == [p[0]] + p[1..];
        if p <= text { assert text[1..][|p[1..]|..] == text[|p|..]; }
      }
    }
  }

  /** What the repetition of c may run over. */
  ghost predicate RunOf(c: char, text: string, from: nat, till: nat)
    requires from <= till <= |text|
  {
    forall k :: from <= k < till ==> c == '.' || text[k] == c
  }

  ghost predicate AroundRun(p: string, c: char, q: string, text: string, i: nat, j: nat)
  {
    i + |p| <= j <= |text| && p <= text[i..] && RunOf(c, text, i + |p|, j) && q <= text[j..]
  }

  lemma RepeatAt(p: string, c: char, q: string, text: string, i: nat)
    requires Plain(p) && p != [] && Plain(q) && c !in {'\\', '*'} && i <= |text|
    ensures MatchesAt(Tokens(p + ([c, '*'] + q)), text[i..]) <==> exists j: nat :: AroundRun(p, c, q, text, i, j)
  {
    var rest := [c, '*'] + q;
    PlainThen(p, rest, text[i..]);
    assert rest[2..] == q && Tokens(rest) == [Star(c)] + Tokens(q);
    if p <= text[i..] {
      var tail := text[i..][|p|..];
      assert tail == text[i + |p|..];
      StarMatches(c, Tokens(q), tail);
      forall n: nat | n <= |tail|
        ensures tail[n..] == text[i + |p| + n..] && (MatchesAt(Tokens(q), tail[n..]) <==> q <= tail[n..])
      {
        PlainTokens(q, tail[n..]);
      }
      if n :| StarTo(c, Tokens(q), tail, n) {
        forall k | i + |p| <= k < i + |p| + n ensures c == '.' || text[k] == c { assert Eats(c, tail[k - i - |p|]); }
        assert AroundRun(p, c, q, text, i, i + |p| + n);
      }
      if j: nat :| AroundRun(p, c, q, text, i, j) {
        assert StarTo(c, Tokens(q), tail, j - i - |p|);
      }
    }
  }

  /** A repeated character between two plain strings: the pattern is found if and only if the strings occur one
      after the other with nothing but that character between them; `.` may be any characters. */
  lemma RepeatIff(p: string, c: char, q: string, text: string)
    requires Plain(p) && p != [] && Plain(q) && c !in {'\\', '*'}
    ensures Matches(p + [c, '*'] + q, text) <==> exists i: nat, j: nat :: AroundRun(p, c, q, text, i, j)
  {
    assert p + [c, '*'] + q == p + ([c, '*'] + q);
    forall i: nat | i <= |text|
      ensures MatchesAt(Tokens(p + ([c, '*'] + q)), text[i..]) <==> exists j: nat :: AroundRun(p, c, q, text, i, j)
    {
      RepeatAt(p, c, q, text, i);
    }
  }

  ghost predicate AroundOne(p: string, q: string, text: string, i: nat)
  {
    i + |p| < |text| && p <= text[i..] && q <= text[i + |p| + 1..]
  }

  lemma DotAt(p: string, q: string, text: string, i: nat)
    requires Plain(p) && p != [] && Plain(q) && i <= |text|
    ensures MatchesAt(Tokens(p + ("." + q)), text[i..]) <==> AroundOne(p, q, text, i)
  {
    var rest := "." + q;
    PlainThen(p, rest, text[i..]);
    assert rest[1..] == q && (q == [] || rest[1] != '*') && Tokens(rest) == [Any] + Tokens(q);
    if p <= text[i..] {
      var tail := text[i..][|p|..];
      SingleMatches(Any, Tokens(q), tail);
      if tail != [] {
        assert tail[1..] == text[i + |p| + 1..];
        PlainTokens(q, tail[1..]);
      }
    }
  }

  /** A dot stands for one character, whatever it is. */
  lemma DotIff(p: string, q: string, text: string)
    requires Plain(p) && p != [] && Plain(q)
    ensures Matches(p + "." + q, text) <==> exists i: nat :: AroundOne(p, q, text, i)
  {
    assert p + "." + q == p + ("." + q);
    forall i: nat | i <= |text| ensures MatchesAt(Tokens(p + ("." + q)), text[i..]) <==> AroundOne(p, q, text, i) {
      DotAt(p, q, text, i);
    }
  }

  /** Between ^ and $ a plain pattern matches itself only; without the ^, what ends in it. */
  lemma WholeTextIff(p: string, text: string)
    requires Plain(p)
    ensures Matches("^" + p + "$", text) <==> text == p
    ensures Matches(p + "$", text) <==> |p| <= |text| && text[|text| - |p|..] == p
  {
    assert ("^" + p + "$")[1..] == p + "$";
    forall i | 0 <= i <= |text| ensures MatchesAt(Tokens(p + "$"), text[i..]) <==> text[i..] == p {
      PlainThen(p, "$", text[i..]);
      if p <= text[i..] { EosMatches(text[i..][|p|..]); }
    }
    assert text[0..] == text;
    if |p| <= |text| && text[|text| - |p|..] == p {
      assert MatchesAt(Tokens(p + "$"), text[|text| - |p|..]);
    }
  }

  /** An escape does not keep its character literal: it also accepts a backslash. */
  lemma EscapeAcceptsBackslash(c: char)
    ensures MatchesAt([Esc(c)], "\\") && MatchesAt([Esc(c)], [c])
  {
    assert [Esc(c)] + [] == [Esc(c)];
    EmptyMatches([]);
    SingleMatches(Esc(c), [], "\\");
    SingleMatches(Esc(c), [], [c]);
    assert "\\"[1..] == [] && [c][1..] == [];
  }
}
