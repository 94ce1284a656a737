/** LIKE patterns (section 9.7.1 of the PostgreSQL documentation) and the escaping that makes a search text
    match itself. */
module LikePattern {
  import opened Wrappers
  import opened Text

  // ---------- LIKE ----------

  datatype Token = AnyString | AnyChar | Exactly(c: char)

  /** The pattern's meaning; a pattern that ends with the escape character has none. */
  function Tokens(pattern: string): Option<seq<Token>> {
    if pattern == "" then Some([])
    else if pattern[0] == '\\' then
      if |pattern| == 1 then None else Before(Exactly(pattern[1]), Tokens(pattern[2..]))
    else
      Before(if pattern[0] == '%' then AnyString else if pattern[0] == '_' then AnyChar else Exactly(pattern[0]),
             Tokens(pattern[1..]))
  }

  function Before(token: Token, rest: Option<seq<Token>>): Option<seq<Token>> {
    if rest.None? then None else Some([token] + rest.value)
  }

  predicate Matches(s: string, tokens: seq<Token>)
    decreases |tokens|
  {
    if tokens == [] then s == ""
    else
      match tokens[0]
      case AnyString => exists k :: 0 <= k <= |s| && Matches(s[k..], tokens[1..])
      case AnyChar => s != "" && Matches(s[1..], tokens[1..])
      case Exactly(c) => s != "" && s[0] == c && Matches(s[1..], tokens[1..])
  }

  /** None is PostgreSQL's error for a malformed pattern. */
  function Like(s: string, pattern: string): Option<bool> {
    var tokens := Tokens(pattern);
    if tokens.None? then None else Some(Matches(s, tokens.value))
  }

  /** Both sides are folded to one case first. */
  function ILike(s: string, pattern: string, fold: char -> char): Option<bool> {
    Like(Folded(s, fold), Folded(pattern, fold))
  }

  function Folded(s: string, fold: char -> char): (r: string)
    ensures |r| == |s| && forall i :: 0 <= i < |s| ==> r[i] == fold(s[i])
  {
    if s == "" then "" else [fold(s[0])] + Folded(s[1..], fold)
  }

  // ---------- Escaping ----------

  predicate IsSpecial(c: char) {
    c == '\\' || c == '%' || c == '_'
  }

  function EscapedChar(c: char): string {
    if IsSpecial(c) then ['\\', c] else [c]
  }

  function Escape(value: string): string {
    if value == "" then "" else EscapedChar(value[0]) + Escape(value[1..])
  }

  function SearchPattern(query: string): string {
    "%" + Escape(query) + "%"
  }

  /** The case fold leaves the three special characters alone and produces them from nothing else. */
  ghost predicate KeepsSpecials(fold: char -> char) {
    forall c, special :: IsSpecial(special) ==> (fold(c) == special <==> c == special)
  }

  // ---------- Meaning ----------

  function Literals(q: string): seq<Token> {
    if q == "" then [] else [Exactly(q[0])] + Literals(q[1..])
  }

  lemma EscapedCharIsLiteral(c: char, rest: string)
    ensures Tokens(EscapedChar(c) + rest) == Before(Exactly(c), Tokens(rest))
  {
    assert (EscapedChar(c) + rest)[|EscapedChar(c)|..] == rest;
  }

  lemma Regrouped<T>(a: seq<T>, b: seq<T>, c: seq<T>)
    ensures (a + b) + c == a + (b + c)
  {
  }

  lemma {:induction false} EscapedIsLiteral(q: string, rest: string, tail: seq<Token>)
    requires Tokens(rest) == Some(tail)
    ensures Tokens(Escape(q) + rest) == Some(Literals(q) + tail)
  {
    if q == "" {
      assert Escape(q) + rest == rest;
      assert Literals(q) + tail == tail;
    } else {
      var escaped, literals := Escape(q[1..]) + rest, Literals(q[1..]) + tail;
      EscapedIsLiteral(q[1..], rest, tail);
      EscapedCharIsLiteral(q[0], escaped);
      Regrouped(EscapedChar(q[0]), Escape(q[1..]), rest);
      Regrouped([Exactly(q[0])], Literals(q[1..]), tail);
      assert Before(Exactly(q[0]), Some(literals)) == Some([Exactly(q[0])] + literals);
    }
  }

  lemma {:induction false} LiteralMatches(q: string, s: string, rest: seq<Token>)
    ensures Matches(s, Literals(q) + rest) <==> q <= s && Matches(s[|q|..], rest)
  {
    if q == "" {
      assert Literals(q) + rest == rest;
    } else {
      assert (Literals(q) + rest)[1..] == Literals(q[1..]) + rest;
      if s != "" && s[0] == q[0] {
        LiteralMatches(q[1..], s[1..], rest);
        assert s == [s[0]] + s[1..] && q == [q[0]] + q[1..];
        assert q <= s ==> s[1..][|q| - 1..] == s[|q|..];
      }
    }
  }

  lemma PercentIsAny()
    ensures Tokens("%") == Some([AnyString])
  {
    assert "%"[1..] == "";
    assert [AnyString] + [] == [AnyString];
  }

  lemma TrailingAny(s: string)
    ensures Matches(s, [AnyString])
  {
    assert Matches(s[|s|..], []);
  }

  /** An escaped search text between two percent signs matches exactly the texts that contain it, and is never
      a malformed pattern. */
  lemma EscapeKeepsMeaning(s: string, q: string)
    ensures Like(s, SearchPattern(q)) == Some(Contains(s, q))
  {
    var tokens := Literals(q) + [AnyString];
    PercentIsAny();
    EscapedIsLiteral(q, "%", [AnyString]);
    assert SearchPattern(q)[1..] == Escape(q) + "%";
    assert Tokens(Escape(q) + "%") == Some(tokens);
    assert Tokens(SearchPattern(q)) == Some([AnyString] + tokens);
    forall k: nat | k <= |s| ensures Matches(s[k..], tokens) <==> OccursAt(q, s, k) {
      LiteralMatches(q, s[k..], [AnyString]);
      if q <= s[k..] {
        TrailingAny(s[k..][|q|..]);
        assert s[k..][..|q|] == s[k..k + |q|];
      }
    }
    assert ([AnyString] + tokens)[1..] == tokens;
    if Contains(s, q) {
      var i: nat :| OccursAt(q, s, i);
      assert Matches(s[i..], tokens);
    }
  }

  lemma {:induction false} FoldedEscape(q: string, fold: char -> char)
    requires KeepsSpecials(fold)
    ensures Folded(Escape(q), fold) == Escape(Folded(q, fold))
  {
    if q != "" {
      FoldedEscape(q[1..], fold);
      FoldedJoin(EscapedChar(q[0]), Escape(q[1..]), fold);
      assert Folded(q, fold)[1..] == Folded(q[1..], fold);
      assert IsSpecial('\\') && fold('\\') == '\\';
      assert IsSpecial(q[0]) <==> IsSpecial(fold(q[0]));
      assert Folded(EscapedChar(q[0]), fold) == EscapedChar(fold(q[0]));
    }
  }

  lemma FoldedPattern(q: string, fold: char -> char)
    requires KeepsSpecials(fold)
    ensures Folded(SearchPattern(q), fold) == SearchPattern(Folded(q, fold))
  {
    FoldedEscape(q, fold);
    assert IsSpecial('%') && fold('%') == '%';
    FoldedJoin("%" + Escape(q), "%", fold);
    FoldedJoin("%", Escape(q), fold);
    assert |Folded("%", fold)| == 1;
  }

  lemma FoldedJoin(a: string, b: string, fold: char -> char)
    ensures Folded(a + b, fold) == Folded(a, fold) + Folded(b, fold)
  {
    var whole, joined := Folded(a + b, fold), Folded(a, fold) + Folded(b, fold);
    forall i | 0 <= i < |whole| ensures whole[i] == joined[i] {
      assert whole[i] == fold((a + b)[i]);
    }
  }

  /** The same without regard to case: ILIKE finds exactly the texts whose folding contains the folded query. */
  lemma EscapeKeepsMeaningFolded(s: string, q: string, fold: char -> char)
    requires KeepsSpecials(fold)
    ensures ILike(s, SearchPattern(q), fold) == Some(Contains(Folded(s, fold), Folded(q, fold)))
  {
    FoldedPattern(q, fold);
    EscapeKeepsMeaning(Folded(s, fold), Folded(q, fold));
  }
}
