/**
 * The search-text parser (`src/query/parsing/`): `nom` combinators over
 * the query text, returning the leftover input and the parsed
 * `EntrySearchQuery`.
 *
 * A parser either succeeds with the leftover input and a value, or fails.
 * A failure is a plain error (`nom::Err::Error`), after which `alt` tries
 * its next alternative, or a cut (`nom::Err::Failure`), which `alt`
 * passes straight up. Error traces are not modelled.
 *
 * Every word, bare or quoted, becomes the entries carrying a tag with that
 * text or one of its descendants:
 * `EntriesWithTags(EqTagOrChildren(EqTagString(w)))`.
 */
module Parsing {
  import opened Wrappers
  import opened Text
  import TagFilters
  import opened Sql
  import opened EntryFilters

  datatype PResult<T> = Done(rest: string, value: T) | Fail(cut: bool)

  /** A successful parse never leaves more input than it was given. */
  predicate Leaves<T>(p: PResult<T>, s: string)
  {
    p.Done? ==> |p.rest| <= |s|
  }

  /** `nom::branch::alt` of two parsers already run on the same input. */
  function Alt<T>(a: PResult<T>, b: PResult<T>): (r: PResult<T>)
    ensures a.Done? ==> r == a
    ensures a.Fail? && a.cut ==> r == a
    ensures a.Fail? && !a.cut ==> r == b
  {
    if a.Fail? && !a.cut then b else a
  }

  /** The character classes the parser's `take_while` calls test for. */
  datatype CharClass = Spaces | WordChars | NonQuotes | Digits

  predicate InClass(c: char, p: CharClass)
  {
    match p
    case Spaces => IsSpace(c)
    case WordChars => IsWordChar(c)
    case NonQuotes => c != '"'
    case Digits => IsDigit(c)
  }

  /** `take_while`: the length of the longest prefix whose characters are in class `p`. */
  function TakeWhile(s: string, p: CharClass): (k: nat)
    ensures k <= |s|
  {
    if s != [] && InClass(s[0], p) then 1 + TakeWhile(s[1..], p) else 0
  }

  /** The prefix `take_while` takes satisfies `p` throughout and cannot be extended. */
  lemma {:induction false} TakeWhileMaximal(s: string, p: CharClass)
    ensures forall i :: 0 <= i < TakeWhile(s, p) ==> InClass(s[i], p)
    ensures TakeWhile(s, p) == |s| || !InClass(s[TakeWhile(s, p)], p)
  {
    if s != [] && InClass(s[0], p) {
      TakeWhileMaximal(s[1..], p);
      assert forall i :: 1 <= i < TakeWhile(s, p) ==> s[i] == s[1..][i - 1];
    }
  }

  /**
   * `sp` skips the longest prefix of spaces, tabs, carriage returns and line
   * feeds and never fails. `sp1` has the same body, so it too accepts no
   * whitespace at all; the parsers below use this one function for both.
   */
  function Sp(s: string): (r: string)
    ensures |r| <= |s|
  {
    var k := TakeWhile(s, Spaces);
    if k == 0 then s else s[k..]
  }

  /** `sp` drops only whitespace from the front, stops at the first other character, and a second `sp` takes nothing. */
  lemma SpSkipsSpaces(s: string)
    ensures s == s[..|s| - |Sp(s)|] + Sp(s)
    ensures forall i :: 0 <= i < |s| - |Sp(s)| ==> IsSpace(s[i])
    ensures Sp(s) == [] || !IsSpace(Sp(s)[0])
    ensures Sp(Sp(s)) == Sp(s)
  {
    TakeWhileMaximal(s, Spaces);
    var t := Sp(s);
    if t != [] {
      assert TakeWhile(t, Spaces) == 0;
    }
  }

  predicate IsWordChar(c: char) { IsAlphanumeric(c) || c == '_' }

  /**
   * `parse_tag_string`: after whitespace, the maximal non-empty run of
   * alphanumeric characters and underscores; it fails, without a cut,
   * exactly when no such character comes first. The source wraps the word
   * as `AnyTagString::new1(word)`; the word here stands for that
   * one-element list.
   */
  function TagString(s: string): (r: PResult<string>)
    ensures r.Done? <==> Sp(s) != [] && IsWordChar(Sp(s)[0])
    ensures Leaves(r, s)
    ensures r.Fail? ==> !r.cut
  {
    var t := Sp(s);
    var k := TakeWhile(t, WordChars);
    if k == 0 then Fail(false)
    else
      Done(t[k..], t[..k])
  }

  /** The word is the whole run: it and the leftover make up the input after whitespace. */
  lemma TagStringWord(s: string)
    requires TagString(s).Done?
    ensures Sp(s) == TagString(s).value + TagString(s).rest
    ensures TagString(s).value != []
    ensures forall i :: 0 <= i < |TagString(s).value| ==> IsWordChar(TagString(s).value[i])
    ensures TagString(s).rest == [] || !IsWordChar(TagString(s).rest[0])
  {
    var t := Sp(s);
    TakeWhileMaximal(t, WordChars);
    var k := TakeWhile(t, WordChars);
    assert t == t[..k] + t[k..];
  }


  /**
   * `parse_tag_string_escaped`: after whitespace, a double quote, at least
   * one other character, and the closing quote. Once the opening quote is
   * read, empty content or a missing closing quote is a cut. As for
   * `TagString`, the text stands for `AnyTagString::new1(text)`.
   */
  function TagStringEscaped(s: string): (r: PResult<string>)
    ensures Leaves(r, s)
    ensures r.Fail? ==> (r.cut <==> Sp(s) != [] && Sp(s)[0] == '"')
    ensures Sp(s) == [] || Sp(s)[0] != '"' ==> r.Fail?
  {
    var t := Sp(s);
    if t == [] || t[0] != '"' then Fail(false)
    else
      var u := t[1..];
      var k := TakeWhile(u, NonQuotes);
      if k == 0 || k == |u| then Fail(true)
      else
        Done(u[k + 1..], u[..k])
  }

  /** The quoted text is everything between the quotes; it holds no quote and may hold spaces and keywords. */
  lemma TagStringEscapedText(s: string)
    requires TagStringEscaped(s).Done?
    ensures Sp(s) == "\"" + TagStringEscaped(s).value + "\"" + TagStringEscaped(s).rest
    ensures TagStringEscaped(s).value != []
    ensures forall i :: 0 <= i < |TagStringEscaped(s).value| ==> TagStringEscaped(s).value[i] != '"'
  {
    var t := Sp(s);
    var u := t[1..];
    TakeWhileMaximal(u, NonQuotes);
    var k := TakeWhile(u, NonQuotes);
    assert u == u[..k] + [u[k]] + u[k + 1..];
    assert t == [t[0]] + u;
  }

  /** `tag_no_case(kw)`: the next `|kw|` characters equal `kw` up to ASCII case. */
  function TagNoCase(s: string, kw: string): (r: PResult<string>)
    ensures r.Done? <==> |kw| <= |s| && ToLower(s[..|kw|]) == ToLower(kw)
    ensures r.Done? ==> r.rest == s[|kw|..] && r.value == s[..|kw|]
    ensures r.Fail? ==> !r.cut
  {
    if |kw| <= |s| && ToLower(s[..|kw|]) == ToLower(kw) then Done(s[|kw|..], s[..|kw|]) else Fail(false)
  }

  /** `char(c)` between two `sp`: `sp_arround(char(c))`. */
  function SpAroundChar(s: string, c: char): (r: PResult<char>)
    ensures r.Done? <==> Sp(s) != [] && Sp(s)[0] == c
    ensures r.Done? ==> r.value == c && |r.rest| < |s|
    ensures Leaves(r, s)
    ensures r.Fail? ==> !r.cut
  {
    var t := Sp(s);
    if t != [] && t[0] == c then
      Done(Sp(t[1..]), c)
    else
      Fail(false)
  }

  const MinI64: int := -0x8000_0000_0000_0000
  const MaxI64: int := 0x7FFF_FFFF_FFFF_FFFF

  /**
   * `nom::character::complete::i64`: an optional `+` or `-`, then at least
   * one decimal digit; a value outside the 64-bit range is an error.
   */
  function I64(s: string): (r: PResult<int>)
    ensures r.Done? ==> MinI64 <= r.value <= MaxI64
    ensures r.Done? ==> |r.rest| <= |s| && (r.rest == [] || !IsDigit(r.rest[0]))
    ensures r.Fail? ==> !r.cut
  {
    var negative := s != [] && s[0] == '-';
    var u := if s != [] && (s[0] == '-' || s[0] == '+') then s[1..] else s;
    var k := TakeWhile(u, Digits);
    TakeWhileMaximal(u, Digits);
    if k == 0 then Fail(false)
    else
      assert AllDigits(u[..k]);
      var v: int := DigitsValue(u[..k]);
      var value: int := if negative then -v else v;
      if value < MinI64 || MaxI64 < value then Fail(false) else Done(u[k..], value)
  }

  /**
   * `parse_tag_id`: whitespace, the case-sensitive literal `tag_id:`,
   * whitespace and a signed 64-bit integer; the id goes into a singleton
   * `AnyTagId`. No alternative of the grammar below calls it.
   */
  function TagId(s: string): (r: PResult<int>)
    ensures r.Done? ==> IsPrefix("tag_id:", Sp(s)) && r == I64(Sp(Sp(s)[7..]))
    ensures !IsPrefix("tag_id:", Sp(s)) ==> r == Fail(false)
    ensures Leaves(r, s)
  {
    var t := Sp(s);
    if !IsPrefix("tag_id:", t) then Fail(false)
    else
      var u := Sp(t[7..]);
      var r := I64(u);
      r
  }

  /** A word as the grammar reads it: the entries tagged with it or with a descendant. */
  function WordQuery(w: string): (r: EntryQuery)
    ensures EntryBinds(r) == [StrValue(w)]
    ensures r.EntriesWithTags? && r.tags.EqTagOrChildren? && r.tags.inner == TagFilters.EqTagString(w)
  {
    IntoEntryFilter(TagFilters.AddChildrenTags(TagFilters.EqTagStringOf(w)))
  }

  /** `map(parse_tag_string…, …)`: a word parse turned into its query. */
  function MapWord(p: PResult<string>): (r: PResult<EntryQuery>)
    ensures r.Done? <==> p.Done?
    ensures r.Done? ==> r.rest == p.rest && r.value == WordQuery(p.value)
    ensures r.Fail? ==> r.cut == p.cut
  {
    match p
    case Done(rest, w) => Done(rest, WordQuery(w))
    case Fail(cut) => Fail(cut)
  }

  /** The queries the grammar can build: words joined by AND and OR. */
  predicate WordTree(q: EntryQuery)
  {
    match q
    case EntriesWithTags(t) => t.EqTagOrChildren? && t.inner.EqTagString?
    case And(a, b) => WordTree(a) && WordTree(b)
    case Or(a, b) => WordTree(a) && WordTree(b)
    case _ => false
  }

  /*
   * The grammar. The functions call each other on the input or a suffix of
   * it; each call either shortens the input or goes down in this order:
   * expression, the two-operand rules, token-or-group, token and group,
   * explicit NOT.
   */

  /**
   * `parse_expression`: whitespace, then the first of explicit OR,
   * explicit AND, implicit AND and a single token or group that succeeds.
   */
  function Expression(s: string): (r: PResult<EntryQuery>)
    ensures Leaves(r, s)
    ensures r.Done? ==> WordTree(r.value)
    decreases |s|, 5
  {
    var t := Sp(s);
    var r := Alt(ExplicitOr(t), Alt(ExplicitAnd(t), Alt(ImplicitAnd(t), TokenOrSubexpr(t))));
    r
  }

  /**
   * `separated_pair(parse_filter_token_or_subexpr, sep,
   * parse_filter_token_or_subexpr)` where `sep` is `sp1`, then the keyword
   * matched without case, then `sp1`, or `sp1` alone when there is no
   * keyword.
   */
  function Operands(s: string, keyword: Option<string>): (r: PResult<(EntryQuery, EntryQuery)>)
    ensures Leaves(r, s)
    ensures r.Done? ==> WordTree(r.value.0) && WordTree(r.value.1)
    decreases |s|, 3
  {
    var left := TokenOrSubexpr(s);
    if left.Fail? then Fail(left.cut)
    else
      var sep := Separator(left.rest, keyword);
      if sep.Fail? then Fail(sep.cut)
      else
        var right := TokenOrSubexpr(sep.rest);
        if right.Fail? then Fail(right.cut)
        else
          Done(right.rest, (left.value, right.value))
  }

  /** The separator of a two-operand rule: `sp1`, and when given, the keyword without case and `sp1` again. */
  function Separator(s: string, keyword: Option<string>): (r: PResult<string>)
    ensures Leaves(r, s)
    ensures r.Fail? ==> !r.cut && keyword.Some?
  {
    var t := Sp(s);
    if keyword.None? then Done(t, "")
    else
      var kw := TagNoCase(t, keyword.value);
      if kw.Fail? then Fail(false)
      else
        Done(Sp(kw.rest), kw.value)
  }

  /** `parse_explicit_or`: two operands around `or`, kept in order. */
  function ExplicitOr(s: string): (r: PResult<EntryQuery>)
    ensures Leaves(r, s)
    ensures r.Done? ==> r.value.Or? && WordTree(r.value)
    decreases |s|, 4
  {
    match Operands(s, Some("or"))
    case Done(rest, (a, b)) => Done(rest, OrOf(a, b))
    case Fail(cut) => Fail(cut)
  }

  /** `parse_explicit_and`: two operands around `and`, joined by `and`. */
  function ExplicitAnd(s: string): (r: PResult<EntryQuery>)
    ensures Leaves(r, s)
    ensures r.Done? ==> r.value.And? && WordTree(r.value)
    decreases |s|, 4
  {
    match Operands(s, Some("and"))
    case Done(rest, (a, b)) => Done(rest, AndOf(a, b))
    case Fail(cut) => Fail(cut)
  }

  /** `parse_implicit_and`: two operands separated by `sp1` only, joined by `and`. */
  function ImplicitAnd(s: string): (r: PResult<EntryQuery>)
    ensures Leaves(r, s)
    ensures r.Done? ==> r.value.And? && WordTree(r.value)
    decreases |s|, 4
  {
    match Operands(s, None)
    case Done(rest, (a, b)) => Done(rest, AndOf(a, b))
    case Fail(cut) => Fail(cut)
  }

  /** `parse_filter_token_or_subexpr`: whitespace, then a token, else a group. */
  function TokenOrSubexpr(s: string): (r: PResult<EntryQuery>)
    ensures Leaves(r, s)
    ensures r.Done? ==> WordTree(r.value)
    decreases |s|, 2
  {
    var t := Sp(s);
    var r := Alt(FilterToken(t), Parenthesis(t));
    r
  }

  /**
   * `parse_filter_token`: whitespace, then a bare word, else a quoted word,
   * else an explicit NOT. The last alternative never succeeds: a NOT starts
   * with a letter, which the bare-word alternative has already taken.
   */
  function FilterToken(s: string): (r: PResult<EntryQuery>)
    ensures Leaves(r, s)
    ensures r.Done? ==> r.value.EntriesWithTags? && WordTree(r.value)
    decreases |s|, 1
  {
    var t := Sp(s);
    var r := Alt(MapWord(TagString(t)), Alt(MapWord(TagStringEscaped(t)), ExplicitNot(t)));
    r
  }

  /**
   * `parse_parentesis`: `(` between whitespace, an expression, and `)`
   * between whitespace. Once the `(` is read the rest is committed: any
   * failure after it is a cut.
   */
  function Parenthesis(s: string): (r: PResult<EntryQuery>)
    ensures Leaves(r, s)
    ensures r.Done? ==> WordTree(r.value)
    ensures r.Fail? ==> (r.cut <==> SpAroundChar(s, '(').Done?)
    decreases |s|, 1
  {
    var open := SpAroundChar(s, '(');
    if open.Fail? then Fail(false)
    else
      var inner := Expression(open.rest);
      if inner.Fail? then Fail(true)
      else
        var close := SpAroundChar(inner.rest, ')');
        if close.Fail? then Fail(true)
        else
          Done(close.rest, inner.value)
  }

  /**
   * `parse_explicit_not`: whitespace, `not` matched without case, `sp1`,
   * then one token or group, negated once. Whenever it succeeds, the
   * bare-word parser succeeds on the same input.
   */
  function ExplicitNot(s: string): (r: PResult<EntryQuery>)
    ensures Leaves(r, s)
    ensures r.Done? ==> r.value.Not? && WordTree(r.value.inner)
    ensures r.Done? ==> TagString(s).Done?
    decreases |s|, 0
  {
    var sep := Separator(s, Some("not"));
    if sep.Fail? then Fail(false)
    else
      NotStartsWord(s);
      var inner := TokenOrSubexpr(sep.rest);
      if inner.Fail? then Fail(inner.cut)
      else
        Done(inner.rest, NotOf(inner.value))
  }

  /** Input that starts with `not` in any case starts with a word. */
  lemma NotStartsWord(s: string)
    ensures Separator(s, Some("not")).Done? ==> TagString(s).Done? && |Separator(s, Some("not")).rest| < |s|
  {
    if Separator(s, Some("not")).Done? {
      var t := Sp(s);
      assert ToLower(t[..3]) == ToLower("not");
      assert LowerChar(t[0]) == ToLower(t[..3])[0];
      assert LowerChar(t[0]) == 'n';
    }
  }

  /** `InvalidSearchString`; the `nom` trace it carries is not modelled. */
  datatype ParseError = InvalidSearchString

  /**
   * `EntrySearchQuery::parse`: the expression's value, whatever input is
   * left over after it; any failure becomes `InvalidSearchString`.
   */
  function Parse(input: string): (r: Result<EntryQuery, ParseError>)
    ensures r.Ok? <==> Expression(input).Done?
    ensures r.Ok? ==> WordTree(r.value)
  {
    match Expression(input)
    case Done(_, value) => Ok(value)
    case Fail(_) => Err(InvalidSearchString)
  }

  /*
   * What each parser returns on input of a known shape. The examples in
   * `ParserExamples` are read off with these.
   */

  /** `take_while` stops exactly at the first character that fails `p`. */
  lemma {:induction false} TakeWhileAt(s: string, p: CharClass, k: nat)
    requires k <= |s| && (forall i :: 0 <= i < k ==> InClass(s[i], p)) && (k == |s| || !InClass(s[k], p))
    ensures TakeWhile(s, p) == k
    decreases k
  {
    if k > 0 {
      assert forall i :: 0 <= i < k - 1 ==> s[1..][i] == s[i + 1];
      TakeWhileAt(s[1..], p, k - 1);
    }
  }

  predicate AllSpaces(s: string) { forall i :: 0 <= i < |s| ==> IsSpace(s[i]) }

  lemma SpOver(s: string, blank: string, rest: string)
    requires s == blank + rest
    requires AllSpaces(blank) && (rest == [] || !IsSpace(rest[0]))
    ensures Sp(s) == rest
  {
    TakeWhileAt(s, Spaces, |blank|);
    assert s[|blank|..] == rest;
  }

  /** A run of word characters after whitespace is the word `parse_tag_string` returns. */
  lemma WordAt(s: string, blank: string, w: string, rest: string)
    requires s == blank + w + rest
    requires AllSpaces(blank) && w != [] && (forall i :: 0 <= i < |w| ==> IsWordChar(w[i]))
    requires rest == [] || !IsWordChar(rest[0])
    ensures TagString(s) == Done(rest, w)
  {
    assert s == blank + (w + rest);
    SpOver(s, blank, w + rest);
    TakeWhileAt(w + rest, WordChars, |w|);
    assert (w + rest)[..|w|] == w;
  }

  /** Quoted text after whitespace is the word `parse_tag_string_escaped` returns. */
  lemma QuotedAt(s: string, blank: string, w: string, rest: string)
    requires s == blank + "\"" + w + "\"" + rest
    requires AllSpaces(blank) && w != [] && (forall i :: 0 <= i < |w| ==> w[i] != '"')
    ensures TagStringEscaped(s) == Done(rest, w)
  {
    var t := "\"" + w + "\"" + rest;
    assert s == blank + t;
    SpOver(s, blank, t);
    var u := t[1..];
    assert u == w + "\"" + rest;
    TakeWhileAt(u, NonQuotes, |w|);
    assert u[..|w|] == w;
    assert u[|w| + 1..] == rest;
  }

  /** A keyword after whitespace is a separator; the whitespace after it is skipped. */
  lemma KeywordAt(s: string, blank: string, kw: string, rest: string)
    requires s == blank + kw + rest
    requires AllSpaces(blank) && kw != [] && !IsSpace(kw[0])
    ensures Separator(s, Some(kw)) == Done(Sp(rest), kw)
  {
    assert s == blank + (kw + rest);
    SpOver(s, blank, kw + rest);
    assert (kw + rest)[..|kw|] == kw;
    assert (kw + rest)[|kw|..] == rest;
  }

  /** Input whose first non-blank character differs from the keyword's, case aside, is no separator. */
  lemma KeywordMismatch(s: string, kw: string)
    requires kw != [] && Sp(s) != [] && LowerChar(Sp(s)[0]) != LowerChar(kw[0])
    ensures Separator(s, Some(kw)) == Fail(false)
  {
    var t := Sp(s);
    if |kw| <= |t| {
      assert ToLower(t[..|kw|])[0] != ToLower(kw)[0];
    }
  }

  /** A bare word is a whole token: the alternatives after it are never tried. */
  lemma WordToken(s: string)
    requires TagString(s).Done?
    ensures FilterToken(s) == MapWord(TagString(s))
    ensures TokenOrSubexpr(s) == MapWord(TagString(s))
  {
    SpSkipsSpaces(s);
  }

  /** A quoted word is a whole token. */
  lemma QuotedToken(s: string)
    requires TagStringEscaped(s).Done?
    ensures FilterToken(s) == MapWord(TagStringEscaped(s))
    ensures TokenOrSubexpr(s) == MapWord(TagStringEscaped(s))
  {
    SpSkipsSpaces(s);
    assert Sp(s) != [] && Sp(s)[0] == '"';
    assert TagStringEscaped(Sp(s)) == TagStringEscaped(s);
    assert !TagString(Sp(s)).Done?;
  }

  /** Input that starts with neither a word character nor a quote is not a token; only a group can match it. */
  lemma NoToken(s: string)
    requires Sp(s) == [] || (!IsWordChar(Sp(s)[0]) && Sp(s)[0] != '"')
    ensures FilterToken(s) == Fail(false)
    ensures TokenOrSubexpr(s) == Parenthesis(Sp(s))
  {
    SpSkipsSpaces(s);
    NotStartsWord(Sp(s));
  }

  /** Two operands around a separator: the two-operand rules build their node from them, in order. */
  lemma OperandsAt(s: string, keyword: Option<string>, mid: string, a: EntryQuery, b: EntryQuery, rest: string)
    requires TokenOrSubexpr(s) == Done(mid, a)
    requires Separator(mid, keyword).Done?
    requires TokenOrSubexpr(Separator(mid, keyword).rest) == Done(rest, b)
    ensures Operands(s, keyword) == Done(rest, (a, b))
    ensures keyword == Some("or") ==> ExplicitOr(s) == Done(rest, OrOf(a, b))
    ensures keyword == Some("and") ==> ExplicitAnd(s) == Done(rest, AndOf(a, b))
    ensures keyword == None ==> ImplicitAnd(s) == Done(rest, AndOf(a, b))
  {
  }

  /** A first operand with no separator after it: the two-operand rule fails without a cut. */
  lemma NoSeparatorAt(s: string, keyword: Option<string>, mid: string, a: EntryQuery)
    requires TokenOrSubexpr(s) == Done(mid, a)
    requires Separator(mid, keyword).Fail?
    ensures Operands(s, keyword) == Fail(false)
    ensures keyword == Some("or") ==> ExplicitOr(s) == Fail(false)
    ensures keyword == Some("and") ==> ExplicitAnd(s) == Fail(false)
    ensures keyword == None ==> ImplicitAnd(s) == Fail(false)
  {
  }

  /** A first operand and a separator with no operand after them: the rule fails as that operand does. */
  lemma NoSecondOperandAt(s: string, keyword: Option<string>, mid: string, a: EntryQuery)
    requires TokenOrSubexpr(s) == Done(mid, a)
    requires Separator(mid, keyword).Done?
    requires TokenOrSubexpr(Separator(mid, keyword).rest).Fail?
    ensures Operands(s, keyword) == Fail(TokenOrSubexpr(Separator(mid, keyword).rest).cut)
    ensures keyword == Some("or") ==> ExplicitOr(s) == Fail(TokenOrSubexpr(Separator(mid, keyword).rest).cut)
    ensures keyword == Some("and") ==> ExplicitAnd(s) == Fail(TokenOrSubexpr(Separator(mid, keyword).rest).cut)
    ensures keyword == None ==> ImplicitAnd(s) == Fail(TokenOrSubexpr(Separator(mid, keyword).rest).cut)
  {
  }

  /** `not` and an operand after it: the explicit NOT negates that operand. */
  lemma NotAt(s: string, a: EntryQuery, rest: string)
    requires Separator(s, Some("not")).Done?
    requires TokenOrSubexpr(Separator(s, Some("not")).rest) == Done(rest, a)
    ensures ExplicitNot(s) == Done(rest, NotOf(a))
  {
  }

  /** A first operand that fails fails every two-operand rule the same way. */
  lemma NoFirstOperandAt(s: string)
    requires TokenOrSubexpr(s).Fail?
    ensures ExplicitOr(s) == TokenOrSubexpr(s)
    ensures ExplicitAnd(s) == TokenOrSubexpr(s)
    ensures ImplicitAnd(s) == TokenOrSubexpr(s)
  {
    assert Operands(s, Some("or")) == Fail(TokenOrSubexpr(s).cut);
    assert Operands(s, Some("and")) == Fail(TokenOrSubexpr(s).cut);
    assert Operands(s, None) == Fail(TokenOrSubexpr(s).cut);
  }

  /** An expression is its explicit OR when that one succeeds. */
  lemma ExpressionIsOr(s: string)
    requires ExplicitOr(Sp(s)).Done?
    ensures Expression(s) == ExplicitOr(Sp(s))
  {
  }

  /** An expression is its implicit AND when the two keyword rules fail without a cut and it succeeds. */
  lemma ExpressionIsImplicitAnd(s: string)
    requires ExplicitOr(Sp(s)) == Fail(false) && ExplicitAnd(Sp(s)) == Fail(false)
    requires ImplicitAnd(Sp(s)).Done?
    ensures Expression(s) == ImplicitAnd(Sp(s))
  {
  }

  /** An expression is a single token or group when the three two-operand rules fail without a cut. */
  lemma ExpressionIsSingle(s: string)
    requires ExplicitOr(Sp(s)) == Fail(false) && ExplicitAnd(Sp(s)) == Fail(false) && ImplicitAnd(Sp(s)) == Fail(false)
    ensures Expression(s) == TokenOrSubexpr(Sp(s))
  {
  }

  /** A cut in the first rule tried ends the whole expression. */
  lemma ExpressionCut(s: string)
    requires ExplicitOr(Sp(s)) == Fail(true)
    ensures Expression(s) == Fail(true)
  {
  }

  /** `(`, an expression, `)`: the group's value is the expression's. */
  lemma GroupAt(s: string, inner: string, v: EntryQuery, after: string, rest: string)
    requires SpAroundChar(s, '(') == Done(inner, '(')
    requires Expression(inner) == Done(after, v)
    requires SpAroundChar(after, ')') == Done(rest, ')')
    ensures Parenthesis(s) == Done(rest, v)
  {
  }

  /** `(` and an expression but no `)`: the group fails with a cut. */
  lemma UnclosedGroupAt(s: string, inner: string, v: EntryQuery, after: string)
    requires SpAroundChar(s, '(') == Done(inner, '(')
    requires Expression(inner) == Done(after, v)
    requires SpAroundChar(after, ')').Fail?
    ensures Parenthesis(s) == Fail(true)
  {
  }

  /** A one-character string and text after it: `sp_arround(char(c))` reads the character and the blanks after it. */
  lemma CharAt(s: string, open: string, c: char, rest: string)
    requires s == open + rest && open == [c] && !IsSpace(c)
    ensures SpAroundChar(s, c) == Done(Sp(rest), c)
  {
    SpOver(s, "", s);
    assert s[1..] == rest;
  }
}
