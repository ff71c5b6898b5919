/**
 * The search texts of the parser's own unit tests, stated for every word
 * in place of the words the tests use, and a few more texts that show how
 * the grammar reads keywords, spacing and leftover input.
 */
module ParserExamples {
  import opened Wrappers
  import opened Text
  import opened Parsing
  import opened EntryFilters

  /** A bare word: one or more alphanumeric characters or underscores. */
  predicate IsWord(w: string)
  {
    w != [] && forall i :: 0 <= i < |w| ==> IsWordChar(w[i])
  }

  /** Text that can stand between two double quotes. */
  predicate IsQuotable(p: string)
  {
    p != [] && forall i :: 0 <= i < |p| ==> p[i] != '"'
  }

  /** `parse_tag_string` takes the word and leaves the rest, a following keyword included. */
  lemma TagStringTest(w1: string, w2: string)
    requires IsWord(w1) && IsWord(w2)
    ensures TagString(" " + w1 + " ") == Done(" ", w1)
    ensures TagString(" " + w1 + " and " + w2 + " ") == Done(" and " + w2 + " ", w1)
  {
    WordAt(" " + w1 + " ", " ", w1, " ");
    WordAt(" " + w1 + " and " + w2 + " ", " ", w1, " and " + w2 + " ");
  }

  /** `parse_tag_string_escaped` returns the text between the quotes, spaces and keywords included. */
  lemma TagStringEscapedTest(p: string)
    requires IsQuotable(p)
    ensures TagStringEscaped(" \"" + p + "\" ") == Done(" ", p)
    ensures TagStringEscaped(" \"" + p + "\"") == Done("", p)
  {
    var x := " \"" + p;
    assert " \"" == " " + "\"";
    assert "\" " == "\"" + " ";
    Assoc(x, "\"", " ");
    QuotedAt(x + "\"" + " ", " ", p, " ");
    assert x + "\"" == x + "\"" + "";
    QuotedAt(x + "\"", " ", p, "");
  }

  /** An opening quote without a closing one commits the parse: a cut, not a plain error. */
  lemma UnclosedQuoteIsCut(p: string)
    requires forall i :: 0 <= i < |p| ==> p[i] != '"'
    ensures TagStringEscaped(" \"" + p) == Fail(true)
  {
    SpOver(" \"" + p, " ", "\"" + p);
    var u := ("\"" + p)[1..];
    assert u == p;
    TakeWhileAt(u, NonQuotes, |u|);
  }

  /** `parse_explicit_not` on its own negates the word after it; a quoted phrase is no NOT. */
  lemma ExplicitNotTest(w: string, p: string)
    requires IsWord(w) && IsQuotable(p)
    ensures ExplicitNot(" not " + w + " ") == Done(" ", NotOf(WordQuery(w)))
    ensures ExplicitNot(" \"" + p + "\"").Fail?
  {
    KeywordBefore(" not ", "not", w, " ");
    SecondWord(" ", w);
    NotAt(" not " + w + " ", WordQuery(w), " ");
    QuotedIsNoNot(" \"" + p + "\"", p);
  }

  lemma QuotedIsNoNot(s: string, p: string)
    requires s == " \"" + p + "\""
    ensures ExplicitNot(s).Fail?
  {
    SpOver(s, " ", "\"" + p + "\"");
    KeywordMismatch(s, "not");
  }

  /** Nothing is left to parse: no token, no group, no two-operand rule. */
  lemma NothingLeft()
    ensures TokenOrSubexpr("") == Fail(false)
    ensures Separator("", Some("or")) == Fail(false) && Separator("", Some("and")) == Fail(false)
    ensures Separator("", None) == Done("", "")
  {
    SpOver("", "", "");
    NoToken("");
  }

  /** A word followed by one space and a word, the second word's operand parse. */
  lemma SecondWord(sep: string, w: string)
    requires IsWord(w) && (sep == [] || !IsWordChar(sep[0]))
    ensures TokenOrSubexpr(w + sep) == Done(sep, WordQuery(w))
  {
    assert "" + w == w;
    WordAt(w + sep, "", w, sep);
    WordToken(w + sep);
  }

  /** A word after blanks is the first operand; the parse stops at the first character after it. */
  lemma FirstWord(blank: string, w: string, rest: string)
    requires AllSpaces(blank) && IsWord(w) && (rest == [] || !IsWordChar(rest[0]))
    ensures TokenOrSubexpr(blank + w + rest) == Done(rest, WordQuery(w))
  {
    WordAt(blank + w + rest, blank, w, rest);
    WordToken(blank + w + rest);
  }

  /** A keyword between single spaces, then a word: the separator stops at the word. */
  lemma KeywordBefore(sep: string, kw: string, w: string, rest: string)
    requires sep == " " + kw + " "
    requires kw != [] && !IsSpace(kw[0]) && IsWord(w)
    ensures Separator(sep + w + rest, Some(kw)) == Done(w + rest, kw)
  {
    SpOver(" " + w + rest, " ", w + rest);
    Regroup(" ", kw, " ", w, rest);
    KeywordAt(sep + w + rest, " ", kw, " " + w + rest);
  }

  lemma Regroup(a: string, b: string, c: string, d: string, e: string)
    ensures a + b + (c + d + e) == a + b + c + d + e
  {
  }

  /** Two words around a separator: each word is one operand, in order. */
  lemma TwoWords(blank: string, w1: string, sep: string, w2: string, rest: string, keyword: Option<string>)
    requires AllSpaces(blank) && IsWord(w1) && IsWord(w2)
    requires sep != [] && !IsWordChar(sep[0]) && (rest == [] || !IsWordChar(rest[0]))
    requires Separator(sep + w2 + rest, keyword).Done? && Separator(sep + w2 + rest, keyword).rest == w2 + rest
    ensures keyword == Some("or") ==> ExplicitOr(blank + w1 + sep + w2 + rest) == Done(rest, OrOf(WordQuery(w1), WordQuery(w2)))
    ensures keyword == Some("and") ==> ExplicitAnd(blank + w1 + sep + w2 + rest) == Done(rest, AndOf(WordQuery(w1), WordQuery(w2)))
    ensures keyword == None ==> ImplicitAnd(blank + w1 + sep + w2 + rest) == Done(rest, AndOf(WordQuery(w1), WordQuery(w2)))
  {
    var mid := sep + w2 + rest;
    Regroup(blank, w1, sep, w2, rest);
    assert mid[0] == sep[0];
    FirstWord(blank, w1, mid);
    SecondWord(rest, w2);
    OperandsAt(blank + w1 + mid, keyword, mid, WordQuery(w1), WordQuery(w2), rest);
  }

  /** `parse_explicit_and` on the test's shape: two words around `and`, in order. */
  lemma ExplicitAndTest(w1: string, w2: string)
    requires IsWord(w1) && IsWord(w2)
    ensures ExplicitAnd(" " + w1 + " and " + w2 + " ") == Done(" ", AndOf(WordQuery(w1), WordQuery(w2)))
  {
    KeywordBefore(" and ", "and", w2, " ");
    TwoWords(" ", w1, " and ", w2, " ", Some("and"));
  }

  /** `parse_implicit_and` on the test's shape: two words and one space build the same AND. */
  lemma ImplicitAndTest(w1: string, w2: string)
    requires IsWord(w1) && IsWord(w2)
    ensures ImplicitAnd(" " + w1 + " " + w2 + " ") == Done(" ", AndOf(WordQuery(w1), WordQuery(w2)))
  {
    SpOver(" " + w2 + " ", " ", w2 + " ");
    TwoWords(" ", w1, " ", w2, " ", None);
  }

  /** `parse_explicit_or` on the test's shape: two words around `or`, in order. */
  lemma ExplicitOrTest(w1: string, w2: string)
    requires IsWord(w1) && IsWord(w2)
    ensures ExplicitOr(" " + w1 + " or " + w2 + " ") == Done(" ", OrOf(WordQuery(w1), WordQuery(w2)))
  {
    KeywordBefore(" or ", "or", w2, " ");
    TwoWords(" ", w1, " or ", w2, " ", Some("or"));
  }

  /** A quoted phrase is one operand: none of the two-operand rules splits it at a keyword inside. */
  lemma QuotedPhraseNotSplit(p: string)
    requires IsQuotable(p)
    ensures ExplicitAnd(" \"" + p + "\"").Fail?
    ensures ImplicitAnd(" \"" + p + "\"").Fail?
    ensures ExplicitOr(" \"" + p + "\"").Fail?
  {
    var s := " \"" + p + "\"";
    assert TokenOrSubexpr(s) == Done("", WordQuery(p)) by {
      assert s == " " + "\"" + p + "\"" + "";
      QuotedAt(s, " ", p, "");
      QuotedToken(s);
    }
    NothingLeft();
    NoSeparatorAt(s, Some("and"), "", WordQuery(p));
    NoSeparatorAt(s, Some("or"), "", WordQuery(p));
    NoSecondOperandAt(s, None, "", WordQuery(p));
  }

  /** Text that starts with a non-blank character is left as it is by `sp`. */
  lemma NoBlank(s: string)
    requires s != [] && !IsSpace(s[0])
    ensures Sp(s) == s
  {
    SpOver(s, "", s);
  }

  /** A keyword between single spaces, right-nested form. */
  lemma KeywordThen(kw: string, y: string)
    requires kw != [] && !IsSpace(kw[0]) && y != [] && !IsSpace(y[0])
    ensures Separator(" " + (kw + (" " + y)), Some(kw)) == Done(y, kw)
  {
    SpOver(" " + y, " ", y);
    assert " " + (kw + (" " + y)) == " " + kw + (" " + y);
    KeywordAt(" " + (kw + (" " + y)), " ", kw, " " + y);
  }

  /** Two words around a separator, right-nested form. */
  lemma WordsAround(w1: string, sep: string, w2: string, rest: string, keyword: Option<string>)
    requires IsWord(w1) && IsWord(w2)
    requires sep != [] && !IsWordChar(sep[0]) && (rest == [] || !IsWordChar(rest[0]))
    requires Separator(sep, keyword).Done? && Separator(sep, keyword).rest == w2 + rest
    ensures keyword == Some("or") ==> ExplicitOr(w1 + sep) == Done(rest, OrOf(WordQuery(w1), WordQuery(w2)))
    ensures keyword == Some("and") ==> ExplicitAnd(w1 + sep) == Done(rest, AndOf(WordQuery(w1), WordQuery(w2)))
    ensures keyword == None ==> ImplicitAnd(w1 + sep) == Done(rest, AndOf(WordQuery(w1), WordQuery(w2)))
  {
    SecondWord(sep, w1);
    SecondWord(rest, w2);
    OperandsAt(w1 + sep, keyword, sep, WordQuery(w1), WordQuery(w2), rest);
  }

  /** The inner expression of the test: `b or c` followed by `) )`. */
  lemma InnerOr(b: string, c: string)
    requires IsWord(b) && IsWord(c)
    ensures Expression(b + (" " + ("or" + (" " + (c + (")" + (" " + (")"))))))))
      == Done(")" + (" " + ")"), OrOf(WordQuery(b), WordQuery(c)))
  {
    var k := ")" + (" " + ")");
    var s := b + (" " + ("or" + (" " + (c + k))));
    NoBlank(s);
    OrWords(b, c, k);
    ExpressionIsOr(s);
  }

  /** `b or c` followed by text that does not continue the second word. */
  lemma OrWords(b: string, c: string, k: string)
    requires IsWord(b) && IsWord(c) && (k == [] || !IsWordChar(k[0]))
    ensures ExplicitOr(b + (" " + ("or" + (" " + (c + k))))) == Done(k, OrOf(WordQuery(b), WordQuery(c)))
  {
    var m := " " + ("or" + (" " + (c + k)));
    KeywordThen("or", c + k);
    WordsAround(b, m, c, k, Some("or"));
  }

  /** The inner group of the test, `(b or c) )`: the `)` and the blank after it are read. */
  lemma InnerGroup(b: string, c: string)
    requires IsWord(b) && IsWord(c)
    ensures TokenOrSubexpr("(" + (b + (" " + ("or" + (" " + (c + (")" + (" " + (")"))))))))) == Done(")", OrOf(WordQuery(b), WordQuery(c)))
  {
    var k := ")" + (" " + ")");
    var s := b + (" " + ("or" + (" " + (c + k))));
    var g := "(" + s;
    NoBlank(s);
    NoBlank(g);
    NoToken(g);
    SpOver(" " + ")", " ", ")");
    CharAt(g, "(", '(', s);
    CharAt(k, ")", ')', " " + ")");
    InnerOr(b, c);
    GroupAt(g, s, OrOf(WordQuery(b), WordQuery(c)), k, ")");
  }

  /** The middle expression of the test: a word, one space, the inner group; the keyword rules find no keyword. */
  lemma MiddleAnd(a: string, b: string, c: string)
    requires IsWord(a) && IsWord(b) && IsWord(c)
    ensures Expression(a + (" " + ("(" + (b + (" " + ("or" + (" " + (c + (")" + (" " + (")")))))))))))
      == Done(")", AndOf(WordQuery(a), OrOf(WordQuery(b), WordQuery(c))))
  {
    var g := "(" + (b + (" " + ("or" + (" " + (c + (")" + (" " + (")"))))))));
    var m := " " + g;
    var s := a + m;
    NoBlank(s);
    SpOver(m, " ", g);
    KeywordMismatch(m, "or");
    KeywordMismatch(m, "and");
    SecondWord(m, a);
    NoSeparatorAt(s, Some("or"), m, WordQuery(a));
    NoSeparatorAt(s, Some("and"), m, WordQuery(a));
    InnerGroup(b, c);
    OperandsAt(s, None, m, WordQuery(a), OrOf(WordQuery(b), WordQuery(c)), ")");
    ExpressionIsImplicitAnd(s);
  }

  /** The test text in right-nested form. */
  lemma TestShape(a: string, b: string, c: string)
    ensures "(" + a + " (" + b + " or " + c + ") )"
      == "(" + (a + (" " + ("(" + (b + (" " + ("or" + (" " + (c + (")" + (" " + (")")))))))))))
  {
  }

  /** `parse_expression_test`: a word and a parenthesised OR, all inside a group, give AND(word, OR(word, word)). */
  lemma ExpressionTest(a: string, b: string, c: string)
    requires IsWord(a) && IsWord(b) && IsWord(c)
    ensures Expression("(" + a + " (" + b + " or " + c + ") )") == Done("", AndOf(WordQuery(a), OrOf(WordQuery(b), WordQuery(c))))
  {
    var s := a + (" " + ("(" + (b + (" " + ("or" + (" " + (c + (")" + (" " + (")"))))))))));
    var t := "(" + s;
    var v := AndOf(WordQuery(a), OrOf(WordQuery(b), WordQuery(c)));
    TestShape(a, b, c);
    NoBlank(s);
    NoBlank(t);
    NoToken(t);
    NothingLeft();
    SpOver("", "", "");
    CharAt(t, "(", '(', s);
    CharAt(")", ")", ')', "");
    MiddleAnd(a, b, c);
    GroupAt(t, s, v, ")", "");
    NoSeparatorAt(t, Some("or"), "", v);
    NoSeparatorAt(t, Some("and"), "", v);
    NoSecondOperandAt(t, None, "", v);
    ExpressionIsSingle(t);
  }

  /** One word and nothing after it: the word's expression, with nothing left over. */
  lemma WordExpression(w: string)
    requires IsWord(w)
    ensures TokenOrSubexpr(w) == Done("", WordQuery(w))
    ensures Expression(w) == Done("", WordQuery(w))
  {
    NoBlank(w);
    NothingLeft();
    WordAt(w, "", w, "");
    WordToken(w);
    NoSeparatorAt(w, Some("or"), "", WordQuery(w));
    NoSeparatorAt(w, Some("and"), "", WordQuery(w));
    NoSecondOperandAt(w, None, "", WordQuery(w));
    ExpressionIsSingle(w);
  }

  /** A single word is a valid search. */
  lemma ParseWord(w: string)
    requires IsWord(w)
    ensures Parse(w) == Ok(WordQuery(w))
  {
    WordExpression(w);
  }

  /** Blank or empty text is no search: `parse_expression` finds no token and no group. */
  lemma BlankIsError(b: string)
    requires AllSpaces(b)
    ensures Parse(b) == Err(InvalidSearchString)
  {
    SpOver(b, b, "");
    NothingLeft();
    NoFirstOperandAt("");
    ExpressionIsSingle(b);
  }

  /**
   * Two words and whatever follows: `parse_implicit_and` takes the two
   * words and the rest is left over, which `parse` discards. The second
   * word must not start like `or` or `and`, which the keyword rules would
   * try to read first.
   */
  lemma TwoWordsThenRest(a: string, b: string, rest: string)
    requires IsWord(a) && IsWord(b) && (rest == [] || !IsWordChar(rest[0]))
    requires LowerChar(b[0]) != 'o' && LowerChar(b[0]) != 'a'
    ensures Parse(a + (" " + (b + rest))) == Ok(AndOf(WordQuery(a), WordQuery(b)))
  {
    var m := " " + (b + rest);
    var s := a + m;
    NoBlank(s);
    SpOver(m, " ", b + rest);
    KeywordMismatch(m, "or");
    KeywordMismatch(m, "and");
    SecondWord(m, a);
    NoSeparatorAt(s, Some("or"), m, WordQuery(a));
    NoSeparatorAt(s, Some("and"), m, WordQuery(a));
    WordsAround(a, m, b, rest, None);
    ExpressionIsImplicitAnd(s);
  }

  /** A third word is dropped: only the first two reach the query. */
  lemma ThirdWordDropped(a: string, b: string, c: string)
    requires IsWord(a) && IsWord(b) && IsWord(c)
    requires LowerChar(b[0]) != 'o' && LowerChar(b[0]) != 'a'
    ensures Parse(a + " " + b + " " + c) == Ok(AndOf(WordQuery(a), WordQuery(b)))
  {
    assert a + " " + b + " " + c == a + (" " + (b + (" " + c)));
    TwoWordsThenRest(a, b, " " + c);
  }

  /**
   * `not` is read as a bare word: the explicit NOT comes after the bare
   * word in `parse_filter_token`, and every text it accepts starts with a
   * bare word. So `not w` searches for both tags.
   */
  lemma NotIsAWord(w: string)
    requires IsWord(w)
    requires LowerChar(w[0]) != 'o' && LowerChar(w[0]) != 'a'
    ensures Parse("not " + w) == Ok(AndOf(WordQuery("not"), WordQuery(w)))
  {
    assert "not " + w == "not" + (" " + (w + ""));
    assert IsWord("not");
    TwoWordsThenRest("not", w, "");
  }

  /**
   * `sp1` accepts no whitespace at all, so a word that starts with `or`
   * after a word is split into the keyword and the rest of the word:
   * `cat orange` is `cat OR ange`.
   */
  lemma KeywordLedWordSplits(a: string, w: string)
    requires IsWord(a) && IsWord(w)
    ensures Parse(a + " or" + w) == Ok(OrOf(WordQuery(a), WordQuery(w)))
  {
    var m := " or" + w;
    var s := a + m;
    assert a + " or" + w == s;
    NoBlank(s);
    NoBlank(w);
    assert m == " " + "or" + w;
    KeywordAt(m, " ", "or", w);
    SecondWord(m, a);
    WordExpression(w);
    OperandsAt(s, Some("or"), m, WordQuery(a), WordQuery(w), "");
    ExpressionIsOr(s);
  }

  /** No blank is needed between two operands: a word directly followed by a quoted phrase is an AND. */
  lemma AdjacentQuotedAnd(a: string, p: string)
    requires IsWord(a) && IsQuotable(p)
    ensures Parse(a + "\"" + p + "\"") == Ok(AndOf(WordQuery(a), WordQuery(p)))
  {
    var q := "\"" + (p + "\"");
    var s := a + q;
    assert a + "\"" + p + "\"" == s;
    assert q == "" + "\"" + p + "\"" + "";
    NoBlank(s);
    NoBlank(q);
    KeywordMismatch(q, "or");
    KeywordMismatch(q, "and");
    QuotedAt(q, "", p, "");
    QuotedToken(q);
    SecondWord(q, a);
    NoSeparatorAt(s, Some("or"), q, WordQuery(a));
    NoSeparatorAt(s, Some("and"), q, WordQuery(a));
    OperandsAt(s, None, q, WordQuery(a), WordQuery(p), "");
    ExpressionIsImplicitAnd(s);
  }

  /** An opening parenthesis that is never closed fails the whole search: the group's cut reaches `parse`. */
  lemma UnclosedGroup(w: string)
    requires IsWord(w)
    ensures Parse("(" + w) == Err(InvalidSearchString)
  {
    var t := "(" + w;
    NoBlank(t);
    NoBlank(w);
    NoToken(t);
    CharAt(t, "(", '(', w);
    WordExpression(w);
    UnclosedGroupAt(t, w, WordQuery(w), "");
    NoFirstOperandAt(t);
    ExpressionCut(t);
  }

  /** `i64` on a decimal numeral, bare or after `-`: in range it is the number, out of range an error. */
  lemma I64Decimal(n: nat)
    ensures I64(Decimal(n)) == if n <= MaxI64 then Done("", n) else Fail(false)
    ensures I64("-" + Decimal(n)) == if n <= -MinI64 then Done("", -(n as int)) else Fail(false)
  {
    var d := Decimal(n);
    DecimalRoundTrip(n);
    TakeWhileAt(d, Digits, |d|);
    assert d[..|d|] == d;
    assert ("-" + d)[1..] == d;
  }

  /** `parse_tag_id` on `tag_id:` and a numeral: the numeral's value when it fits in 64 bits, an error when not. */
  lemma TagIdDecimal(n: nat)
    ensures TagId("tag_id:" + Decimal(n)) == if n <= MaxI64 then Done("", n) else Fail(false)
  {
    var d := Decimal(n);
    NoBlank(d);
    NoBlank("tag_id:" + d);
    assert ("tag_id:" + d)[..7] == "tag_id:" && ("tag_id:" + d)[7..] == d;
    I64Decimal(n);
  }

  /** A blank may follow `tag_id:`, and the full negative range is accepted. */
  lemma TagIdNegative(n: nat)
    ensures TagId("tag_id: -" + Decimal(n)) == if n <= -MinI64 then Done("", -(n as int)) else Fail(false)
  {
    var d := Decimal(n);
    var s := "tag_id:" + (" " + ("-" + d));
    assert "tag_id: -" + d == s;
    NoBlank(s);
    assert s[..7] == "tag_id:" && s[7..] == " " + ("-" + d);
    SpOver(" " + ("-" + d), " ", "-" + d);
    I64Decimal(n);
  }

  /** The `tag_id:` literal is matched with case. */
  lemma TagIdCaseSensitive(n: nat)
    ensures TagId("TAG_ID:" + Decimal(n)) == Fail(false)
    ensures TagId("Tag_id:" + Decimal(n)) == Fail(false)
  {
    var d := Decimal(n);
    NoBlank("TAG_ID:" + d);
    assert ("TAG_ID:" + d)[0] != "tag_id:"[0];
    NoBlank("Tag_id:" + d);
    assert ("Tag_id:" + d)[0] != "tag_id:"[0];
  }
}
