/** The lexical rules of SQL: section 5.2 of SQL-92 (ISO/IEC 9075:1992), with the brackets SQL Server puts around identifiers. */
module SqlLexer {
  import opened Values
  import opened Dialects

  /** A regular word or a number, a delimited identifier, a string constant, or any other character but a blank. */
  datatype Token = Word(text: string) | Name(id: string) | Constant(text: string) | Sign(c: char)

  predicate WordChar(c: char) { 'A' <= c <= 'Z' || 'a' <= c <= 'z' || '0' <= c <= '9' || c == '_' }

  predicate IsWord(s: string) { s != "" && forall i :: 0 <= i < |s| ==> WordChar(s[i]) }

  function WordLength(s: string): (n: nat)
    ensures n <= |s|
    ensures n < |s| ==> !WordChar(s[n])
  {
    if s != "" && WordChar(s[0]) then 1 + WordLength(s[1..]) else 0
  }

  function Tokenize(d: Dialect, s: string): seq<Token>
    decreases |s|
  {
    if s == "" then []
    else if WordLength(s) > 0 then [Word(s[..WordLength(s)])] + Tokenize(d, s[WordLength(s)..])
    else if s[0] == ' ' then Tokenize(d, s[1..])
    else if s[0] == OpenQuote(d) then
      match ReadQuoted(CloseQuote(d), s[1..])
      case None => [Sign(s[0])] + Tokenize(d, s[1..])
      case Some((id, rest)) => [Name(id)] + Tokenize(d, rest)
    else if s[0] == '\'' then
      match ReadQuoted('\'', s[1..])
      case None => [Sign(s[0])] + Tokenize(d, s[1..])
      case Some((text, rest)) => [Constant(text)] + Tokenize(d, rest)
    else [Sign(s[0])] + Tokenize(d, s[1..])
  }

  // ---------------------------------------------------------------------------------------------
  // Text that is cut the same way wherever it stands
  // ---------------------------------------------------------------------------------------------

  /** A character that continues neither a word nor anything in quotes. */
  predicate BreakChar(d: Dialect, c: char) { !WordChar(c) && c != CloseQuote(d) && c != '\'' }

  predicate Breaks(d: Dialect, rest: string) { rest == "" || BreakChar(d, rest[0]) }

  /** The text is cut into these tokens, whatever follows; unless it is closed, what follows must begin with a break. */
  ghost predicate Spells(d: Dialect, s: string, ts: seq<Token>, closed: bool) {
    forall rest: string :: closed || Breaks(d, rest) ==> Tokenize(d, s + rest) == ts + Tokenize(d, rest)
  }

  lemma Cut(d: Dialect, s: string, ts: seq<Token>, closed: bool, rest: string)
    requires Spells(d, s, ts, closed) && (closed || Breaks(d, rest))
    ensures Tokenize(d, s + rest) == ts + Tokenize(d, rest)
  {
  }

  lemma TokensAre(d: Dialect, s: string, ts: seq<Token>, closed: bool)
    requires Spells(d, s, ts, closed)
    ensures Tokenize(d, s) == ts
  {
    hide Spells;
    Cut(d, s, ts, closed, "");
    assert s + "" == s && ts + [] == ts;
  }

  lemma {:induction false} WordLengthIs(w: string, rest: string)
    requires forall i :: 0 <= i < |w| ==> WordChar(w[i])
    requires rest == "" || !WordChar(rest[0])
    ensures WordLength(w + rest) == |w|
    decreases |w|
  {
    if w == "" {
      assert w + rest == rest;
    } else {
      assert (w + rest)[1..] == w[1..] + rest;
      WordLengthIs(w[1..], rest);
    }
  }

  lemma SpellsNothing(d: Dialect)
    ensures Spells(d, "", [], true)
  {
    forall rest: string ensures Tokenize(d, "" + rest) == [] + Tokenize(d, rest) { assert "" + rest == rest; }
  }

  lemma SpellsWord(d: Dialect, w: string)
    requires IsWord(w)
    ensures Spells(d, w, [Word(w)], false)
  {
    forall rest: string | Breaks(d, rest) ensures Tokenize(d, w + rest) == [Word(w)] + Tokenize(d, rest) {
      WordLengthIs(w, rest);
      assert (w + rest)[..|w|] == w && (w + rest)[|w|..] == rest;
    }
  }

  lemma SpellsBlank(d: Dialect)
    ensures Spells(d, " ", [], true)
  {
    forall rest: string ensures Tokenize(d, " " + rest) == [] + Tokenize(d, rest) {
      assert (" " + rest)[1..] == rest;
    }
  }

  lemma SpellsSign(d: Dialect, c: char)
    requires !WordChar(c) && c != ' ' && c != OpenQuote(d) && c != '\''
    ensures Spells(d, [c], [Sign(c)], true)
  {
    forall rest: string ensures Tokenize(d, [c] + rest) == [Sign(c)] + Tokenize(d, rest) {
      assert ([c] + rest)[1..] == rest;
    }
  }

  lemma SpellsName(d: Dialect, id: string)
    ensures Spells(d, QuoteId(d, id), [Name(id)], false)
  {
    forall rest: string | Breaks(d, rest) ensures Tokenize(d, QuoteId(d, id) + rest) == [Name(id)] + Tokenize(d, rest) {
      QuotedCut(d, id, rest);
    }
  }

  lemma QuotedCut(d: Dialect, id: string, rest: string)
    requires Breaks(d, rest)
    ensures Tokenize(d, QuoteId(d, id) + rest) == [Name(id)] + Tokenize(d, rest)
  {
    hide Escape, ReadQuoted;
    var s, inside := QuoteId(d, id) + rest, Escape(d, id) + [CloseQuote(d)] + rest;
    assert s == [OpenQuote(d)] + inside;
    assert s[1..] == inside;
    QuotingIsReversible(d, id, rest);
  }

  /** A constant without quotes in it. */
  lemma SpellsConstant(d: Dialect, text: string)
    requires '\'' !in text
    ensures Spells(d, "'" + text + "'", [Constant(text)], false)
  {
    forall rest: string | Breaks(d, rest) ensures Tokenize(d, "'" + text + "'" + rest) == [Constant(text)] + Tokenize(d, rest) {
      var s := "'" + text + "'" + rest;
      assert s[1..] == text + ("'" + rest);
      ConstantRead(text, rest);
    }
  }

  lemma {:induction false} ConstantRead(text: string, rest: string)
    requires '\'' !in text && (rest == "" || rest[0] != '\'')
    ensures ReadQuoted('\'', text + ("'" + rest)) == Some((text, rest))
    decreases |text|
  {
    var s := text + ("'" + rest);
    if text == "" {
      assert s == "'" + rest && s[1..] == rest;
    } else {
      ConstantRead(text[1..], rest);
      assert s[1..] == text[1..] + ("'" + rest) && text == [text[0]] + text[1..];
    }
  }

  lemma SpellsThen(d: Dialect, a: string, ta: seq<Token>, ca: bool, b: string, tb: seq<Token>, cb: bool)
    requires Spells(d, a, ta, ca) && Spells(d, b, tb, cb)
    requires ca || (b != "" && BreakChar(d, b[0]))
    ensures Spells(d, a + b, ta + tb, cb)
  {
    forall rest: string | cb || Breaks(d, rest) ensures Tokenize(d, a + b + rest) == ta + tb + Tokenize(d, rest) {
      assert a + b + rest == a + (b + rest);
      assert b != "" ==> (b + rest)[0] == b[0];
      Cut(d, a, ta, ca, b + rest);
      Cut(d, b, tb, cb, rest);
    }
  }

  lemma SpellsLoosely(d: Dialect, s: string, ts: seq<Token>, closed: bool)
    requires Spells(d, s, ts, closed)
    ensures Spells(d, s, ts, false)
  {
  }

  // ---------------------------------------------------------------------------------------------
  // Words between blanks
  // ---------------------------------------------------------------------------------------------

  lemma BlankThenWord(d: Dialect, w: string)
    requires IsWord(w)
    ensures Spells(d, " " + w, [Word(w)], false)
  {
    hide Spells, IsWord;
    SpellsBlank(d);
    SpellsWord(d, w);
    SpellsThen(d, " ", [], true, w, [Word(w)], false);
    assert [] + [Word(w)] == [Word(w)];
  }

  lemma WordThenBlank(d: Dialect, s: string, ts: seq<Token>)
    requires Spells(d, s, ts, false)
    ensures Spells(d, s + " ", ts, true)
  {
    hide Spells;
    SpellsBlank(d);
    SpellsThen(d, s, ts, false, " ", [], true);
    assert ts + [] == ts;
  }

  lemma ThenWord(d: Dialect, s: string, ts: seq<Token>, w: string)
    requires Spells(d, s, ts, false) && IsWord(w)
    ensures Spells(d, s + (" " + w), ts + [Word(w)], false)
  {
    hide Spells, IsWord;
    BlankThenWord(d, w);
    SpellsThen(d, s, ts, false, " " + w, [Word(w)], false);
  }

  lemma ThenSign(d: Dialect, s: string, ts: seq<Token>, closed: bool, c: char)
    requires Spells(d, s, ts, closed) && BreakChar(d, c) && c != ' ' && c != OpenQuote(d)
    ensures Spells(d, s + [c], ts + [Sign(c)], true)
  {
    hide Spells;
    SpellsSign(d, c);
    SpellsThen(d, s, ts, closed, [c], [Sign(c)], true);
  }
}
