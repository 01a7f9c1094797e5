/** The second pass over generated SQL: `?` outside quotes becomes `$1`, `$2`, ... (src/driver/postgres_connection.cpp). */
module PlaceholderScanner {
  import opened Dialects
  import opened LayoutTree
  import Decimal

  datatype Quote = Outside | InSingle | InDouble

  function NextQuote(c: char, q: Quote): Quote {
    if c == '\'' && q != InDouble then (if q == InSingle then Outside else InSingle)
    else if c == '"' && q != InSingle then (if q == InDouble then Outside else InDouble)
    else q
  }

  predicate IsMark(c: char, q: Quote) { c == '?' && q == Outside }

  /** What the scan leaves of `s`, entered in state `q` with `k` as the next parameter number. */
  function Scan(s: string, q: Quote, k: nat): string {
    if s == "" then ""
    else if IsMark(s[0], q) then "$" + Decimal.ToString(k) + Scan(s[1..], q, k + 1)
    else [s[0]] + Scan(s[1..], NextQuote(s[0], q), k)
  }

  function EndQuote(s: string, q: Quote): Quote {
    if s == "" then q else EndQuote(s[1..], NextQuote(s[0], q))
  }

  function EndCount(s: string, q: Quote, k: nat): nat {
    if s == "" then k
    else EndCount(s[1..], NextQuote(s[0], q), if IsMark(s[0], q) then k + 1 else k)
  }

  method ConvertPlaceholdersToPg(sql: string) returns (result: string)
    ensures result == Scan(sql, Outside, 1)
  {
    hide Scan;
    result := "";
    assert "" + Scan(sql, Outside, 1) == Scan(sql, Outside, 1) && sql[0..] == sql;
    NothingToScan();
    var inSingleQuote, inDoubleQuote := false, false;
    var paramIdx := 1;
    for i := 0 to |sql|
      invariant !(inSingleQuote && inDoubleQuote) && paramIdx >= 1
      invariant result + Scan(sql[i..], StateOf(inSingleQuote, inDoubleQuote), paramIdx) == Scan(sql, Outside, 1)
    {
      var c := sql[i];
      assert sql[i..][0] == c && sql[i..][1..] == sql[i + 1..];
      ScanStep(result, sql[i..], StateOf(inSingleQuote, inDoubleQuote), paramIdx);
      if c == '\'' && !inDoubleQuote {
        inSingleQuote := !inSingleQuote;
        result := result + [c];
      } else if c == '"' && !inSingleQuote {
        inDoubleQuote := !inDoubleQuote;
        result := result + [c];
      } else if c == '?' && !inSingleQuote && !inDoubleQuote {
        result := result + "$" + Decimal.ToString(paramIdx);
        paramIdx := paramIdx + 1;
      } else {
        result := result + [c];
      }
    }
  }

  lemma NothingToScan()
    ensures forall q, k :: Scan("", q, k) == ""
  {
  }

  lemma ScanStep(done: string, s: string, q: Quote, k: nat)
    requires s != ""
    ensures done + Scan(s, q, k)
         == if IsMark(s[0], q) then done + "$" + Decimal.ToString(k) + Scan(s[1..], q, k + 1)
            else done + [s[0]] + Scan(s[1..], NextQuote(s[0], q), k)
  {
    if IsMark(s[0], q) {
      Reassociate4(done, "$", Decimal.ToString(k), Scan(s[1..], q, k + 1));
    } else {
      Reassociate4(done, "", [s[0]], Scan(s[1..], NextQuote(s[0], q), k));
    }
  }

  lemma Reassociate4(a: string, b: string, c: string, e: string)
    ensures a + (b + c + e) == a + b + c + e
    ensures b == "" ==> a + (c + e) == a + c + e
  {
  }

  function StateOf(inSingleQuote: bool, inDoubleQuote: bool): Quote {
    if inSingleQuote then InSingle else if inDoubleQuote then InDouble else Outside
  }

  lemma {:induction false} ScanAppend(a: string, b: string, q: Quote, k: nat)
    ensures Scan(a + b, q, k) == Scan(a, q, k) + Scan(b, EndQuote(a, q), EndCount(a, q, k))
    ensures EndQuote(a + b, q) == EndQuote(b, EndQuote(a, q))
    ensures EndCount(a + b, q, k) == EndCount(b, EndQuote(a, q), EndCount(a, q, k))
  {
    if a == "" {
      assert a + b == b;
      assert "" + Scan(b, q, k) == Scan(b, q, k);
    } else {
      var next, count := NextQuote(a[0], q), if IsMark(a[0], q) then k + 1 else k;
      assert (a + b)[0] == a[0] && (a + b)[1..] == a[1..] + b;
      ScanAppend(a[1..], b, next, count);
      Associate(if IsMark(a[0], q) then "$" + Decimal.ToString(k) else [a[0]], Scan(a[1..], if IsMark(a[0], q) then q else next, count),
                Scan(b, EndQuote(a, q), EndCount(a, q, k)));
    }
  }

  /** Text the scan copies and leaves in the state it found. */
  ghost predicate Inert(s: string, q: Quote) {
    EndQuote(s, q) == q && forall k: nat :: Scan(s, q, k) == s && EndCount(s, q, k) == k
  }

  lemma InertAppend(a: string, b: string, q: Quote)
    requires Inert(a, q) && Inert(b, q)
    ensures Inert(a + b, q)
  {
    forall k: nat ensures Scan(a + b, q, k) == a + b && EndCount(a + b, q, k) == k {
      ScanAppend(a, b, q, k);
    }
    ScanAppend(a, b, q, 0);
  }

  lemma PlainIsInert(s: string)
    requires Plain(s)
    ensures Inert(s, Outside)
  {
    if s != "" {
      PlainIsInert(s[1..]);
      forall k: nat ensures Scan(s, Outside, k) == s && EndCount(s, Outside, k) == k {
        assert s == [s[0]] + s[1..];
      }
    }
  }

  lemma ConstantBodyIsInert(s: string)
    requires '\'' !in s
    ensures Inert(s, InSingle)
  {
    if s != "" {
      ConstantBodyIsInert(s[1..]);
      forall k: nat ensures Scan(s, InSingle, k) == s && EndCount(s, InSingle, k) == k {
        assert s == [s[0]] + s[1..];
      }
    }
  }

  lemma ScanChar(c: char, q: Quote, k: nat)
    ensures EndQuote([c], q) == NextQuote(c, q)
    ensures !IsMark(c, q) ==> Scan([c], q, k) == [c] && EndCount([c], q, k) == k
  {
    assert [c][1..] == "";
  }

  /** Inside a quoted identifier a doubled quote leaves and re-enters the quote; everything else is copied. */
  lemma EscapedIsInert(id: string)
    ensures Inert(Escape(Postgres, id), InDouble)
  {
    if id != "" {
      EscapedIsInert(id[1..]);
      var head := if id[0] == '"' then [id[0], id[0]] else [id[0]];
      forall k: nat ensures Scan(head, InDouble, k) == head && EndCount(head, InDouble, k) == k && EndQuote(head, InDouble) == InDouble {
        ScanChar(id[0], InDouble, k);
        if id[0] == '"' {
          ScanChar('"', Outside, k);
          assert head == ['"'] + ['"'];
          ScanAppend(['"'], ['"'], InDouble, k);
        }
      }
      assert EndCount(head, InDouble, 0) == 0;
      InertAppend(head, Escape(Postgres, id[1..]), InDouble);
    }
  }

  lemma BracketedIsInert(open: char, body: string, inner: Quote)
    requires NextQuote(open, Outside) == inner && NextQuote(open, inner) == Outside
    requires inner != Outside && Inert(body, inner)
    ensures Inert([open] + body + [open], Outside)
  {
    var s := [open] + body + [open];
    assert [open][1..] == "";
    forall k: nat ensures Scan(s, Outside, k) == s && EndCount(s, Outside, k) == k && EndQuote(s, Outside) == Outside {
      ScanAppend([open] + body, [open], Outside, k);
      ScanAppend([open], body, Outside, k);
      assert Scan([open], inner, k) == [open] && EndQuote([open], inner) == Outside;
    }
    assert EndCount(s, Outside, 0) == 0;
  }

  /** The condition on text that is copied from the caller. */
  predicate CleanPiece(p: Piece) { p.Lex? && p.lexeme.Verbatim? ==> Plain(p.lexeme.name) }

  ghost predicate Clean(ps: seq<Piece>) { forall i :: 0 <= i < |ps| ==> CleanPiece(ps[i]) }

  lemma LexemeIsInert(l: Lexeme)
    requires CleanPiece(Lex(l))
    ensures Inert(LexemeText(Postgres, l), Outside)
  {
    if l.Ident? {
      EscapedIsInert(l.id);
      BracketedIsInert('"', Escape(Postgres, l.id), InDouble);
    } else if l.DaysConstant? {
      ConstantBodyIsInert(" days");
      BracketedIsInert('\'', " days", InSingle);
      assert LexemeText(Postgres, l) == ['\''] + " days" + ['\''];
    } else {
      assert Plain(LexemeText(Postgres, l));
      PlainIsInert(LexemeText(Postgres, l));
    }
  }

  /** Text with the k-th placeholder printed as `$k`, counting from `k`. */
  function Numbered(ps: seq<Piece>, k: nat): string {
    if ps == [] then ""
    else if ps[0].Mark? then "$" + Decimal.ToString(k) + Numbered(ps[1..], k + 1)
    else Render(Postgres, ps[0]) + Numbered(ps[1..], k)
  }

  /** Text with each placeholder naming the slot it was printed for: slot j is PostgreSQL's parameter $(j+1). */
  function BySlot(ps: seq<Piece>): string {
    if ps == [] then ""
    else (if ps[0].Mark? then "$" + Decimal.ToString(ps[0].slot + 1) else Render(Postgres, ps[0])) + BySlot(ps[1..])
  }

  lemma ScanOfMark(k: nat)
    ensures Scan("?", Outside, k) == "$" + Decimal.ToString(k) && EndQuote("?", Outside) == Outside && EndCount("?", Outside, k) == k + 1
  {
    assert "?"[1..] == "";
  }

  lemma InertScan(s: string, k: nat)
    requires Inert(s, Outside)
    ensures Scan(s, Outside, k) == s && EndQuote(s, Outside) == Outside && EndCount(s, Outside, k) == k
  {
  }

  /** The scan finds exactly the generated placeholders: nothing inside an identifier or a constant is touched. */
  lemma {:induction false} ScanOfPieces(ps: seq<Piece>, k: nat)
    requires Clean(ps)
    ensures Scan(Flatten(Postgres, ps), Outside, k) == Numbered(ps, k)
    ensures EndQuote(Flatten(Postgres, ps), Outside) == Outside
    ensures EndCount(Flatten(Postgres, ps), Outside, k) == k + |Marks(ps)|
  {
    if ps == [] {
    } else {
      hide Scan, EndQuote, EndCount, Inert, LexemeText;
      var head := Render(Postgres, ps[0]);
      ScanAppend(head, Flatten(Postgres, ps[1..]), Outside, k);
      if ps[0].Mark? {
        ScanOfMark(k);
        ScanOfPieces(ps[1..], k + 1);
      } else {
        LexemeIsInert(ps[0].lexeme);
        InertScan(head, k);
        ScanOfPieces(ps[1..], k);
      }
    }
  }

  lemma {:induction false} NumberedIsBySlot(ps: seq<Piece>, base: nat, n: nat)
    requires Marks(ps) == Iota(base, n)
    ensures Numbered(ps, base + 1) == BySlot(ps)
  {
    if ps == [] {
    } else if ps[0].Mark? {
      assert Marks(ps)[0] == ps[0].slot == base;
      assert Marks(ps[1..]) == Marks(ps)[1..] == Iota(base + 1, n - 1);
      NumberedIsBySlot(ps[1..], base + 1, n - 1);
    } else {
      assert Marks(ps[1..]) == Marks(ps);
      NumberedIsBySlot(ps[1..], base, n);
    }
  }

  /** Both passes together: every `$k` PostgreSQL sees stands where slot k-1 was printed, and there are |slots| of them. */
  lemma BothPassesAgree(t: Tree)
    requires Straight(t) && Clean(Pieces(t, 0))
    ensures Scan(Flatten(Postgres, Pieces(t, 0)), Outside, 1) == BySlot(Pieces(t, 0))
    ensures Marks(Pieces(t, 0)) == Iota(0, |Slots(t)|)
  {
    hide Scan, Flatten, Pieces, Slots, Marks, Clean, Iota, BySlot, Numbered;
    AlignedIffStraight(t);
    ScanOfPieces(Pieces(t, 0), 1);
    NumberedIsBySlot(Pieces(t, 0), 0, |Slots(t)|);
  }
}
