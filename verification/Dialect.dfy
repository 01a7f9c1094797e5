/** Identifier quoting and function names of the PostgreSQL and SQL Server dialects (src/dialect). */
module Dialects {
  import opened Values

  datatype Dialect = Postgres | Mssql

  function OpenQuote(d: Dialect): char { if d.Postgres? then '"' else '[' }

  function CloseQuote(d: Dialect): char { if d.Postgres? then '"' else ']' }

  /** Every closing quote inside an identifier is written twice. */
  function Escape(d: Dialect, id: string): string {
    if id == "" then ""
    else (if id[0] == CloseQuote(d) then [id[0], id[0]] else [id[0]]) + Escape(d, id[1..])
  }

  function QuoteId(d: Dialect, id: string): string {
    [OpenQuote(d)] + Escape(d, id) + [CloseQuote(d)]
  }

  lemma EscapeAppend(d: Dialect, a: string, b: string)
    ensures Escape(d, a + b) == Escape(d, a) + Escape(d, b)
  {
    if a == "" {
      assert a + b == b;
    } else {
      assert (a + b)[1..] == a[1..] + b;
      EscapeAppend(d, a[1..], b);
    }
  }

  method QuoteIdentifier(d: Dialect, id: string) returns (quoted: string)
    ensures quoted == QuoteId(d, id)
  {
    quoted := [OpenQuote(d)];
    for i := 0 to |id|
      invariant quoted == [OpenQuote(d)] + Escape(d, id[..i])
    {
      EscapeAppend(d, id[..i], [id[i]]);
      assert id[..i + 1] == id[..i] + [id[i]];
      assert Escape(d, [id[i]]) == if id[i] == CloseQuote(d) then [id[i], id[i]] else [id[i]] by {
        assert [id[i]][1..] == "";
      }
      if id[i] == CloseQuote(d) {
        quoted := quoted + [id[i], id[i]];
      } else {
        quoted := quoted + [id[i]];
      }
    }
    assert id[..|id|] == id;
    quoted := quoted + [CloseQuote(d)];
  }

  /** Reading what stands in quotes: the characters up to the first unpaired closing quote, and the rest. */
  function ReadQuoted(close: char, s: string): (r: Option<(string, string)>)
    ensures r.Some? ==> |r.value.1| < |s|
    decreases |s|
  {
    if s == "" then None
    else if s[0] == close then
      if |s| > 1 && s[1] == close then
        match ReadQuoted(close, s[2..])
        case None => None
        case Some((id, rest)) => Some(([s[0]] + id, rest))
      else Some(("", s[1..]))
    else
      match ReadQuoted(close, s[1..])
      case None => None
      case Some((id, rest)) => Some(([s[0]] + id, rest))
  }

  /** Quoting loses nothing: whatever the identifier contains, its end is found and its text recovered. */
  lemma {:induction false} QuotingIsReversible(d: Dialect, id: string, rest: string)
    requires rest == "" || rest[0] != CloseQuote(d)
    ensures ReadQuoted(CloseQuote(d), Escape(d, id) + [CloseQuote(d)] + rest) == Some((id, rest))
  {
    var s := Escape(d, id) + [CloseQuote(d)] + rest;
    if id == "" {
      assert s == [CloseQuote(d)] + rest;
      assert s[1..] == rest;
    } else {
      QuotingIsReversible(d, id[1..], rest);
      var tail := Escape(d, id[1..]) + [CloseQuote(d)] + rest;
      if id[0] == CloseQuote(d) {
        assert s == [id[0], id[0]] + tail;
        assert s[2..] == tail;
      } else {
        assert s == [id[0]] + tail;
        assert s[1..] == tail;
      }
      assert id == [id[0]] + id[1..];
    }
  }

  function FunctionName(d: Dialect, name: string): string {
    if d.Mssql? && name == "LENGTH" then "LEN"
    else if d.Mssql? && name == "SUBSTR" then "SUBSTRING"
    else name
  }
}
