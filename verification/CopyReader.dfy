/** The server's side of COPY in text format, and the proof that it reads what the writer wrote. */
module CopyReader {
  import opened Values
  import opened CopyWriter

  predicate EndsRow(c: char) { c == '\n' || c == '\r' }

  predicate EndsField(c: char) { c == '\t' || EndsRow(c) }

  /** The length of the field at the start; a backslash takes the next character with it. */
  function FieldLength(s: string): (n: nat)
    ensures n <= |s|
    ensures n < |s| ==> EndsField(s[n]) || n + 1 == |s|
  {
    if s == "" then 0
    else if s[0] == '\\' then (if |s| == 1 then 0 else 2 + FieldLength(s[2..]))
    else if EndsField(s[0]) then 0
    else 1 + FieldLength(s[1..])
  }

  predicate IsOctal(c: char) { '0' <= c <= '7' }

  predicate IsHex(c: char) { '0' <= c <= '9' || 'a' <= c <= 'f' || 'A' <= c <= 'F' }

  function OctalRun(s: string): (n: nat)
    ensures n <= |s| && n <= 3
  {
    if s == "" || !IsOctal(s[0]) then 0
    else if |s| == 1 || !IsOctal(s[1]) then 1
    else if |s| == 2 || !IsOctal(s[2]) then 2
    else 3
  }

  function HexRun(s: string): (n: nat)
    ensures n <= |s| && n <= 2
  {
    if s == "" || !IsHex(s[0]) then 0 else if |s| == 1 || !IsHex(s[1]) then 1 else 2
  }

  function HexValue(c: char): (n: nat)
    requires IsHex(c)
    ensures n < 16
  {
    if c <= '9' then (c - '0') as nat else if c >= 'a' then (c - 'a') as nat + 10 else (c - 'A') as nat + 10
  }

  function OctalValue(c: char): nat
    requires IsOctal(c)
  {
    (c - '0') as nat
  }

  function Octal(s: string): nat
    requires forall i :: 0 <= i < |s| ==> IsOctal(s[i])
  {
    if s == "" then 0 else Octal(s[..|s| - 1]) * 8 + OctalValue(s[|s| - 1])
  }

  function Hexadecimal(s: string): nat
    requires forall i :: 0 <= i < |s| ==> IsHex(s[i])
  {
    if s == "" then 0 else Hexadecimal(s[..|s| - 1]) * 16 + HexValue(s[|s| - 1])
  }

  /** What the characters after a backslash stand for, and how many of them belong to it. */
  function BackslashSequence(s: string): (r: (char, nat))
    requires s != ""
    ensures 1 <= r.1 <= |s|
  {
    if s[0] == 'b' then (8 as char, 1)
    else if s[0] == 'f' then (12 as char, 1)
    else if s[0] == 'n' then ('\n', 1)
    else if s[0] == 'r' then ('\r', 1)
    else if s[0] == 't' then ('\t', 1)
    else if s[0] == 'v' then (11 as char, 1)
    else if OctalRun(s) > 0 then ((Octal(s[..OctalRun(s)]) % 256) as char, OctalRun(s))
    else if s[0] == 'x' && HexRun(s[1..]) > 0 then ((Hexadecimal(s[1..][..HexRun(s[1..])]) % 256) as char, 1 + HexRun(s[1..]))
    else (s[0], 1)
  }

  function Unescape(s: string): string
    decreases |s|
  {
    if s == "" then ""
    else if s[0] == '\\' && |s| > 1 then
      var (c, n) := BackslashSequence(s[1..]);
      [c] + Unescape(s[1 + n..])
    else [s[0]] + Unescape(s[1..])
  }

  function ReadField(raw: string): Option<string> { if raw == "\\N" then None else Some(Unescape(raw)) }

  /** The fields of the row at the start, and what follows its end; none when the row does not end. */
  function ReadRow(s: string): (r: Option<(Row, string)>)
    ensures r.Some? ==> |r.value.1| < |s|
    decreases |s|
  {
    var n := FieldLength(s);
    if n == |s| || !EndsField(s[n]) then None
    else if EndsRow(s[n]) then Some(([ReadField(s[..n])], s[n + 1..]))
    else match ReadRow(s[n + 1..])
      case None => None
      case Some((row, rest)) => Some(([ReadField(s[..n])] + row, rest))
  }

  /** The rows of a whole stream, up to its end or the mark of a backslash and a period. */
  function ReadRows(s: string): Option<seq<Row>>
    decreases |s|
  {
    if s == "" || s == "\\." || "\\.\n" <= s then Some([])
    else match ReadRow(s)
      case None => None
      case Some((row, rest)) =>
        match ReadRows(rest)
        case None => None
        case Some(rows) => Some([row] + rows)
  }

  // ---------------------------------------------------------------------------------------------
  // Reading inverts writing
  // ---------------------------------------------------------------------------------------------

  predicate StartsEnd(rest: string) { rest != "" && EndsField(rest[0]) }

  lemma SkipsEscaped(c: char, rest: string)
    ensures FieldLength(EscapeChar(c) + rest) == |EscapeChar(c)| + FieldLength(rest)
  {
    var e := EscapeChar(c);
    assert (e + rest)[|e|..] == rest;
  }

  /** The raw field ends where the escaped text does. */
  lemma {:induction false} FieldLengthOfEscape(s: string, rest: string)
    requires StartsEnd(rest)
    ensures FieldLength(Escape(s) + rest) == |Escape(s)|
    decreases |s|
  {
    hide FieldLength, EscapeChar;
    if s == "" {
      assert "" + rest == rest;
      EndHere(rest);
    } else {
      var e, tail := EscapeChar(s[0]), Escape(s[1..]);
      FieldLengthOfEscape(s[1..], rest);
      assert e + tail + rest == e + (tail + rest);
      SkipsEscaped(s[0], tail + rest);
    }
  }

  lemma EndHere(rest: string)
    requires StartsEnd(rest)
    ensures FieldLength(rest) == 0
  {
  }

  lemma UnescapesOne(c: char, rest: string)
    ensures Unescape(EscapeChar(c) + rest) == [c] + Unescape(rest)
  {
    var e := EscapeChar(c);
    assert (e + rest)[|e|..] == rest;
    if |e| == 2 {
      assert (e + rest)[1..] == [e[1]] + rest;
      assert BackslashSequence([e[1]] + rest) == (c, 1);
    }
  }

  lemma {:induction false} UnescapeOfEscape(s: string)
    ensures Unescape(Escape(s)) == s
    decreases |s|
  {
    if s != "" {
      hide Unescape, EscapeChar;
      UnescapeOfEscape(s[1..]);
      UnescapesOne(s[0], Escape(s[1..]));
      assert s == [s[0]] + s[1..];
    } else {
      assert Unescape("") == "";
    }
  }

  lemma EscapeIsNotNull(s: string)
    ensures Escape(s) != "\\N"
    ensures Escape(s) == "" || Escape(s)[0] != '\\' || (|Escape(s)| > 1 && Escape(s)[1] in "tnr\\")
  {
    if s != "" {
      var e := EscapeChar(s[0]);
      assert e[0] == '\\' ==> |e| == 2 && e[1] in "tnr\\";
      assert (e + Escape(s[1..]))[..|e|] == e;
      assert Escape(s)[0] == e[0] && (|e| == 2 ==> Escape(s)[1] == e[1]);
    }
  }

  /** A field is read back, NULL as NULL and any string, `\N` too, as itself. */
  lemma FieldRoundTrip(field: Option<string>, rest: string)
    requires StartsEnd(rest)
    ensures FieldLength(FieldText(field) + rest) == |FieldText(field)|
    ensures ReadField(FieldText(field)) == field
  {
    if field == None {
      assert ("\\N" + rest)[2..] == rest;
    } else {
      FieldLengthOfEscape(field.value, rest);
      UnescapeOfEscape(field.value);
      EscapeIsNotNull(field.value);
    }
  }

  /** A row written from its start. */
  lemma {:induction false} RowTextFirst(row: Row)
    requires |row| > 1
    ensures RowText(row) == FieldText(row[0]) + ("\t" + RowText(row[1..]))
    decreases |row|
  {
    hide FieldText;
    var front, last := row[..|row| - 1], row[|row| - 1];
    if |row| == 2 {
      RowTextOne(front);
      RowTextOne(row[1..]);
    } else {
      RowTextFirst(front);
      assert front[1..] == row[1..][..|row| - 2];
      RowTextSnoc(row[1..]);
      var a, b := FieldText(row[0]), RowText(front[1..]);
      assert a + ("\t" + b) + "\t" + FieldText(last) == a + ("\t" + (b + "\t" + FieldText(last)));
    }
  }

  lemma {:induction false} RowRoundTrip(row: Row, rest: string)
    requires row != []
    ensures ReadRow(RowText(row) + ("\n" + rest)) == Some((row, rest))
    decreases |row|
  {
    hide FieldText, RowText, ReadField, FieldLength, ReadRow;
    var field := FieldText(row[0]);
    if |row| == 1 {
      RowTextOne(row);
      FieldRoundTrip(row[0], "\n" + rest);
      FirstField(field, '\n', rest);
      assert row == [row[0]];
    } else {
      var tail := RowText(row[1..]) + ("\n" + rest);
      RowTextFirst(row);
      FieldRoundTrip(row[0], "\t" + tail);
      FirstField(field, '\t', tail);
      RowRoundTrip(row[1..], rest);
      assert RowText(row) + ("\n" + rest) == field + ("\t" + tail);
      assert row == [row[0]] + row[1..];
    }
  }

  lemma FirstField(field: string, end: char, rest: string)
    requires EndsField(end) && FieldLength(field + ([end] + rest)) == |field|
    ensures ReadRow(field + ([end] + rest))
         == if EndsRow(end) then Some(([ReadField(field)], rest))
            else if ReadRow(rest) == None then None
            else Some(([ReadField(field)] + ReadRow(rest).value.0, ReadRow(rest).value.1))
  {
    hide FieldLength, ReadField;
    OneField(field, end, rest);
  }

  lemma OneField(field: string, end: char, rest: string)
    ensures var s := field + ([end] + rest); s[..|field|] == field && s[|field|] == end && s[|field| + 1..] == rest
  {
  }

  lemma {:induction false} StreamFirst(rows: seq<Row>)
    requires rows != []
    ensures Stream(rows) == RowText(rows[0]) + ("\n" + Stream(rows[1..]))
    decreases |rows|
  {
    hide RowText;
    var front, last := rows[..|rows| - 1], rows[|rows| - 1];
    if |rows| == 1 {
      assert rows[1..] == [] && Stream(front) == "";
      assert "" + RowText(rows[0]) + "\n" == RowText(rows[0]) + ("\n" + "");
    } else {
      StreamFirst(front);
      assert front[1..] == rows[1..][..|rows| - 2];
      var a, b := RowText(rows[0]), Stream(front[1..]);
      assert a + ("\n" + b) + RowText(last) + "\n" == a + ("\n" + (b + RowText(last) + "\n"));
    }
  }

  /** No row looks like the end mark. */
  lemma NotTheEndMark(row: Row, rest: string)
    requires row != []
    ensures var s := RowText(row) + ("\n" + rest); s != "" && s != "\\." && !("\\.\n" <= s)
  {
    var s := RowText(row) + ("\n" + rest);
    var field := FieldText(row[0]);
    if |row| == 1 { RowTextOne(row); } else { RowTextFirst(row); }
    assert field <= s;
    if row[0] != None { EscapeIsNotNull(row[0].value); }
    assert field != "" ==> s[0] == field[0];
    assert |field| > 1 ==> s[1] == field[1];
    if field == "" { assert s[0] == (if |row| == 1 then '\n' else '\t'); }
  }

  /** COPY is lossless: the server reads back every row, every column, and every NULL. */
  lemma {:induction false} CopyRoundTrip(rows: seq<Row>)
    requires forall i :: 0 <= i < |rows| ==> rows[i] != []
    ensures ReadRows(Stream(rows)) == Some(rows)
    decreases |rows|
  {
    hide RowText, ReadRow;
    if rows != [] {
      StreamFirst(rows);
      NotTheEndMark(rows[0], Stream(rows[1..]));
      RowRoundTrip(rows[0], Stream(rows[1..]));
      CopyRoundTrip(rows[1..]);
      assert rows == [rows[0]] + rows[1..];
    }
  }

  /** What the server reads from the buffers of a bulk insert: for every row and column the meaning of its value. */
  lemma BulkInsertArrives(f: Formats, flat: seq<BoundValue>, columns: nat, count: nat, sent: seq<string>, r: nat, c: nat)
    requires columns > 0 && count * columns <= |flat| && forall i :: 0 <= i < |flat| ==> Storable(flat[i])
    requires Joined(sent) == Stream(RowsOf(f, flat, columns, count))
    requires r < count && c < columns
    ensures r * columns + c < |flat|
    ensures var rows := ReadRows(Joined(sent));
      && rows.Some? && |rows.value| == count && |rows.value[r]| == columns
      && rows.value[r][c] == Meaning(f, flat[r * columns + c])
  {
    hide ReadRows, Stream, RowAt, RowsOf, Meaning;
    var rows := RowsOf(f, flat, columns, count);
    forall i | 0 <= i < count ensures rows[i] != [] { RowIs(f, flat, columns, count, i); }
    CopyRoundTrip(rows);
    RowIs(f, flat, columns, count, r);
    RowHas(f, flat, columns, r, c);
  }

  lemma RowHas(f: Formats, flat: seq<BoundValue>, columns: nat, r: nat, c: nat)
    requires (r + 1) * columns <= |flat| && (forall i :: 0 <= i < |flat| ==> Storable(flat[i])) && c < columns
    ensures r * columns + c < |flat| && |RowAt(f, flat, columns, r)| == columns
    ensures RowAt(f, flat, columns, r)[c] == Meaning(f, flat[r * columns + c])
  {
    assert r * columns + columns == (r + 1) * columns;
  }

  lemma {:induction false} RowIs(f: Formats, flat: seq<BoundValue>, columns: nat, count: nat, r: nat)
    requires columns > 0 && count * columns <= |flat| && (forall i :: 0 <= i < |flat| ==> Storable(flat[i])) && r < count
    ensures (r + 1) * columns <= |flat|
    ensures RowsOf(f, flat, columns, count)[r] == RowAt(f, flat, columns, r)
    ensures RowsOf(f, flat, columns, count)[r] != []
    decreases count
  {
    hide RowAt;
    RowFits(count - 1, count, columns);
    if r < count - 1 {
      RowIs(f, flat, columns, count - 1, r);
    } else {
      RowHas(f, flat, columns, r, 0);
    }
  }
}
