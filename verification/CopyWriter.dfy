/**
 * The PostgreSQL bulk insert: rows written in the text format of COPY, sent in buffers, and the server's reading of
 * them (PostgreSQL documentation, COPY, File Formats, Text Format). Strings are bytes, one to a character.
 */
module CopyWriter {
  import opened Values
  import Decimal
  import Unicode

  // ---------------------------------------------------------------------------------------------
  // Writing
  // ---------------------------------------------------------------------------------------------

  function EscapeChar(c: char): (r: string)
    ensures r != ""
  {
    if c == '\t' then "\\t" else if c == '\n' then "\\n" else if c == '\r' then "\\r" else if c == '\\' then "\\\\" else [c]
  }

  function Escape(s: string): string { if s == "" then "" else EscapeChar(s[0]) + Escape(s[1..]) }

  lemma NothingEscaped()
    ensures Escape("") == ""
  {
  }

  lemma EscapeStep(buffer: string, s: string)
    requires s != ""
    ensures buffer + Escape(s) == buffer + EscapeChar(s[0]) + Escape(s[1..])
  {
    var e, rest := EscapeChar(s[0]), Escape(s[1..]);
    assert buffer + (e + rest) == buffer + e + rest;
  }

  /** `append_copy_escaped`. */
  method AppendCopyEscaped(buffer: string, s: string) returns (r: string)
    ensures r == buffer + Escape(s)
  {
    hide Escape;
    r := buffer;
    var i := 0;
    NothingEscaped();
    assert s[0..] == s;
    while i < |s|
      invariant i <= |s|
      invariant r + Escape(s[i..]) == buffer + Escape(s)
    {
      assert s[i..][1..] == s[i + 1..];
      EscapeStep(r, s[i..]);
      if s[i] == '\t' { r := r + "\\t"; }
      else if s[i] == '\n' { r := r + "\\n"; }
      else if s[i] == '\r' { r := r + "\\r"; }
      else if s[i] == '\\' { r := r + "\\\\"; }
      else { r := r + [s[i]]; }
      i := i + 1;
    }
    assert s[i..] == "" && r + "" == r;
  }

  /** The library's own texts of doubles, dates, times and timestamps; a double's has none of the escaped characters. */
  datatype Formats = Formats(double: nat -> string, date: SqlDate -> string, time: SqlTime -> string, timestamp: SqlTimestamp -> string)

  predicate Unescaped(s: string) { forall i :: 0 <= i < |s| ==> s[i] != '\t' && s[i] != '\n' && s[i] != '\r' && s[i] != '\\' }

  ghost predicate PlainDoubles(f: Formats) { forall bits :: Unescaped(f.double(bits)) }

  function Signed(i: int): string { if i < 0 then "-" + Decimal.ToString(-i) else Decimal.ToString(i) }

  function AsChars(bytes: seq<byte>): (r: string)
    ensures |r| == |bytes|
  {
    seq(|bytes|, i requires 0 <= i < |bytes| => bytes[i] as char)
  }

  function HexDigit(n: nat): char
    requires n < 16
  {
    "0123456789abcdef"[n]
  }

  function Hex(bytes: seq<byte>): string {
    if bytes == [] then "" else [HexDigit(bytes[0] / 16), HexDigit(bytes[0] % 16)] + Hex(bytes[1..])
  }

  /** Code points of 32 bits, as wide characters hold. */
  predicate Storable(v: BoundValue) { v.WideText? ==> forall i :: 0 <= i < |v.codePoints| ==> v.codePoints[i] < 0x1_0000_0000 }

  /** The text a value means to the server; none for NULL. */
  function Meaning(f: Formats, v: BoundValue): Option<string>
    requires Storable(v)
  {
    match v
    case Null => None
    case Int64(i) => Some(Signed(i))
    case UInt64(u) => Some(Decimal.ToString(u))
    case Double(bits) => Some(f.double(bits))
    case Text(s) => Some(s)
    case WideText(codePoints) => Some(AsChars(Unicode.EncodeAll(codePoints)))
    case Bool(b) => Some(if b then "t" else "f")
    case Blob(bytes) => Some("\\x" + Hex(bytes))
    case Numeric(digits) => Some(digits)
    case Date(date) => Some(f.date(date))
    case Time(time) => Some(f.time(time))
    case Timestamp(timestamp) => Some(f.timestamp(timestamp))
    case Interval(text) => Some(text)
    case Guid(guid) => Some(guid)
  }

  function FieldText(m: Option<string>): string { if m == None then "\\N" else Escape(m.value) }

  lemma {:induction false} NothingToEscape(s: string)
    requires Unescaped(s)
    ensures Escape(s) == s
    decreases |s|
  {
    if s != "" {
      NothingToEscape(s[1..]);
      assert s == [s[0]] + s[1..];
    }
  }

  lemma NumbersAreUnescaped(i: int)
    ensures Unescaped(Signed(i))
  {
  }

  lemma {:induction false} HexIsUnescaped(bytes: seq<byte>)
    ensures Unescaped(Hex(bytes))
    decreases |bytes|
  {
    if bytes != [] { HexIsUnescaped(bytes[1..]); }
  }

  lemma BlobEscaped(bytes: seq<byte>)
    ensures Escape("\\x" + Hex(bytes)) == "\\\\x" + Hex(bytes)
  {
    var rest := "x" + Hex(bytes);
    assert "\\x" + Hex(bytes) == "\\" + rest;
    assert ("\\" + rest)[1..] == rest;
    HexIsUnescaped(bytes);
    NothingToEscape(rest);
    assert "\\\\" + rest == "\\\\x" + Hex(bytes);
  }

  /** One value appended. Numbers, booleans and blobs are written without the escaper. */
  method AppendValue(f: Formats, buffer: string, v: BoundValue) returns (r: string)
    requires PlainDoubles(f) && Storable(v)
    ensures r == buffer + FieldText(Meaning(f, v))
  {
    hide Escape;
    match v {
      case Null => r := buffer + "\\N";
      case Int64(i) =>
        NumbersAreUnescaped(i);
        NothingToEscape(Signed(i));
        r := buffer + Signed(i);
      case UInt64(u) =>
        NumbersAreUnescaped(u);
        NothingToEscape(Signed(u));
        r := buffer + Decimal.ToString(u);
      case Double(bits) =>
        NothingToEscape(f.double(bits));
        r := buffer + f.double(bits);
      case Bool(b) =>
        NothingToEscape(if b then "t" else "f");
        r := buffer + if b then "t" else "f";
      case Blob(bytes) =>
        BlobEscaped(bytes);
        var hex := HexOf(bytes);
        r := buffer + ("\\\\x" + hex);
      case Text(_) => r := AppendCopyEscaped(buffer, Meaning(f, v).value);
      case WideText(_) => r := AppendCopyEscaped(buffer, Meaning(f, v).value);
      case Numeric(_) => r := AppendCopyEscaped(buffer, Meaning(f, v).value);
      case Date(_) => r := AppendCopyEscaped(buffer, Meaning(f, v).value);
      case Time(_) => r := AppendCopyEscaped(buffer, Meaning(f, v).value);
      case Timestamp(_) => r := AppendCopyEscaped(buffer, Meaning(f, v).value);
      case Interval(_) => r := AppendCopyEscaped(buffer, Meaning(f, v).value);
      case Guid(_) => r := AppendCopyEscaped(buffer, Meaning(f, v).value);
    }
  }

  method HexOf(bytes: seq<byte>) returns (hex: string)
    ensures hex == Hex(bytes)
  {
    hex := "";
    var i := 0;
    while i < |bytes|
      invariant i <= |bytes| && hex + Hex(bytes[i..]) == Hex(bytes)
    {
      assert bytes[i..][1..] == bytes[i + 1..];
      hex := hex + [HexDigit(bytes[i] / 16), HexDigit(bytes[i] % 16)];
      i := i + 1;
    }
  }

  type Row = seq<Option<string>>

  /** The fields of a row from the given column on, tabs between them. */
  function RowText(row: Row): string {
    if row == [] then ""
    else if |row| == 1 then FieldText(row[0])
    else RowText(row[..|row| - 1]) + "\t" + FieldText(row[|row| - 1])
  }

  function Stream(rows: seq<Row>): string {
    if rows == [] then "" else Stream(rows[..|rows| - 1]) + RowText(rows[|rows| - 1]) + "\n"
  }

  function Meanings(f: Formats, values: seq<BoundValue>): (row: Row)
    requires forall i :: 0 <= i < |values| ==> Storable(values[i])
    ensures |row| == |values|
  {
    seq(|values|, i requires 0 <= i < |values| => Meaning(f, values[i]))
  }

  lemma RowFits(r: nat, count: nat, columns: nat)
    requires r < count
    ensures (r + 1) * columns <= count * columns && r * columns + columns == (r + 1) * columns
  {
    assert (r + 1) * columns + (count - r - 1) * columns == count * columns;
  }

  function RowAt(f: Formats, flat: seq<BoundValue>, columns: nat, r: nat): Row
    requires (r + 1) * columns <= |flat| && forall i :: 0 <= i < |flat| ==> Storable(flat[i])
  {
    assert r * columns + columns == (r + 1) * columns;
    Meanings(f, flat[r * columns..][..columns])
  }

  function RowsOf(f: Formats, flat: seq<BoundValue>, columns: nat, count: nat): (rows: seq<Row>)
    requires count * columns <= |flat| && forall i :: 0 <= i < |flat| ==> Storable(flat[i])
    ensures |rows| == count
  {
    if count == 0 then []
    else
      RowFits(count - 1, count, columns);
      RowsOf(f, flat, columns, count - 1) + [RowAt(f, flat, columns, count - 1)]
  }

  function Joined(buffers: seq<string>): string { if buffers == [] then "" else Joined(buffers[..|buffers| - 1]) + buffers[|buffers| - 1] }

  const FlushSize: nat := 32768

  /** A buffer that has reached its size is sent after the row that filled it. */
  function Flushed(sent: seq<string>, buffer: string): (seq<string>, string) {
    if |buffer| >= FlushSize then (sent + [buffer], "") else (sent, buffer)
  }

  /** The buffers complete after some rows, and the one begun. */
  function Filling(rows: seq<Row>): (seq<string>, string) {
    if rows == [] then ([], "")
    else
      var (sent, buffer) := Filling(rows[..|rows| - 1]);
      Flushed(sent, buffer + RowText(rows[|rows| - 1]) + "\n")
  }

  /** All the buffers of some rows. */
  function Buffers(rows: seq<Row>): seq<string> {
    var (sent, buffer) := Filling(rows);
    if buffer != "" then sent + [buffer] else sent
  }

  /** Flush points never change the stream, and no buffer is sent without a row for it. */
  lemma {:induction false} FillingIsStream(rows: seq<Row>)
    ensures var (sent, buffer) := Filling(rows);
      && Joined(sent) + buffer == Stream(rows) && |buffer| < FlushSize
      && |sent| + (if buffer != "" then 1 else 0) <= |rows|
      && forall i :: 0 <= i < |sent| ==> sent[i] != ""
    decreases |rows|
  {
    hide RowText;
    if rows != [] {
      var front, text := rows[..|rows| - 1], RowText(rows[|rows| - 1]);
      FillingIsStream(front);
      var (sent, buffer) := Filling(front);
      Regroup(Joined(sent), buffer, text, "\n");
      JoinedSnoc(sent, buffer + text + "\n");
    }
  }

  lemma BuffersAreStream(rows: seq<Row>)
    ensures Joined(Buffers(rows)) == Stream(rows) && |Buffers(rows)| <= |rows|
    ensures forall i :: 0 <= i < |Buffers(rows)| ==> Buffers(rows)[i] != ""
  {
    hide Filling, Joined, Stream;
    FillingIsStream(rows);
    var (sent, buffer) := Filling(rows);
    if buffer != "" { JoinedSnoc(sent, buffer); }
  }

  /** Buffers once complete stay the first ones. */
  lemma {:induction false} FillingGrows(rows: seq<Row>, n: nat)
    requires n <= |rows|
    ensures Filling(rows[..n]).0 <= Buffers(rows) && Filling(rows[..n]).0 <= Filling(rows).0
    decreases |rows|
  {
    hide RowText;
    if n < |rows| {
      var front := rows[..|rows| - 1];
      FillingGrows(front, n);
      assert front[..n] == rows[..n];
      assert Filling(front).0 <= Filling(rows).0;
    } else {
      assert rows[..n] == rows;
    }
  }

  /**
   * The COPY loop: `accepted` is how many buffers the connection takes before it fails, and `completes` tells whether
   * the end of the copy is sent and the server reports success. The buffers of the rows are sent in order, all of
   * them or as many as are taken, and the copy succeeds exactly when all are taken and it completes.
   */
  method CopyRows(f: Formats, flat: seq<BoundValue>, columns: nat, count: nat, accepted: nat, completes: bool)
    returns (ok: bool, sent: seq<string>)
    requires PlainDoubles(f) && columns > 0 && count * columns <= |flat|
    requires forall i :: 0 <= i < |flat| ==> Storable(flat[i])
    ensures var all := Buffers(RowsOf(f, flat, columns, count));
      && (ok <==> completes && |all| <= accepted)
      && sent == if |all| <= accepted then all else all[..accepted]
    ensures ok ==> Joined(sent) == Stream(RowsOf(f, flat, columns, count))
    ensures Joined(sent) <= Stream(RowsOf(f, flat, columns, count))
    ensures forall i :: 0 <= i < |sent| ==> sent[i] != ""
  {
    hide Escape, RowText, RowAt, RowsOf, Stream, Joined, Filling, Buffers;
    ghost var rows := RowsOf(f, flat, columns, count);
    BuffersAreStream(rows);
    var buffer := "";
    sent := [];
    NothingWritten(f, flat, columns);
    var r := 0;
    while r < count
      invariant r <= count && |sent| <= accepted
      invariant r * columns <= count * columns
      invariant Filling(RowsOf(f, flat, columns, r)) == (sent, buffer)
    {
      RowFits(r, count, columns);
      WritesRow(f, flat, columns, r);
      buffer := AppendRow(f, buffer, flat[r * columns..][..columns]);
      buffer := buffer + "\n";
      if |buffer| >= FlushSize {
        if |sent| == accepted {
          FirstRows(f, flat, columns, r + 1, count);
          FillingGrows(rows, r + 1);
          JoinedPrefix(Buffers(rows), accepted);
          return false, sent;
        }
        sent := sent + [buffer];
        buffer := "";
      }
      r := r + 1;
    }
    LastBuffer(rows);
    if buffer != "" {
      if |sent| == accepted {
        JoinedPrefix(Buffers(rows), accepted);
        return false, sent;
      }
      sent := sent + [buffer];
    }
    ok := completes;
  }

  lemma LastBuffer(rows: seq<Row>)
    ensures Buffers(rows) == if Filling(rows).1 != "" then Filling(rows).0 + [Filling(rows).1] else Filling(rows).0
  {
  }

  lemma {:induction false} JoinedPrefix(buffers: seq<string>, n: nat)
    requires n <= |buffers|
    ensures Joined(buffers[..n]) <= Joined(buffers)
    decreases |buffers|
  {
    if n < |buffers| {
      var front := buffers[..|buffers| - 1];
      JoinedPrefix(front, n);
      assert front[..n] == buffers[..n];
    } else {
      assert buffers[..n] == buffers;
    }
  }

  lemma {:induction false} FirstRows(f: Formats, flat: seq<BoundValue>, columns: nat, r: nat, count: nat)
    requires r <= count && count * columns <= |flat| && forall i :: 0 <= i < |flat| ==> Storable(flat[i])
    ensures r * columns <= |flat| && RowsOf(f, flat, columns, r) == RowsOf(f, flat, columns, count)[..r]
    decreases count
  {
    hide RowAt;
    if r < count {
      RowFits(count - 1, count, columns);
      FirstRows(f, flat, columns, r, count - 1);
    }
  }

  lemma NothingWritten(f: Formats, flat: seq<BoundValue>, columns: nat)
    requires forall i :: 0 <= i < |flat| ==> Storable(flat[i])
    ensures Filling(RowsOf(f, flat, columns, 0)) == ([], "")
  {
  }

  lemma JoinedSnoc(sent: seq<string>, buffer: string)
    ensures Joined(sent + [buffer]) == Joined(sent) + buffer
  {
    assert (sent + [buffer])[..|sent|] == sent;
  }

  lemma WritesRow(f: Formats, flat: seq<BoundValue>, columns: nat, r: nat)
    requires (r + 1) * columns <= |flat| && forall i :: 0 <= i < |flat| ==> Storable(flat[i])
    ensures r * columns + columns == (r + 1) * columns
    ensures RowAt(f, flat, columns, r) == Meanings(f, flat[r * columns..][..columns])
    ensures var (sent, buffer) := Filling(RowsOf(f, flat, columns, r));
      Filling(RowsOf(f, flat, columns, r + 1)) == Flushed(sent, buffer + RowText(RowAt(f, flat, columns, r)) + "\n")
  {
    hide RowText, Meanings;
    var rows, row := RowsOf(f, flat, columns, r), RowAt(f, flat, columns, r);
    assert RowsOf(f, flat, columns, r + 1) == rows + [row];
    assert (rows + [row])[..r] == rows;
  }

  lemma Regroup(a: string, b: string, c: string, d: string)
    ensures a + (b + c + d) == a + b + c + d
  {
  }

  method AppendRow(f: Formats, buffer: string, values: seq<BoundValue>) returns (r: string)
    requires PlainDoubles(f) && values != [] && forall i :: 0 <= i < |values| ==> Storable(values[i])
    ensures r == buffer + RowText(Meanings(f, values))
  {
    hide Escape, FieldText;
    r := buffer;
    var c := 0;
    while c < |values|
      invariant c <= |values|
      invariant r == buffer + RowText(Meanings(f, values[..c]))
    {
      ghost var was := r;
      if c > 0 { r := r + "\t"; }
      r := AppendValue(f, r, values[c]);
      ghost var row := Meanings(f, values[..c + 1]);
      assert row[..c] == Meanings(f, values[..c]) && row[c] == Meaning(f, values[c]);
      if c > 0 {
        RowTextSnoc(row);
        Regroup4(buffer, RowText(row[..c]), "\t", FieldText(row[c]));
      } else {
        RowTextOne(row);
      }
      c := c + 1;
    }
    assert values[..c] == values;
  }

  lemma Regroup4(a: string, b: string, c: string, d: string)
    ensures a + b + c + d == a + (b + c + d)
  {
  }

  lemma RowTextOne(row: Row)
    requires |row| == 1
    ensures RowText(row) == FieldText(row[0]) && RowText(row[..0]) == ""
  {
  }

  lemma RowTextSnoc(row: Row)
    requires |row| > 1
    ensures RowText(row) == RowText(row[..|row| - 1]) + "\t" + FieldText(row[|row| - 1])
  {
  }
}
