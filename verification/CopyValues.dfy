/**
 * What the server makes of a field of COPY for each type: the input syntax of integers, booleans, bytea and text in the
 * PostgreSQL documentation (Data Types), read without regard to how the fields were written.
 */
module CopyValues {
  import opened Values
  import opened CopyWriter
  import opened CopyReader
  import Decimal
  import Unicode

  // ---------------------------------------------------------------------------------------------
  // The input syntax of the types
  // ---------------------------------------------------------------------------------------------

  /** Decimal digits, with a sign or without. */
  function ReadInteger(s: string): Option<int> {
    if s != "" && s[0] == '-' then (match ReadDigits(s[1..]) case None => None case Some(n) => Some(-(n as int)))
    else if s != "" && s[0] == '+' then (match ReadDigits(s[1..]) case None => None case Some(n) => Some(n as int))
    else (match ReadDigits(s) case None => None case Some(n) => Some(n as int))
  }

  function ReadDigits(s: string): Option<nat> { if s != "" && Decimal.AllDigits(s) then Some(Decimal.Value(s)) else None }

  function ReadBoolean(s: string): Option<bool> {
    if s == "t" || s == "true" || s == "1" then Some(true) else if s == "f" || s == "false" || s == "0" then Some(false) else None
  }

  /** Two hexadecimal digits to a byte. */
  function ReadHex(s: string): Option<seq<byte>> {
    if s == "" then Some([])
    else if |s| >= 2 && IsHex(s[0]) && IsHex(s[1]) then
      match ReadHex(s[2..])
      case None => None
      case Some(rest) => Some([HexValue(s[0]) * 16 + HexValue(s[1])] + rest)
    else None
  }

  /** The hex format of bytea. */
  function ReadBytea(s: string): Option<seq<byte>> { if "\\x" <= s then ReadHex(s[2..]) else None }

  /** The code points of text in UTF-8; none if a character is no byte. */
  function ReadUtf8(s: string): Option<seq<Unicode.uint32>> {
    if forall i :: 0 <= i < |s| ==> s[i] as int < 256 then
      Some(Unicode.DecodeAll(seq(|s|, i requires 0 <= i < |s| && s[i] as int < 256 => s[i] as int)))
    else None
  }

  /** The field stands for this value: it is NULL for NULL only, and else text that the type of the value reads as it. */
  predicate Denotes(f: Formats, field: Option<string>, v: BoundValue) {
    match v
    case Null => field == None
    case Int64(i) => field.Some? && ReadInteger(field.value) == Some(i)
    case UInt64(u) => field.Some? && ReadInteger(field.value) == Some(u)
    case Double(bits) => field == Some(f.double(bits))
    case Text(s) => field == Some(s)
    case WideText(codePoints) =>
      field.Some? && ((forall i :: 0 <= i < |codePoints| ==> codePoints[i] <= 0x10_FFFF) ==> ReadUtf8(field.value) == Some(codePoints))
    case Bool(b) => field.Some? && ReadBoolean(field.value) == Some(b)
    case Blob(bytes) => field.Some? && ReadBytea(field.value) == Some(bytes)
    case Numeric(digits) => field == Some(digits)
    case Date(date) => field == Some(f.date(date))
    case Time(time) => field == Some(f.time(time))
    case Timestamp(timestamp) => field == Some(f.timestamp(timestamp))
    case Interval(text) => field == Some(text)
    case Guid(guid) => field == Some(guid)
  }

  // ---------------------------------------------------------------------------------------------
  // The fields written denote their values
  // ---------------------------------------------------------------------------------------------

  lemma IntegersReadBack(i: int)
    ensures ReadInteger(Signed(i)) == Some(i)
  {
    if i < 0 {
      var digits := Decimal.ToString(-i);
      assert Signed(i)[0] == '-' && Signed(i)[1..] == digits;
    } else {
      var digits := Decimal.ToString(i);
      assert Decimal.IsDigit(digits[0]);
    }
  }

  lemma HexDigitReads(n: nat)
    requires n < 16
    ensures IsHex(HexDigit(n)) && HexValue(HexDigit(n)) == n
  {
  }

  lemma {:induction false} BytesReadBack(bytes: seq<byte>)
    ensures ReadHex(Hex(bytes)) == Some(bytes)
    decreases |bytes|
  {
    hide HexDigit, HexValue, IsHex;
    if bytes != [] {
      var high, low := bytes[0] / 16, bytes[0] % 16;
      BytesReadBack(bytes[1..]);
      HexDigitReads(high);
      HexDigitReads(low);
      var s := [HexDigit(high), HexDigit(low)] + Hex(bytes[1..]);
      assert s[2..] == Hex(bytes[1..]) && s[0] == HexDigit(high) && s[1] == HexDigit(low);
      assert bytes == [high * 16 + low] + bytes[1..];
    }
  }

  lemma CharsReadBack(codePoints: seq<nat>)
    requires forall i :: 0 <= i < |codePoints| ==> codePoints[i] <= 0x10_FFFF
    ensures ReadUtf8(AsChars(Unicode.EncodeAll(codePoints))) == Some(codePoints)
  {
    hide Unicode.EncodeAll, Unicode.DecodeAll;
    var bytes := Unicode.EncodeAll(codePoints);
    var s := AsChars(bytes);
    assert forall i :: 0 <= i < |s| ==> s[i] == bytes[i] as char && s[i] as int < 256;
    assert seq(|s|, i requires 0 <= i < |s| && s[i] as int < 256 => s[i] as int) == bytes;
    Unicode.Utf8RoundTrip(codePoints);
  }

  /** The text written for a value is read as the value by the input syntax of its type. */
  lemma MeaningDenotes(f: Formats, v: BoundValue)
    requires Storable(v)
    ensures Denotes(f, Meaning(f, v), v)
  {
    hide ReadInteger, ReadHex, ReadUtf8, Hex, Signed, AsChars, Unicode.EncodeAll;
    match v
    case Int64(i) => IntegersReadBack(i);
    case UInt64(u) =>
      IntegersReadBack(u);
      assert Signed(u) == Decimal.ToString(u) by { UnsignedText(u); }
    case Blob(bytes) =>
      BytesReadBack(bytes);
      assert ("\\x" + Hex(bytes))[2..] == Hex(bytes);
    case WideText(codePoints) =>
      if forall i :: 0 <= i < |codePoints| ==> codePoints[i] <= 0x10_FFFF { CharsReadBack(codePoints); }
    case _ =>
  }

  lemma UnsignedText(u: nat)
    ensures Signed(u) == Decimal.ToString(u)
  {
  }

  /**
   * A bulk insert delivers its values: the field the server reads at row `r` and column `c` is NULL exactly for NULL, and
   * else is read by the type of the value as the value: integers with their signs, truth values, bytes, and text.
   */
  lemma BulkInsertDelivers(f: Formats, flat: seq<BoundValue>, columns: nat, count: nat, sent: seq<string>, r: nat, c: nat)
    requires columns > 0 && count * columns <= |flat| && forall i :: 0 <= i < |flat| ==> Storable(flat[i])
    requires Joined(sent) == Stream(RowsOf(f, flat, columns, count))
    requires r < count && c < columns
    ensures r * columns + c < |flat|
    ensures var rows := ReadRows(Joined(sent));
      && rows.Some? && |rows.value| == count && |rows.value[r]| == columns
      && Denotes(f, rows.value[r][c], flat[r * columns + c])
      && (rows.value[r][c] == None <==> flat[r * columns + c].Null?)
  {
    hide ReadRows, Stream, RowsOf, Meaning, Denotes, Joined;
    BulkInsertArrives(f, flat, columns, count, sent, r, c);
    MeaningDenotes(f, flat[r * columns + c]);
    OnlyNullIsNull(f, flat[r * columns + c]);
  }

  lemma OnlyNullIsNull(f: Formats, v: BoundValue)
    requires Storable(v)
    ensures Meaning(f, v) == None <==> v.Null?
  {
  }
}
