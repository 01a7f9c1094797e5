/**
 * Binding many rows at once through ODBC: pass 1 settles each column's type and row stride, pass 2 copies every
 * value into the column's buffer. Column by column the buffers must hold what binding row by row would have bound.
 */
module ColumnArrays {
  import opened Values
  import Decimal
  import DecimalOrder
  import Unicode

  datatype CType = Default | SBigInt | UBigInt | DoubleType | Bit | Char | WChar | Binary | TypeDate | TypeTime | TypeTimestamp
  datatype SqlType =
    | BigInt | DoublePrecision | BitValue | VarChar | WVarChar | VarBinary | NumericValue | DateValue | TimeValue | TimestampValue

  type uint16 = Unicode.uint16

  /** What pass 1 knows of a column after some of its values. */
  datatype Widest = Widest(cType: CType, sqlType: SqlType, maxLen: nat)

  const NoValue := Widest(Default, VarChar, 1)

  function Max(a: nat, b: nat): nat { if a >= b then a else b }

  predicate IsWideText(codePoints: seq<nat>) { forall i :: 0 <= i < |codePoints| ==> codePoints[i] < 0x1_0000_0000 }

  /** The units a wide text needs, one more for its end. */
  function WideLength(codePoints: seq<nat>): nat {
    if codePoints == [] then 1 else WideLength(codePoints[..|codePoints| - 1]) + if codePoints[|codePoints| - 1] >= 0x1_0000 then 2 else 1
  }

  /** The branches of pass 1. A uint64 that no int64 holds turns its column to text for good. */
  function Widen(w: Widest, v: BoundValue): Widest {
    match v
    case Null => w
    case Int64(_) => Widest(SBigInt, BigInt, w.maxLen)
    case UInt64(u) =>
      if u > 0x7FFF_FFFF_FFFF_FFFF then Widest(Char, VarChar, Max(w.maxLen, 25))
      else if w.cType != Char then Widest(UBigInt, BigInt, w.maxLen)
      else w.(maxLen := Max(w.maxLen, 25))
    case Double(_) => Widest(DoubleType, DoublePrecision, w.maxLen)
    case Bool(_) => Widest(Bit, BitValue, w.maxLen)
    case Text(s) => Widest(Char, VarChar, Max(w.maxLen, |s| + 1))
    case WideText(codePoints) => Widest(WChar, WVarChar, Max(w.maxLen, WideLength(codePoints)))
    case Blob(bytes) => Widest(Binary, VarBinary, Max(w.maxLen, if |bytes| > 0 then |bytes| else 1))
    case Numeric(digits) => Widest(Char, NumericValue, Max(w.maxLen, |digits| + 1))
    case Date(_) => Widest(TypeDate, DateValue, w.maxLen)
    case Time(_) => Widest(TypeTime, TimeValue, w.maxLen)
    case Timestamp(_) => Widest(TypeTimestamp, TimestampValue, w.maxLen)
    case Interval(text) => Widest(Char, VarChar, Max(w.maxLen, |text| + 1))
    case Guid(_) => Widest(Char, VarChar, Max(w.maxLen, 37))
  }

  function WidestOf(values: seq<BoundValue>): Widest {
    if values == [] then NoValue else Widen(WidestOf(values[..|values| - 1]), values[|values| - 1])
  }

  /** A column's buffers; only the one of its type is used. An indicator is a length in bytes, or -1 for NULL. */
  datatype ColArrays = ColArrays(cType: CType, sqlType: SqlType, stride: nat, colSize: nat, decDigits: nat, indicators: seq<int>,
                                 intData: seq<int>, uintData: seq<nat>, dblData: seq<nat>, bitData: seq<byte>, strData: string,
                                 wstrData: seq<uint16>, blobData: seq<byte>, dateData: seq<SqlDate>, timeData: seq<SqlTime>,
                                 tsData: seq<SqlTimestamp>)

  const NoDate := SqlDate(0, 0, 0)
  const NoTime := SqlTime(0, 0, 0, 0)

  function Filled<T>(n: nat, value: T): (r: seq<T>)
    ensures |r| == n
  {
    seq(n, _ => value)
  }

  /** The switch at the end of pass 1, which sizes the buffers. A column of NULLs is a text column. */
  function Sized(w: Widest, rows: nat): ColArrays {
    var cType := if w.cType == Default then Char else w.cType;
    var sqlType := if w.cType == Default then VarChar else w.sqlType;
    var c := ColArrays(cType, sqlType, 0, 0, 0, Filled(rows, 0), [], [], [], [], "", [], [], [], [], []);
    match cType
    case SBigInt => c.(intData := Filled(rows, 0), stride := 8, colSize := 19)
    case UBigInt => c.(uintData := Filled(rows, 0), stride := 8, colSize := 20)
    case DoubleType => c.(dblData := Filled(rows, 0), stride := 8, colSize := 53)
    case Bit => c.(bitData := Filled(rows, 0), stride := 1, colSize := 1)
    case Char =>
      c.(strData := Filled(rows * w.maxLen, '\0'), stride := w.maxLen,
         colSize := if sqlType == NumericValue then 28 else if w.maxLen > 1 then w.maxLen - 1 else 1,
         decDigits := if sqlType == NumericValue then 6 else 0)
    case WChar =>
      c.(wstrData := Filled(rows * w.maxLen, 0), stride := w.maxLen * 2, colSize := if w.maxLen > 1 then w.maxLen - 1 else 1)
    case Binary => c.(blobData := Filled(rows * w.maxLen, 0), stride := w.maxLen, colSize := w.maxLen)
    case TypeDate => c.(dateData := Filled(rows, NoDate), stride := 6, colSize := 10)
    case TypeTime => c.(timeData := Filled(rows, NoTime), stride := 6, colSize := 8)
    case TypeTimestamp => c.(tsData := Filled(rows, SqlTimestamp(NoDate, NoTime, 0)), stride := 16, colSize := 27, decDigits := 6)
  }

  // ---------------------------------------------------------------------------------------------
  // Pass 2
  // ---------------------------------------------------------------------------------------------

  /** A copy into a buffer: it must end inside. */
  function Overwrite<T>(buffer: seq<T>, at: nat, data: seq<T>): (r: seq<T>)
    requires at + |data| <= |buffer|
    ensures |r| == |buffer|
  {
    buffer[..at] + data + buffer[at + |data|..]
  }

  function Int16(n: int): int { if n % 0x1_0000 < 0x8000 then n % 0x1_0000 else n % 0x1_0000 - 0x1_0000 }

  /** The value's kind, which all values of a column share but NULL. */
  datatype Kind = NullKind | IntKind | UIntKind | DoubleKind | TextKind | WideKind | BoolKind | BlobKind | NumericKind | DateKind | TimeKind
                | TimestampKind | IntervalKind | GuidKind

  function KindOf(v: BoundValue): Kind {
    match v
    case Null => NullKind
    case Int64(_) => IntKind
    case UInt64(_) => UIntKind
    case Double(_) => DoubleKind
    case Text(_) => TextKind
    case WideText(_) => WideKind
    case Bool(_) => BoolKind
    case Blob(_) => BlobKind
    case Numeric(_) => NumericKind
    case Date(_) => DateKind
    case Time(_) => TimeKind
    case Timestamp(_) => TimestampKind
    case Interval(_) => IntervalKind
    case Guid(_) => GuidKind
  }

  /** The buffer of the column's type has a cell for each row. */
  predicate ShapeOk(c: ColArrays, rows: nat) {
    && |c.indicators| == rows
    && match c.cType
       case Default => false
       case SBigInt => |c.intData| == rows
       case UBigInt => |c.uintData| == rows
       case DoubleType => |c.dblData| == rows
       case Bit => |c.bitData| == rows
       case Char => |c.strData| == rows * c.stride
       case WChar => |c.wstrData| == rows * (c.stride / 2)
       case Binary => |c.blobData| == rows * c.stride
       case TypeDate => |c.dateData| == rows
       case TypeTime => |c.timeData| == rows
       case TypeTimestamp => |c.tsData| == rows
  }

  /** The value is of the column's type and fits in one of its rows. */
  predicate Fits(c: ColArrays, v: BoundValue) {
    match v
    case Null => true
    case Int64(_) => c.cType == SBigInt
    case UInt64(u) => c.cType == UBigInt || (c.cType == Char && |Decimal.ToString(u)| + 1 <= c.stride)
    case Double(_) => c.cType == DoubleType
    case Text(s) => c.cType == Char && |s| + 1 <= c.stride
    case WideText(codePoints) => c.cType == WChar && IsWideText(codePoints) && |Unicode.UnitsOf(codePoints)| + 1 <= c.stride / 2
    case Bool(_) => c.cType == Bit
    case Blob(bytes) => c.cType == Binary && |bytes| <= c.stride
    case Numeric(digits) => c.cType == Char && |digits| + 1 <= c.stride
    case Date(_) => c.cType == TypeDate
    case Time(_) => c.cType == TypeTime
    case Timestamp(_) => c.cType == TypeTimestamp
    case Interval(text) => c.cType == Char && |text| + 1 <= c.stride
    case Guid(guid) => c.cType == Char && |guid| + 1 <= c.stride
  }

  lemma Distribute(a: nat, b: nat, stride: nat)
    ensures (a + b) * stride == a * stride + b * stride
  {
  }

  lemma RowInside(r: nat, rows: nat, stride: nat, length: nat)
    requires r < rows && length <= stride
    ensures r * stride + length <= rows * stride
  {
    Distribute(r, rows - r, stride);
    Distribute(1, rows - r - 1, stride);
  }

  function PutText(c: ColArrays, rows: nat, r: nat, s: string): ColArrays
    requires ShapeOk(c, rows) && r < rows && c.cType == Char && |s| + 1 <= c.stride
  {
    RowInside(r, rows, c.stride, |s| + 1);
    c.(strData := Overwrite(c.strData, r * c.stride, s + "\0"), indicators := c.indicators[r := |s|])
  }

  /** Units are cut at the row's end, and their last, the zero, is not counted. */
  function PutUnits(c: ColArrays, rows: nat, r: nat, units: seq<uint16>): ColArrays
    requires ShapeOk(c, rows) && r < rows && c.cType == WChar
  {
    var most := c.stride / 2;
    var count := if |units| <= most then |units| else most;
    RowInside(r, rows, most, count);
    c.(wstrData := Overwrite(c.wstrData, r * most, units[..count]),
       indicators := c.indicators[r := (if count > 0 then count - 1 else 0) * 2])
  }

  function PutBytes(c: ColArrays, rows: nat, r: nat, bytes: seq<byte>): ColArrays
    requires ShapeOk(c, rows) && r < rows && c.cType == Binary && |bytes| <= c.stride
  {
    RowInside(r, rows, c.stride, |bytes|);
    c.(blobData := Overwrite(c.blobData, r * c.stride, bytes), indicators := c.indicators[r := |bytes|])
  }

  /** The branches of pass 2. */
  function Put(c: ColArrays, rows: nat, r: nat, v: BoundValue): ColArrays
    requires ShapeOk(c, rows) && r < rows && Fits(c, v)
  {
    match v
    case Null => c.(indicators := c.indicators[r := -1])
    case Int64(i) => c.(intData := c.intData[r := i], indicators := c.indicators[r := 8])
    case UInt64(u) =>
      if c.cType == Char then PutText(c, rows, r, Decimal.ToString(u))
      else c.(uintData := c.uintData[r := u], indicators := c.indicators[r := 8])
    case Double(bits) => c.(dblData := c.dblData[r := bits], indicators := c.indicators[r := 8])
    case Text(s) => PutText(c, rows, r, s)
    case WideText(codePoints) => PutUnits(c, rows, r, Unicode.UnitsOf(codePoints) + [0])
    case Bool(b) => c.(bitData := c.bitData[r := if b then 1 else 0], indicators := c.indicators[r := 1])
    case Blob(bytes) => PutBytes(c, rows, r, bytes)
    case Numeric(digits) => PutText(c, rows, r, digits)
    case Date(date) => c.(dateData := c.dateData[r := date.(year := Int16(date.year))], indicators := c.indicators[r := 6])
    case Time(time) => c.(timeData := c.timeData[r := time.(fraction := 0)], indicators := c.indicators[r := 6])
    case Timestamp(ts) =>
      c.(tsData := c.tsData[r := SqlTimestamp(ts.date.(year := Int16(ts.date.year)), ts.time, 0)], indicators := c.indicators[r := 16])
    case Interval(text) => PutText(c, rows, r, text)
    case Guid(guid) => PutText(c, rows, r, guid)
  }

  // ---------------------------------------------------------------------------------------------
  // What a driver reads from a cell
  // ---------------------------------------------------------------------------------------------

  /** Wide text is compared as the units it is sent in. */
  datatype Cell = Bound(value: BoundValue) | Units(units: seq<uint16>) | Unreadable

  function CellText(s: string, kind: Kind): Cell {
    match kind
    case UIntKind => if forall i :: 0 <= i < |s| ==> Decimal.IsDigit(s[i]) then Bound(UInt64(Decimal.Value(s))) else Unreadable
    case TextKind => Bound(Text(s))
    case NumericKind => Bound(Numeric(s))
    case IntervalKind => Bound(Interval(s))
    case GuidKind => Bound(Guid(s))
    case _ => Unreadable
  }

  function Slice<T>(buffer: seq<T>, rows: nat, stride: nat, r: nat, length: nat): seq<T>
    requires |buffer| == rows * stride && r < rows && length <= stride
  {
    RowInside(r, rows, stride, length);
    buffer[r * stride..][..length]
  }

  function ReadCell(c: ColArrays, rows: nat, r: nat, kind: Kind): Cell
    requires ShapeOk(c, rows) && r < rows
  {
    var length := c.indicators[r];
    if length == -1 then Bound(Null)
    else match c.cType
      case SBigInt => Bound(Int64(c.intData[r]))
      case UBigInt => Bound(UInt64(c.uintData[r]))
      case DoubleType => Bound(Double(c.dblData[r]))
      case Bit => Bound(Bool(c.bitData[r] == 1))
      case Char =>
        if 0 <= length <= c.stride then CellText(Slice(c.strData, rows, c.stride, r, length), kind) else Unreadable
      case WChar =>
        if 0 <= length / 2 <= c.stride / 2 then Units(Slice(c.wstrData, rows, c.stride / 2, r, length / 2)) else Unreadable
      case Binary =>
        if 0 <= length <= c.stride then Bound(Blob(Slice(c.blobData, rows, c.stride, r, length))) else Unreadable
      case TypeDate => Bound(Date(c.dateData[r]))
      case TypeTime => Bound(Time(c.timeData[r]))
      case TypeTimestamp => Bound(Timestamp(c.tsData[r]))
  }

  /** The value as the types of ODBC carry it: years of 16 bits, times to the second, timestamps without zone. */
  function Carried(v: BoundValue): Cell
    requires v.WideText? ==> IsWideText(v.codePoints)
  {
    match v
    case WideText(codePoints) => Units(Unicode.UnitsOf(codePoints))
    case Date(date) => Bound(Date(date.(year := Int16(date.year))))
    case Time(time) => Bound(Time(time.(fraction := 0)))
    case Timestamp(ts) => Bound(Timestamp(SqlTimestamp(ts.date.(year := Int16(ts.date.year)), ts.time, 0)))
    case _ => Bound(v)
  }

  lemma OverwriteReads<T>(buffer: seq<T>, rows: nat, stride: nat, r: nat, data: seq<T>, length: nat)
    requires r < rows && |buffer| == rows * stride && length <= |data| <= stride
    ensures r * stride + |data| <= |buffer|
    ensures Overwrite(buffer, r * stride, data)[r * stride..][..length] == data[..length]
  {
    RowInside(r, rows, stride, |data|);
    var b := Overwrite(buffer, r * stride, data);
    assert b[r * stride..] == data + buffer[r * stride + |data|..];
  }

  lemma RowsApart(q: nat, r: nat, stride: nat)
    requires q < r
    ensures q * stride + stride <= r * stride
  {
    RowInside(q, r, stride, stride);
  }

  /** The other rows keep their cells, whatever their lengths. */
  lemma OverwriteSpares<T>(buffer: seq<T>, rows: nat, stride: nat, r: nat, data: seq<T>, q: nat, length: nat)
    requires r < rows && q < rows && q != r && |buffer| == rows * stride && |data| <= stride && length <= stride
    ensures r * stride + |data| <= |buffer| && q * stride + length <= |buffer|
    ensures Overwrite(buffer, r * stride, data)[q * stride..][..length] == buffer[q * stride..][..length]
  {
    RowInside(r, rows, stride, |data|);
    RowInside(q, rows, stride, length);
    var b := Overwrite(buffer, r * stride, data);
    if q < r { RowsApart(q, r, stride); } else { RowsApart(r, q, stride); }
    forall i | q * stride <= i < q * stride + length ensures b[i] == buffer[i] {
      if q < r { assert i < r * stride; } else { assert i >= r * stride + |data|; }
    }
  }

  /** A cell written reads back as the value ODBC carries. */
  lemma PutReads(c: ColArrays, rows: nat, r: nat, v: BoundValue, kind: Kind)
    requires ShapeOk(c, rows) && r < rows && Fits(c, v) && (v == Null || KindOf(v) == kind)
    ensures ShapeOk(Put(c, rows, r, v), rows) && ReadCell(Put(c, rows, r, v), rows, r, kind) == Carried(v)
  {
    match v
    case Null =>
    case Int64(_) =>
    case UInt64(u) => if c.cType == Char { PutTextReads(c, rows, r, Decimal.ToString(u), kind); }
    case Double(_) =>
    case Text(s) => PutTextReads(c, rows, r, s, kind);
    case WideText(codePoints) => PutWideReads(c, rows, r, codePoints, kind);
    case Bool(_) =>
    case Blob(bytes) =>
      OverwriteReads(c.blobData, rows, c.stride, r, bytes, |bytes|);
      assert bytes[..|bytes|] == bytes;
    case Numeric(digits) => PutTextReads(c, rows, r, digits, kind);
    case Date(_) =>
    case Time(_) =>
    case Timestamp(_) =>
    case Interval(text) => PutTextReads(c, rows, r, text, kind);
    case Guid(guid) => PutTextReads(c, rows, r, guid, kind);
  }

  lemma PutTextReads(c: ColArrays, rows: nat, r: nat, s: string, kind: Kind)
    requires ShapeOk(c, rows) && r < rows && c.cType == Char && |s| + 1 <= c.stride
    ensures ShapeOk(PutText(c, rows, r, s), rows) && ReadCell(PutText(c, rows, r, s), rows, r, kind) == CellText(s, kind)
  {
    OverwriteReads(c.strData, rows, c.stride, r, s + "\0", |s|);
    assert (s + "\0")[..|s|] == s;
  }

  lemma PutWideReads(c: ColArrays, rows: nat, r: nat, codePoints: seq<nat>, kind: Kind)
    requires ShapeOk(c, rows) && r < rows && Fits(c, WideText(codePoints))
    ensures var p := Put(c, rows, r, WideText(codePoints));
      ShapeOk(p, rows) && ReadCell(p, rows, r, kind) == Units(Unicode.UnitsOf(codePoints))
  {
    var text := Unicode.UnitsOf(codePoints);
    var units := text + [0];
    OverwriteReads(c.wstrData, rows, c.stride / 2, r, units, |text|);
    assert units[..|units|] == units && units[..|text|] == text;
  }

  lemma PutSpares(c: ColArrays, rows: nat, r: nat, v: BoundValue, q: nat, kind: Kind)
    requires ShapeOk(c, rows) && r < rows && q < rows && q != r && Fits(c, v)
    ensures ShapeOk(Put(c, rows, r, v), rows) && ReadCell(Put(c, rows, r, v), rows, q, kind) == ReadCell(c, rows, q, kind)
  {
    match v
    case Null =>
    case Int64(_) =>
    case UInt64(u) => if c.cType == Char { PutTextSpares(c, rows, r, Decimal.ToString(u), q, kind); }
    case Double(_) =>
    case Text(s) => PutTextSpares(c, rows, r, s, q, kind);
    case WideText(codePoints) => PutWideSpares(c, rows, r, codePoints, q, kind);
    case Bool(_) =>
    case Blob(bytes) => PutBlobSpares(c, rows, r, bytes, q, kind);
    case Numeric(digits) => PutTextSpares(c, rows, r, digits, q, kind);
    case Date(_) =>
    case Time(_) =>
    case Timestamp(_) =>
    case Interval(text) => PutTextSpares(c, rows, r, text, q, kind);
    case Guid(guid) => PutTextSpares(c, rows, r, guid, q, kind);
  }

  lemma PutWideSpares(c: ColArrays, rows: nat, r: nat, codePoints: seq<nat>, q: nat, kind: Kind)
    requires ShapeOk(c, rows) && r < rows && q < rows && q != r && Fits(c, WideText(codePoints))
    ensures var p := Put(c, rows, r, WideText(codePoints)); ShapeOk(p, rows) && ReadCell(p, rows, q, kind) == ReadCell(c, rows, q, kind)
  {
    var units := Unicode.UnitsOf(codePoints) + [0];
    assert units[..|units|] == units;
    var length := c.indicators[q] / 2;
    if 0 <= length <= c.stride / 2 { OverwriteSpares(c.wstrData, rows, c.stride / 2, r, units, q, length); }
    RowInside(r, rows, c.stride / 2, |units|);
  }

  lemma PutBlobSpares(c: ColArrays, rows: nat, r: nat, bytes: seq<byte>, q: nat, kind: Kind)
    requires ShapeOk(c, rows) && r < rows && q < rows && q != r && Fits(c, Blob(bytes))
    ensures var p := Put(c, rows, r, Blob(bytes)); ShapeOk(p, rows) && ReadCell(p, rows, q, kind) == ReadCell(c, rows, q, kind)
  {
    var length := c.indicators[q];
    if 0 <= length <= c.stride { OverwriteSpares(c.blobData, rows, c.stride, r, bytes, q, length); }
    RowInside(r, rows, c.stride, |bytes|);
  }

  lemma PutTextSpares(c: ColArrays, rows: nat, r: nat, s: string, q: nat, kind: Kind)
    requires ShapeOk(c, rows) && r < rows && q < rows && q != r && c.cType == Char && |s| + 1 <= c.stride
    ensures ShapeOk(PutText(c, rows, r, s), rows) && ReadCell(PutText(c, rows, r, s), rows, q, kind) == ReadCell(c, rows, q, kind)
  {
    var length := c.indicators[q];
    if 0 <= length <= c.stride { OverwriteSpares(c.strData, rows, c.stride, r, s + "\0", q, length); }
    RowInside(r, rows, c.stride, |s| + 1);
  }

  // ---------------------------------------------------------------------------------------------
  // Pass 1 makes room for every value
  // ---------------------------------------------------------------------------------------------

  /** Values as the library makes them. */
  predicate Sendable(v: BoundValue) {
    && (v.UInt64? ==> v.u < 0x1_0000_0000_0000_0000)
    && (v.WideText? ==> IsWideText(v.codePoints))
    && (v.Guid? ==> |v.guid| == 36)
  }

  predicate Homogeneous(values: seq<BoundValue>, kind: Kind) {
    forall i :: 0 <= i < |values| ==> (values[i] == Null || KindOf(values[i]) == kind) && Sendable(values[i])
  }

  /** What pass 1 has found is enough for the value. */
  predicate Covers(w: Widest, v: BoundValue) {
    match v
    case Null => true
    case Int64(_) => w.cType == SBigInt
    case UInt64(u) => (w.cType == UBigInt && u <= 0x7FFF_FFFF_FFFF_FFFF) || (w.cType == Char && w.maxLen >= 25)
    case Double(_) => w.cType == DoubleType
    case Text(s) => w.cType == Char && |s| + 1 <= w.maxLen
    case WideText(codePoints) => w.cType == WChar && WideLength(codePoints) <= w.maxLen
    case Bool(_) => w.cType == Bit
    case Blob(bytes) => w.cType == Binary && |bytes| <= w.maxLen
    case Numeric(digits) => w.cType == Char && |digits| + 1 <= w.maxLen
    case Date(_) => w.cType == TypeDate
    case Time(_) => w.cType == TypeTime
    case Timestamp(_) => w.cType == TypeTimestamp
    case Interval(text) => w.cType == Char && |text| + 1 <= w.maxLen
    case Guid(_) => w.cType == Char && w.maxLen >= 37
  }

  lemma WidenCovers(w: Widest, v: BoundValue)
    ensures Covers(Widen(w, v), v)
  {
  }

  /** Later values of the kind take nothing away. */
  lemma WidenKeeps(w: Widest, v: BoundValue, later: BoundValue)
    requires Covers(w, v) && (later == Null || KindOf(later) == KindOf(v))
    ensures Covers(Widen(w, later), v)
  {
    hide WideLength;
  }

  lemma {:induction false} WidestCoversAll(values: seq<BoundValue>, kind: Kind, i: nat)
    requires Homogeneous(values, kind) && i < |values|
    ensures Covers(WidestOf(values), values[i])
    decreases |values|
  {
    hide Covers, Widen;
    var front, last := values[..|values| - 1], values[|values| - 1];
    if i == |values| - 1 {
      WidenCovers(WidestOf(front), last);
    } else if values[i] == Null {
      NullIsCovered(WidestOf(values));
    } else {
      WidestCoversAll(front, kind, i);
      WidenKeeps(WidestOf(front), values[i], last);
    }
  }

  lemma NullIsCovered(w: Widest)
    ensures Covers(w, Null)
  {
  }

  lemma {:induction false} WideLengthIsUnits(codePoints: seq<nat>)
    requires IsWideText(codePoints)
    ensures WideLength(codePoints) == |Unicode.UnitsOf(codePoints)| + 1
    decreases |codePoints|
  {
    if codePoints != [] { WideLengthIsUnits(codePoints[..|codePoints| - 1]); }
  }

  lemma AtMostTwentyDigits(u: nat)
    requires u < 0x1_0000_0000_0000_0000
    ensures |Decimal.ToString(u)| <= 20
  {
    var s := Decimal.ToString(u);
    assert Decimal.Pow10(10) == 10_000_000_000;
    DecimalOrder.PowSum(10, 10);
    if |s| > 20 {
      DecimalOrder.ValueIsAbove(s);
      DecimalOrder.PowGrows(20, |s| - 1);
    }
  }

  lemma CoveredFits(w: Widest, rows: nat, v: BoundValue)
    requires Covers(w, v) && Sendable(v)
    ensures Fits(Sized(w, rows), v)
  {
    match v
    case UInt64(u) => AtMostTwentyDigits(u);
    case WideText(codePoints) => WideLengthIsUnits(codePoints);
    case _ =>
  }

  lemma SizedIsShaped(w: Widest, rows: nat)
    ensures ShapeOk(Sized(w, rows), rows)
  {
  }

  // ---------------------------------------------------------------------------------------------
  // Both passes
  // ---------------------------------------------------------------------------------------------

  lemma CellInside(r: nat, rows: nat, columns: nat, c: nat)
    requires r < rows && c < columns
    ensures r * columns + c < rows * columns
  {
    RowInside(r, rows, columns, c + 1);
  }

  /** The values of a column, from the first row to the last. */
  function Column(flat: seq<BoundValue>, columns: nat, rows: nat, c: nat): (values: seq<BoundValue>)
    requires rows * columns <= |flat| && c < columns
    ensures |values| == rows
  {
    seq(rows, r requires 0 <= r < rows => (CellInside(r, rows, columns, c); flat[r * columns + c]))
  }

  /** A column whose buffers are sized for all its values, of which the first `n` are written. */
  ghost predicate Ready(a: ColArrays, values: seq<BoundValue>) {
    ShapeOk(a, |values|) && forall i :: 0 <= i < |values| ==> Fits(a, values[i])
  }

  ghost predicate Done(a: ColArrays, values: seq<BoundValue>, n: nat, kind: Kind) {
    && n <= |values| && ShapeOk(a, |values|)
    && (forall i :: 0 <= i < |values| ==> Sendable(values[i]))
    && forall r :: 0 <= r < n ==> ReadCell(a, |values|, r, kind) == Carried(values[r])
  }

  lemma WidestIsReady(values: seq<BoundValue>, kind: Kind)
    requires Homogeneous(values, kind)
    ensures Ready(Sized(WidestOf(values), |values|), values) && Done(Sized(WidestOf(values), |values|), values, 0, kind)
  {
    hide Sized, WidestOf, Fits, ShapeOk, Covers, Sendable;
    SizedIsShaped(WidestOf(values), |values|);
    forall i | 0 <= i < |values| ensures Fits(Sized(WidestOf(values), |values|), values[i]) {
      WidestCoversAll(values, kind, i);
      CoveredFits(WidestOf(values), |values|, values[i]);
    }
  }

  lemma PutAdvances(a: ColArrays, values: seq<BoundValue>, r: nat, kind: Kind)
    requires Homogeneous(values, kind) && Ready(a, values) && Done(a, values, r, kind) && r < |values|
    ensures Ready(Put(a, |values|, r, values[r]), values) && Done(Put(a, |values|, r, values[r]), values, r + 1, kind)
  {
    hide ReadCell, Carried, Put, Fits, ShapeOk;
    var b := Put(a, |values|, r, values[r]);
    PutReads(a, |values|, r, values[r], kind);
    forall q | 0 <= q < r ensures ReadCell(b, |values|, q, kind) == Carried(values[q]) {
      PutSpares(a, |values|, r, values[r], q, kind);
    }
    forall i | 0 <= i < |values| ensures Fits(b, values[i]) {
      PutKeepsRoom(a, |values|, r, values[r], values[i]);
    }
  }

  lemma PutKeepsRoom(a: ColArrays, rows: nat, r: nat, v: BoundValue, other: BoundValue)
    requires ShapeOk(a, rows) && r < rows && Fits(a, v) && Fits(a, other)
    ensures Fits(Put(a, rows, r, v), other)
  {
    assert Put(a, rows, r, v).cType == a.cType && Put(a, rows, r, v).stride == a.stride;
  }

  method WideUnits(codePoints: seq<nat>) returns (length: nat)
    ensures length == WideLength(codePoints)
  {
    length := 1;
    for i := 0 to |codePoints|
      invariant length == WideLength(codePoints[..i])
    {
      assert codePoints[..i + 1][..i] == codePoints[..i];
      length := length + if codePoints[i] >= 0x1_0000 then 2 else 1;
    }
    assert codePoints[..|codePoints|] == codePoints;
  }

  method PassOne(values: seq<BoundValue>) returns (a: ColArrays)
    ensures a == Sized(WidestOf(values), |values|)
  {
    var w := NoValue;
    for r := 0 to |values|
      invariant w == WidestOf(values[..r])
    {
      assert values[..r + 1][..r] == values[..r];
      if values[r].WideText? {
        var length := WideUnits(values[r].codePoints);
        w := Widest(WChar, WVarChar, Max(w.maxLen, length));
      } else {
        w := Widen(w, values[r]);
      }
    }
    assert values[..|values|] == values;
    a := Sized(w, |values|);
  }

  /**
   * Both passes over the flat values: each cell of the column arrays reads as what binding its row would have
   * bound, NULLs and text columns of large unsigned numbers included, in whatever order they come.
   */
  method FillColumns(flat: seq<BoundValue>, columns: nat, rows: nat, ghost kinds: seq<Kind>) returns (arrays: seq<ColArrays>)
    requires rows * columns <= |flat| && |kinds| == columns
    requires forall c :: 0 <= c < columns ==> Homogeneous(Column(flat, columns, rows, c), kinds[c])
    ensures |arrays| == columns
    ensures forall c :: 0 <= c < columns ==> Done(arrays[c], Column(flat, columns, rows, c), rows, kinds[c])
  {
    hide Column, Homogeneous, Ready, Done;
    arrays := [];
    for c := 0 to columns
      invariant |arrays| == c
      invariant forall d :: 0 <= d < c ==> Ready(arrays[d], Column(flat, columns, rows, d))
      invariant forall d :: 0 <= d < c ==> Done(arrays[d], Column(flat, columns, rows, d), 0, kinds[d])
    {
      var a := PassOne(Column(flat, columns, rows, c));
      WidestIsReady(Column(flat, columns, rows, c), kinds[c]);
      arrays := arrays + [a];
    }
    for r := 0 to rows
      invariant |arrays| == columns
      invariant forall d :: 0 <= d < columns ==> Ready(arrays[d], Column(flat, columns, rows, d))
      invariant forall d :: 0 <= d < columns ==> Done(arrays[d], Column(flat, columns, rows, d), r, kinds[d])
    {
      for c := 0 to columns
        invariant |arrays| == columns
        invariant forall d :: 0 <= d < columns ==> Ready(arrays[d], Column(flat, columns, rows, d))
        invariant forall d :: 0 <= d < c ==> Done(arrays[d], Column(flat, columns, rows, d), r + 1, kinds[d])
        invariant forall d :: c <= d < columns ==> Done(arrays[d], Column(flat, columns, rows, d), r, kinds[d])
      {
        PutAdvances(arrays[c], Column(flat, columns, rows, c), r, kinds[c]);
        CellInside(r, rows, columns, c);
        ColumnAt(flat, columns, rows, c, r);
        RoomFor(arrays[c], Column(flat, columns, rows, c), r);
        arrays := arrays[c := Put(arrays[c], rows, r, flat[r * columns + c])];
      }
    }
  }

  lemma ColumnAt(flat: seq<BoundValue>, columns: nat, rows: nat, c: nat, r: nat)
    requires rows * columns <= |flat| && c < columns && r < rows
    ensures r * columns + c < |flat| && Column(flat, columns, rows, c)[r] == flat[r * columns + c]
  {
    CellInside(r, rows, columns, c);
  }

  lemma RoomFor(a: ColArrays, values: seq<BoundValue>, r: nat)
    requires Ready(a, values) && r < |values|
    ensures ShapeOk(a, |values|) && Fits(a, values[r])
  {
  }
}
