/**
 * The types a column of a batch is declared with, beside those a value of a single row is declared with by the
 * prepared statement for any server but Oracle (src/driver/odbc_connection.cpp).
 */
module ColumnTypes {
  import opened Values
  import opened ColumnArrays
  import Unicode

  /** The arguments of `SQLBindParameter` that say what a parameter is. */
  datatype Declared = Declared(cType: CType, sqlType: SqlType, colSize: nat, decDigits: nat)

  function AtLeastOne(n: nat): nat { if n == 0 then 1 else n }

  /** The branches of `apply_bindings`; a numeric is declared with its own precision and scale where it has them. */
  function SingleRow(v: BoundValue, precision: nat, scale: int): Declared
    requires v.WideText? ==> IsWideText(v.codePoints)
  {
    match v
    case Null => Declared(Char, VarChar, 1, 0)
    case Int64(_) => Declared(SBigInt, BigInt, 19, 0)
    case UInt64(_) => Declared(Char, NumericValue, 20, 0)
    case Double(_) => Declared(DoubleType, DoublePrecision, 53, 0)
    case Text(s) => Declared(Char, VarChar, AtLeastOne(|s|), 0)
    case WideText(codePoints) => Declared(WChar, WVarChar, AtLeastOne(|Unicode.UnitsOf(codePoints)|), 0)
    case Bool(_) => Declared(Bit, BitValue, 1, 0)
    case Blob(bytes) => Declared(Binary, VarBinary, AtLeastOne(|bytes|), 0)
    case Numeric(_) => Declared(Char, NumericValue, if precision > 0 then precision else 28, if scale >= 0 then scale else 6)
    case Date(_) => Declared(TypeDate, DateValue, 10, 0)
    case Time(_) => Declared(Char, VarChar, 20, 0)
    case Timestamp(_) => Declared(TypeTimestamp, TimestampValue, 27, 6)
    case Interval(text) => Declared(Char, VarChar, AtLeastOne(|text|), 0)
    case Guid(_) => Declared(Char, VarChar, 36, 0)
  }

  /** What a column of these values is declared with. */
  function DeclaredColumn(values: seq<BoundValue>): Declared {
    var c := Sized(WidestOf(values), |values|);
    Declared(c.cType, c.sqlType, c.colSize, c.decDigits)
  }

  /** The characters of wide texts are of 32 bits. */
  predicate OfCharacters(values: seq<BoundValue>) {
    forall i :: 0 <= i < |values| ==> values[i].WideText? ==> IsWideText(values[i].codePoints)
  }

  /** Values whose size is the length of their text, units or bytes. */
  predicate HasLength(kind: Kind) { kind == TextKind || kind == WideKind || kind == BlobKind || kind == IntervalKind || kind == GuidKind }

  /** The largest size that one of the values is declared with by itself. */
  function LargestSize(values: seq<BoundValue>): nat
    requires OfCharacters(values)
  {
    if values == [] then 1
    else Max(LargestSize(values[..|values| - 1]), SingleRow(values[|values| - 1], 0, -1).colSize)
  }

  lemma {:induction false} LargestIsAttained(values: seq<BoundValue>)
    requires OfCharacters(values)
    ensures forall i :: 0 <= i < |values| ==> SingleRow(values[i], 0, -1).colSize <= LargestSize(values)
    ensures LargestSize(values) == 1 || exists i :: 0 <= i < |values| && SingleRow(values[i], 0, -1).colSize == LargestSize(values)
    decreases |values|
  {
    if values != [] {
      var n := |values| - 1;
      LargestIsAttained(values[..n]);
      forall i | 0 <= i < |values| ensures SingleRow(values[i], 0, -1).colSize <= LargestSize(values) {
        if i < n { assert values[i] == values[..n][i]; }
      }
      if LargestSize(values) != 1 && LargestSize(values) == LargestSize(values[..n]) {
        var i :| 0 <= i < n && SingleRow(values[..n][i], 0, -1).colSize == LargestSize(values[..n]);
        assert values[..n][i] == values[i];
      }
    }
  }

  /** The types of a column of this kind. */
  function TypesOf(kind: Kind, text: bool): (CType, SqlType) {
    match kind
    case NullKind => (Char, VarChar)
    case IntKind => (SBigInt, BigInt)
    case UIntKind => if text then (Char, VarChar) else (UBigInt, BigInt)
    case DoubleKind => (DoubleType, DoublePrecision)
    case WideKind => (WChar, WVarChar)
    case BoolKind => (Bit, BitValue)
    case BlobKind => (Binary, VarBinary)
    case NumericKind => (Char, NumericValue)
    case DateKind => (TypeDate, DateValue)
    case TimeKind => (TypeTime, TimeValue)
    case TimestampKind => (TypeTimestamp, TimestampValue)
    case TextKind => (Char, VarChar)
    case IntervalKind => (Char, VarChar)
    case GuidKind => (Char, VarChar)
  }

  predicate AllNull(values: seq<BoundValue>) { forall i :: 0 <= i < |values| ==> values[i] == Null }

  /** An unsigned number that no signed one of 64 bits is equal to. */
  predicate Large(v: BoundValue) { v.UInt64? && v.u > 0x7FFF_FFFF_FFFF_FFFF }

  predicate SomeLarge(values: seq<BoundValue>) { exists i :: 0 <= i < |values| && Large(values[i]) }

  /** What pass 1 has found after these values. */
  predicate Settled(w: Widest, values: seq<BoundValue>, kind: Kind)
    requires OfCharacters(values)
  {
    && w.maxLen >= 1
    && (AllNull(values) ==> w == NoValue)
    && (!AllNull(values) ==> (w.cType, w.sqlType) == TypesOf(kind, SomeLarge(values)))
    && (HasLength(kind) ==> Sized(w, 0).colSize == LargestSize(values))
    && (kind == UIntKind && SomeLarge(values) ==> w.maxLen == 25)
    && (kind == UIntKind && !SomeLarge(values) ==> w.maxLen == 1)
  }

  lemma SizeGrows(w: Widest, v: BoundValue)
    requires HasLength(KindOf(v)) && Sendable(v) && w.maxLen >= 1
    requires w == NoValue || (w.cType, w.sqlType) == TypesOf(KindOf(v), false)
    ensures Sized(Widen(w, v), 0).colSize == Max(Sized(w, 0).colSize, SingleRow(v, 0, -1).colSize)
  {
    if v.WideText? { WideLengthIsUnits(v.codePoints); }
  }

  lemma SnocNull(values: seq<BoundValue>, v: BoundValue)
    ensures AllNull(values + [v]) <==> AllNull(values) && v == Null
    ensures SomeLarge(values + [v]) <==> SomeLarge(values) || Large(v)
  {
    var all := values + [v];
    assert all[|values|] == v;
    assert forall i :: 0 <= i < |values| ==> all[i] == values[i];
    if SomeLarge(values) {
      var i :| 0 <= i < |values| && Large(values[i]);
      assert Large(all[i]);
    }
  }

  /** One value more. */
  lemma SettlesOn(w: Widest, values: seq<BoundValue>, v: BoundValue, kind: Kind)
    requires OfCharacters(values) && Settled(w, values, kind) && (v == Null || KindOf(v) == kind) && Sendable(v) && kind != NullKind
    requires forall i :: 0 <= i < |values| ==> values[i] == Null || KindOf(values[i]) == kind
    ensures OfCharacters(values + [v]) && Settled(Widen(w, v), values + [v], kind)
  {
    hide Sized;
    SnocNull(values, v);
    assert (values + [v])[..|values|] == values;
    if v == Null {
      NullIsSmall(w);
    } else if HasLength(kind) {
      OnlyUnsignedIsLarge(values, kind);
      SizeGrows(w, v);
    }
    if AllNull(values) { NullsAreSmall(values); }
  }

  lemma OnlyUnsignedIsLarge(values: seq<BoundValue>, kind: Kind)
    requires forall i :: 0 <= i < |values| ==> values[i] == Null || KindOf(values[i]) == kind
    requires kind != UIntKind
    ensures !SomeLarge(values)
  {
  }

  lemma NullIsSmall(w: Widest)
    ensures Sized(w, 0).colSize >= 1 || w.maxLen == 0
  {
  }

  lemma NullsAreSmall(values: seq<BoundValue>)
    requires AllNull(values)
    ensures LargestSize(values) == 1 && !SomeLarge(values)
  {
  }

  lemma {:induction false} WidestSettles(values: seq<BoundValue>, kind: Kind)
    requires Homogeneous(values, kind) && kind != NullKind
    ensures Settled(WidestOf(values), values, kind)
    decreases |values|
  {
    if values == [] {
      assert AllNull(values);
    } else {
      var n := |values| - 1;
      WidestSettles(values[..n], kind);
      SettlesOn(WidestOf(values[..n]), values[..n], values[n], kind);
      assert values[..n] + [values[n]] == values;
    }
  }

  lemma SizeOfRows(w: Widest, rows: nat)
    ensures Sized(w, rows).colSize == Sized(w, 0).colSize
  {
  }

  /** A column of one type is declared as each of its values is. */
  lemma FixedColumn(values: seq<BoundValue>, kind: Kind, i: nat)
    requires Homogeneous(values, kind) && i < |values| && values[i] != Null
    requires !HasLength(kind) && kind != UIntKind && kind != TimeKind && kind != NumericKind
    ensures DeclaredColumn(values) == SingleRow(values[i], 0, -1)
  {
    hide LargestSize, WidestOf, Settled;
    WidestSettles(values, kind);
    SettledIs(values, kind);
    OnlyUnsignedIsLarge(values, kind);
  }

  lemma SomeValue(values: seq<BoundValue>, i: nat)
    requires i < |values| && values[i] != Null
    ensures !AllNull(values)
  {
  }

  lemma SizedTypes(w: Widest, rows: nat, kind: Kind)
    requires HasLength(kind) && (w.cType, w.sqlType) == TypesOf(kind, false)
    ensures var c := Sized(w, rows); (c.cType, c.sqlType) == TypesOf(kind, false) && c.decDigits == 0
  {
  }

  lemma LengthTypes(v: BoundValue)
    requires HasLength(KindOf(v)) && (v.WideText? ==> IsWideText(v.codePoints))
    ensures var s := SingleRow(v, 0, -1); (s.cType, s.sqlType) == TypesOf(KindOf(v), false) && s.decDigits == 0
  {
  }

  lemma LengthColumn(values: seq<BoundValue>, kind: Kind, i: nat)
    requires Homogeneous(values, kind) && i < |values| && values[i] != Null && HasLength(kind)
    ensures var column, single := DeclaredColumn(values), SingleRow(values[i], 0, -1);
      && (column.cType, column.sqlType, column.decDigits) == (single.cType, single.sqlType, single.decDigits)
      && column.colSize == LargestSize(values) >= single.colSize
  {
    hide LargestSize, WidestOf, Settled, Sized, SingleRow, TypesOf, AllNull;
    var w := WidestOf(values);
    SomeValue(values, i);
    WidestSettles(values, kind);
    SettledIs(values, kind);
    OnlyUnsignedIsLarge(values, kind);
    LargestIsAttained(values);
    SizeOfRows(w, |values|);
    SizedTypes(w, |values|, kind);
    LengthTypes(values[i]);
  }

  lemma NumericColumn(values: seq<BoundValue>)
    requires Homogeneous(values, NumericKind) && !AllNull(values)
    ensures DeclaredColumn(values) == Declared(Char, NumericValue, 28, 6)
  {
    hide LargestSize, WidestOf, Settled;
    WidestSettles(values, NumericKind);
    SettledIs(values, NumericKind);
    OnlyUnsignedIsLarge(values, NumericKind);
  }

  lemma TimeColumn(values: seq<BoundValue>)
    requires Homogeneous(values, TimeKind) && !AllNull(values)
    ensures DeclaredColumn(values) == Declared(TypeTime, TimeValue, 8, 0)
  {
    hide LargestSize, WidestOf, Settled;
    WidestSettles(values, TimeKind);
    SettledIs(values, TimeKind);
    OnlyUnsignedIsLarge(values, TimeKind);
  }

  /** The types, and for all but numerics the digits too, are those of the values bound by themselves. */
  predicate Agrees(column: Declared, single: Declared, kind: Kind, largest: nat) {
    && (column.cType, column.sqlType) == (single.cType, single.sqlType)
    && (kind != NumericKind ==>
          column.decDigits == single.decDigits && column.colSize == (if HasLength(kind) then largest else single.colSize) >= single.colSize)
  }

  /**
   * A column is declared as its values are when they are bound row by row: of the same types, with the same digits, and
   * of the least size that covers the declared size of each. Two kinds differ, unsigned numbers and times; numerics
   * have the same types, but the batch declares 28 digits, 6 of them after the point, whatever their own precision is.
   */
  lemma ColumnsAgreeIff(values: seq<BoundValue>, kind: Kind, i: nat, precision: nat, scale: int)
    requires Homogeneous(values, kind) && i < |values| && values[i] != Null
    ensures Agrees(DeclaredColumn(values), SingleRow(values[i], precision, scale), kind, LargestSize(values))
       <==> kind != UIntKind && kind != TimeKind
    ensures kind == NumericKind ==>
              (DeclaredColumn(values) == SingleRow(values[i], precision, scale)
               <==> (precision == 0 || precision == 28) && (scale < 0 || scale == 6))
  {
    hide LargestSize, DeclaredColumn;
    assert KindOf(values[i]) == kind && !AllNull(values);
    if kind == NumericKind {
      NumericColumn(values);
    } else if kind == TimeKind {
      TimeColumn(values);
    } else if kind == UIntKind {
      UnsignedColumn(values);
    } else if HasLength(kind) {
      LengthHasNoParts(values[i], precision, scale);
      LengthColumn(values, kind, i);
    } else {
      LengthHasNoParts(values[i], precision, scale);
      FixedColumn(values, kind, i);
    }
  }

  lemma LengthHasNoParts(v: BoundValue, precision: nat, scale: int)
    requires !v.Numeric? && (v.WideText? ==> IsWideText(v.codePoints))
    ensures SingleRow(v, precision, scale) == SingleRow(v, 0, -1)
  {
  }

  lemma SettledIs(values: seq<BoundValue>, kind: Kind)
    requires OfCharacters(values) && Settled(WidestOf(values), values, kind) && !AllNull(values)
    ensures var w := WidestOf(values); (w.cType, w.sqlType) == TypesOf(kind, SomeLarge(values)) && w.maxLen >= 1
    ensures HasLength(kind) ==> Sized(WidestOf(values), 0).colSize == LargestSize(values)
  {
    hide Sized, WidestOf, LargestSize;
  }

  /** A column of NULLs is declared as a NULL is. */
  lemma NullColumn(values: seq<BoundValue>)
    requires AllNull(values)
    ensures DeclaredColumn(values) == SingleRow(Null, 0, -1)
  {
    NullsWiden(values);
  }

  lemma {:induction false} NullsWiden(values: seq<BoundValue>)
    requires AllNull(values)
    ensures WidestOf(values) == NoValue
    decreases |values|
  {
    if values != [] { NullsWiden(values[..|values| - 1]); }
  }

  /** A column of unsigned numbers: a text of up to 24 characters once one is large, and otherwise a big integer. */
  lemma UnsignedColumn(values: seq<BoundValue>)
    requires Homogeneous(values, UIntKind) && !AllNull(values)
    ensures DeclaredColumn(values) == if SomeLarge(values) then Declared(Char, VarChar, 24, 0) else Declared(UBigInt, BigInt, 20, 0)
  {
    hide WidestOf;
    WidestSettles(values, UIntKind);
  }
}
