/** The values an application binds to a statement (include/cpplinq/mapping/data_types.h). */
module Values {

  datatype Option<+T> = None | Some(value: T)

  type byte = b: int | 0 <= b < 256

  /** Calendar fields are kept as the integers the structures hold; a double is an uninterpreted bit pattern. */
  datatype SqlDate = SqlDate(year: int, month: byte, day: byte)
  datatype SqlTime = SqlTime(hour: byte, minute: byte, second: byte, fraction: nat)
  datatype SqlTimestamp = SqlTimestamp(date: SqlDate, time: SqlTime, tzOffsetMinutes: int)

  datatype BoundValue =
    | Null
    | Int64(i: int)
    | UInt64(u: nat)
    | Double(bits: nat)
    | Text(s: string)
    | WideText(codePoints: seq<nat>)
    | Bool(b: bool)
    | Blob(bytes: seq<byte>)
    | Numeric(digits: string)
    | Date(date: SqlDate)
    | Time(time: SqlTime)
    | Timestamp(timestamp: SqlTimestamp)
    | Interval(text: string)
    | Guid(guid: string)
}
