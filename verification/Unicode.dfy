/**
 * Text between wide characters of 32 bits and the bytes of UTF-8 (section 3 of RFC 3629) or the 16-bit units of
 * UTF-16 (sections 2.1 and 2.2 of RFC 2781), as on systems other than Windows.
 */
module Unicode {
  import opened Values

  type uint16 = n: nat | n < 0x1_0000
  type uint32 = n: nat | n < 0x1_0000_0000

  // ---------------------------------------------------------------------------------------------
  // UTF-8
  // ---------------------------------------------------------------------------------------------

  /** The bytes of one wide character. Bits above the 21st are lost. */
  function Encode(cp: uint32): (bytes: seq<byte>)
    ensures 1 <= |bytes| <= 4
  {
    if cp < 0x80 then [cp]
    else if cp < 0x800 then [0xC0 + cp / 0x40 % 0x20, 0x80 + cp % 0x40]
    else if cp < 0x1_0000 then [0xE0 + cp / 0x1000 % 0x10, 0x80 + cp / 0x40 % 0x40, 0x80 + cp % 0x40]
    else [0xF0 + cp / 0x4_0000 % 8, 0x80 + cp / 0x1000 % 0x40, 0x80 + cp / 0x40 % 0x40, 0x80 + cp % 0x40]
  }

  function EncodeAll(text: seq<uint32>): seq<byte> {
    if text == [] then [] else EncodeAll(text[..|text| - 1]) + Encode(text[|text| - 1])
  }

  /** `wstring_to_utf8`. */
  method WstringToUtf8(text: seq<uint32>) returns (bytes: seq<byte>)
    ensures bytes == EncodeAll(text)
  {
    bytes := [];
    for i := 0 to |text|
      invariant bytes == EncodeAll(text[..i])
    {
      assert text[..i + 1][..i] == text[..i];
      bytes := bytes + Encode(text[i]);
    }
    assert text[..|text|] == text;
  }

  /** How many bytes the decoder takes for the character that begins with `c` when `left` bytes are left. */
  function Taken(c: byte, left: nat): (n: nat)
    requires left > 0
    ensures 1 <= n <= left && n <= 4
  {
    if c < 0x80 then 1
    else if c / 0x20 == 6 && left > 1 then 2
    else if c / 0x10 == 0xE && left > 2 then 3
    else if c / 8 == 0x1E && left > 3 then 4
    else 1
  }

  /** The low bits of a byte below `m`. */
  function Low(b: byte, m: nat): (n: nat)
    requires m > 0
    ensures n < m && n < 0x100
  {
    b % m
  }

  /** The character of these bytes; no byte after the first is checked. */
  function Combine(s: seq<byte>): uint32
    requires 1 <= |s| <= 4
  {
    if |s| == 1 then s[0]
    else if |s| == 2 then Low(s[0], 0x20) * 0x40 + Low(s[1], 0x40)
    else if |s| == 3 then Low(s[0], 0x10) * 0x1000 + Low(s[1], 0x40) * 0x40 + Low(s[2], 0x40)
    else Low(s[0], 8) * 0x4_0000 + Low(s[1], 0x40) * 0x1000 + Low(s[2], 0x40) * 0x40 + Low(s[3], 0x40)
  }

  function DecodeAll(s: seq<byte>): seq<uint32> {
    if s == [] then []
    else
      var n := Taken(s[0], |s|);
      [Combine(s[..n])] + DecodeAll(s[n..])
  }

  lemma NothingDecoded()
    ensures DecodeAll([]) == []
  {
  }

  lemma DecodeStep(text: seq<uint32>, s: seq<byte>)
    requires s != []
    ensures var n := Taken(s[0], |s|); text + DecodeAll(s) == text + [Combine(s[..n])] + DecodeAll(s[n..])
  {
    hide Combine, Taken;
    var n := Taken(s[0], |s|);
    Associate(text, [Combine(s[..n])], DecodeAll(s[n..]));
  }

  lemma Associate<T>(a: seq<T>, b: seq<T>, c: seq<T>)
    ensures a + (b + c) == a + b + c
  {
  }

  /** `utf8_to_wstring`: it ends on any bytes and never looks past them. */
  method Utf8ToWstring(s: seq<byte>) returns (text: seq<uint32>)
    ensures text == DecodeAll(s)
    ensures |text| <= |s|
  {
    hide Combine, Taken, DecodeAll;
    text := [];
    var i := 0;
    NothingDecoded();
    assert s[0..] == s && [] + DecodeAll(s) == DecodeAll(s);
    while i < |s|
      invariant i <= |s| && |text| <= i
      invariant text + DecodeAll(s[i..]) == DecodeAll(s)
    {
      var n := Taken(s[i], |s| - i);
      assert s[i..][..n] == s[i..i + n] && s[i..][n..] == s[i + n..];
      DecodeStep(text, s[i..]);
      text := text + [Combine(s[i..i + n])];
      i := i + n;
    }
    assert s[i..] == [] && text + [] == text;
  }

  lemma TakesOne(cp: uint32, rest: seq<byte>)
    requires cp < 0x20_0000
    ensures var s := Encode(cp) + rest;
      Taken(s[0], |s|) == |Encode(cp)| && Combine(Encode(cp)) == cp
  {
    if cp < 0x80 { assert Encode(cp) == [cp]; }
    else if cp < 0x800 { TwoBytes(cp); }
    else if cp < 0x1_0000 { ThreeBytes(cp); }
    else { FourBytes(cp); }
  }

  lemma TwoBytes(cp: uint32)
    requires 0x80 <= cp < 0x800
    ensures Encode(cp)[0] / 0x20 == 6 && Combine(Encode(cp)) == cp
  {
    assert cp / 0x40 % 0x20 == cp / 0x40;
  }

  lemma ThreeBytes(cp: uint32)
    requires 0x800 <= cp < 0x1_0000
    ensures Encode(cp)[0] / 0x10 == 0xE && Combine(Encode(cp)) == cp
  {
    var a, b, c := cp / 0x1000 % 0x10, cp / 0x40 % 0x40, cp % 0x40;
    assert cp / 0x1000 == cp / 0x40 / 0x40;
    assert Encode(cp) == [0xE0 + a, 0x80 + b, 0x80 + c];
    assert Low(0xE0 + a, 0x10) == a && Low(0x80 + b, 0x40) == b && Low(0x80 + c, 0x40) == c;
  }

  lemma SplitFour(cp: nat)
    requires cp < 0x20_0000
    ensures cp == cp / 0x4_0000 % 8 * 0x4_0000 + cp / 0x1000 % 0x40 * 0x1000 + cp / 0x40 % 0x40 * 0x40 + cp % 0x40
  {
    assert cp / 0x1000 == cp / 0x40 / 0x40 && cp / 0x4_0000 == cp / 0x1000 / 0x40;
  }

  lemma LowOfLead(a: nat)
    requires a < 8
    ensures Low(0xF0 + a, 8) == a && (0xF0 + a) / 8 == 0x1E
  {
  }

  lemma LowOfTail(b: nat)
    requires b < 0x40
    ensures Low(0x80 + b, 0x40) == b
  {
  }

  lemma FourBytes(cp: uint32)
    requires 0x1_0000 <= cp < 0x20_0000
    ensures Encode(cp)[0] / 8 == 0x1E && Combine(Encode(cp)) == cp
  {
    hide Low;
    var a, b, c, d := cp / 0x4_0000 % 8, cp / 0x1000 % 0x40, cp / 0x40 % 0x40, cp % 0x40;
    SplitFour(cp);
    assert Encode(cp) == [0xF0 + a, 0x80 + b, 0x80 + c, 0x80 + d];
    LowOfLead(a);
    LowOfTail(b);
    LowOfTail(c);
    LowOfTail(d);
  }

  /** The text encoded from the front. */
  lemma {:induction false} EncodeFirst(text: seq<uint32>)
    requires text != []
    ensures EncodeAll(text) == Encode(text[0]) + EncodeAll(text[1..])
    decreases |text|
  {
    hide Encode;
    if |text| == 1 {
      assert text[..0] == [] && text[1..] == [];
    } else {
      var front, last := text[..|text| - 1], text[|text| - 1];
      EncodeFirst(front);
      assert front[1..] == text[1..][..|text| - 2];
      Associate(Encode(text[0]), EncodeAll(front[1..]), Encode(last));
    }
  }

  lemma NothingEncoded()
    ensures EncodeAll([]) == [] && UnitsOf([]) == []
  {
  }

  /** The decoder inverts the encoder on every sequence of code points; surrogates pass through like any other. */
  lemma {:induction false} Utf8RoundTrip(text: seq<uint32>)
    requires forall i :: 0 <= i < |text| ==> text[i] <= 0x10_FFFF
    ensures DecodeAll(EncodeAll(text)) == text
    decreases |text|
  {
    hide Encode, EncodeAll, Combine, Taken;
    if text == [] {
      assert EncodeAll(text) == [] by { NothingEncoded(); }
    } else {
      EncodeFirst(text);
      var rest := EncodeAll(text[1..]);
      TakesOne(text[0], rest);
      Utf8RoundTrip(text[1..]);
      assert (Encode(text[0]) + rest)[|Encode(text[0])|..] == rest;
      assert (Encode(text[0]) + rest)[..|Encode(text[0])|] == Encode(text[0]);
    }
  }

  // ---------------------------------------------------------------------------------------------
  // UTF-16
  // ---------------------------------------------------------------------------------------------

  /** The units of one wide character. */
  function Units(cp: uint32): (u: seq<uint16>)
    ensures 1 <= |u| <= 2
  {
    if cp < 0x1_0000 then [cp]
    else [0xD800 + (cp - 0x1_0000) / 0x400 % 0x400, 0xDC00 + (cp - 0x1_0000) % 0x400]
  }

  function UnitsOf(text: seq<uint32>): seq<uint16> {
    if text == [] then [] else UnitsOf(text[..|text| - 1]) + Units(text[|text| - 1])
  }

  /** `wstring_to_sqlwchar`, which ends the units with a zero. */
  method WstringToSqlwchar(text: seq<uint32>) returns (units: seq<uint16>)
    ensures units == UnitsOf(text) + [0]
  {
    units := [];
    for i := 0 to |text|
      invariant units == UnitsOf(text[..i])
    {
      assert text[..i + 1][..i] == text[..i];
      units := units + Units(text[i]);
    }
    assert text[..|text|] == text;
    units := units + [0];
  }

  predicate IsHigh(c: uint16) { 0xD800 <= c <= 0xDBFF }
  predicate IsLow(c: uint16) { 0xDC00 <= c <= 0xDFFF }

  predicate PairFirst(s: seq<uint16>) { |s| > 1 && IsHigh(s[0]) && IsLow(s[1]) }

  function Pair(high: uint16, low: uint16): uint32 { 0x1_0000 + high % 0x400 * 0x400 + low % 0x400 }

  /** The characters up to the first zero; a surrogate without its partner stands for itself. */
  function Text(s: seq<uint16>): seq<uint32> {
    if s == [] || s[0] == 0 then []
    else if PairFirst(s) then [Pair(s[0], s[1])] + Text(s[2..])
    else [s[0]] + Text(s[1..])
  }

  lemma TextEnds(s: seq<uint16>)
    requires s == [] || s[0] == 0
    ensures Text(s) == [] && forall text: seq<uint32> :: text + Text(s) == text
  {
  }

  lemma TextStep(text: seq<uint32>, s: seq<uint16>)
    requires s != [] && s[0] != 0
    ensures text + Text(s)
         == if PairFirst(s) then text + [Pair(s[0], s[1])] + Text(s[2..]) else text + [s[0]] + Text(s[1..])
  {
    if PairFirst(s) {
      Associate(text, [Pair(s[0], s[1])], Text(s[2..]));
    } else {
      Associate(text, [s[0]], Text(s[1..]));
    }
  }

  /** `sqlwchar_to_wstring`. */
  method SqlwcharToWstring(s: seq<uint16>) returns (text: seq<uint32>)
    ensures text == Text(s)
  {
    hide Text, Pair;
    text := [];
    var i := 0;
    TextEnds([]);
    assert s[0..] == s && [] + Text(s) == Text(s);
    while i < |s|
      invariant i <= |s|
      invariant text + Text(s[i..]) == Text(s)
    {
      if s[i] == 0 {
        TextEnds(s[i..]);
        return text;
      }
      TextStep(text, s[i..]);
      assert s[i..][1..] == s[i + 1..] && (i + 1 < |s| ==> s[i..][2..] == s[i + 2..]);
      if IsHigh(s[i]) && i + 1 < |s| && IsLow(s[i + 1]) {
        text := text + [Pair(s[i], s[i + 1])];
        i := i + 2;
      } else {
        text := text + [s[i]];
        i := i + 1;
      }
    }
    assert s[i..] == [];
  }

  /** Code points that neither end the text nor are half of a pair. */
  predicate Scalar(cp: uint32) { 0 < cp <= 0x10_FFFF && !(0xD800 <= cp <= 0xDFFF) }

  lemma {:induction false} UnitsFirst(text: seq<uint32>)
    requires text != []
    ensures UnitsOf(text) == Units(text[0]) + UnitsOf(text[1..])
    decreases |text|
  {
    hide Units;
    if |text| == 1 {
      assert text[..0] == [] && text[1..] == [];
    } else {
      var front, last := text[..|text| - 1], text[|text| - 1];
      UnitsFirst(front);
      assert front[1..] == text[1..][..|text| - 2];
      Associate(Units(text[0]), UnitsOf(front[1..]), Units(last));
    }
  }

  lemma ReadsUnits(cp: uint32, rest: seq<uint16>)
    requires Scalar(cp)
    ensures Text(Units(cp) + rest) == [cp] + Text(rest)
  {
    var s := Units(cp) + rest;
    assert s[|Units(cp)|..] == rest;
    if cp >= 0x1_0000 {
      var x := cp - 0x1_0000;
      assert x / 0x400 < 0x400 && x == x / 0x400 * 0x400 + x % 0x400;
    }
  }

  /** Reading inverts writing, with the final zero or without it, on every text of scalar values without NUL. */
  lemma {:induction false} Utf16RoundTrip(text: seq<uint32>, tail: seq<uint16>)
    requires forall i :: 0 <= i < |text| ==> Scalar(text[i])
    requires tail == [] || tail[0] == 0
    ensures Text(UnitsOf(text) + tail) == text
    decreases |text|
  {
    if text == [] {
      assert UnitsOf(text) + tail == tail;
    } else {
      UnitsFirst(text);
      var rest := UnitsOf(text[1..]);
      assert Units(text[0]) + rest + tail == Units(text[0]) + (rest + tail);
      ReadsUnits(text[0], rest + tail);
      Utf16RoundTrip(text[1..], tail);
    }
  }

  /** A text of 21-bit characters reads back exactly when no NUL and no two surrogates that make a pair are in it. */
  predicate Readable(text: seq<uint32>) {
    && (forall i :: 0 <= i < |text| ==> text[i] != 0)
    && (forall i :: 0 <= i < |text| - 1 ==> !(0xD800 <= text[i] <= 0xDBFF && 0xDC00 <= text[i + 1] <= 0xDFFF))
  }

  lemma {:induction false} Utf16RoundTripIffReadable(text: seq<uint32>)
    requires forall i :: 0 <= i < |text| ==> text[i] <= 0x10_FFFF
    ensures Text(UnitsOf(text) + [0]) == text <==> Readable(text)
    decreases |text|
  {
    hide Units, UnitsOf, Text, Readable;
    NothingEncoded();
    if text == [] {
      NothingRead();
    } else {
      UnitsFirst(text);
      var rest := UnitsOf(text[1..]) + [0];
      assert UnitsOf(text) + [0] == Units(text[0]) + rest;
      Utf16RoundTripIffReadable(text[1..]);
      ReadableFirst(text);
      RestBegins(text[1..]);
      assert text == [text[0]] + text[1..];
      if Scalar(text[0]) { ReadsUnits(text[0], rest); } else { ReadsOther(text[0], rest); }
    }
  }

  lemma NothingRead()
    ensures Text([] + [0]) == [] && Readable([])
  {
    assert [] + [0] == [0];
  }

  /** The units of the rest begin with a low surrogate exactly when the rest does. */
  lemma RestBegins(text: seq<uint32>)
    requires forall i :: 0 <= i < |text| ==> text[i] <= 0x10_FFFF
    ensures var units := UnitsOf(text) + [0];
      units != [] && (IsLow(units[0]) <==> text != [] && 0xDC00 <= text[0] <= 0xDFFF)
  {
    NothingEncoded();
    if text != [] { UnitsFirst(text); }
  }

  lemma ReadsOther(cp: uint32, rest: seq<uint16>)
    requires cp <= 0x10_FFFF && !Scalar(cp) && rest != []
    ensures var text := Text(Units(cp) + rest);
      if cp == 0 then text == []
      else if 0xD800 <= cp <= 0xDBFF && IsLow(rest[0]) then text != [] && text[0] != cp
      else text == [cp] + Text(rest)
  {
    var s := Units(cp) + rest;
    assert s == [cp] + rest && s[1..] == rest;
  }

  lemma ReadableFirst(text: seq<uint32>)
    requires text != []
    ensures Readable(text)
       <==> text[0] != 0 && Readable(text[1..])
            && !(|text| > 1 && 0xD800 <= text[0] <= 0xDBFF && 0xDC00 <= text[1] <= 0xDFFF)
  {
  }
}
