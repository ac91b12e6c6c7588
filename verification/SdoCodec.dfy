/** SDO values as text and integers: the hex printer and parser, and the integer codecs. */
module SdoCodec {
  import opened Arith
  import opened Cia402
  import opened PdoMapping
  import opened PdoBuffer

  // --- hex digits --------------------------------------------------------------------------------

  const DIGITS := "0123456789ABCDEF"

  function HexDigit(n: nat): char
    requires n < 16
  {
    if n < 10 then ('0' as int + n) as char else ('A' as int + n - 10) as char
  }

  lemma DigitsTable(n: nat)
    requires n < 16
    ensures DIGITS[n] == HexDigit(n)
  {
  }

  function DigitValue(c: char): (v: Option<nat>)
    ensures v.Some? ==> v.value < 16
  {
    if '0' <= c <= '9' then Some(c as int - '0' as int)
    else if 'A' <= c <= 'F' then Some(c as int - 'A' as int + 10)
    else if 'a' <= c <= 'f' then Some(c as int - 'a' as int + 10)
    else None
  }

  function UpperChar(c: char): char { if 'a' <= c <= 'f' then (c as int - 'a' as int + 'A' as int) as char else c }

  lemma PrintedDigitParses(n: nat)
    requires n < 16
    ensures DigitValue(HexDigit(n)) == Some(n) && HexDigit(n) != ' '
  {
  }

  lemma ParsedDigitPrints(c: char)
    requires DigitValue(c).Some?
    ensures HexDigit(DigitValue(c).value) == UpperChar(c)
  {
  }

  // --- the printer -------------------------------------------------------------------------------

  function Pair(b: U8): string { [HexDigit(b / 16), HexDigit(b % 16)] }

  /** Two upper-case digits a byte, bytes separated by single spaces. */
  function Printed(bytes: seq<U8>): string {
    if bytes == [] then ""
    else if |bytes| == 1 then Pair(bytes[0])
    else Printed(bytes[..|bytes| - 1]) + " " + Pair(bytes[|bytes| - 1])
  }

  lemma PrintedIsEmpty(bytes: seq<U8>)
    ensures Printed(bytes) == "" <==> bytes == []
  {
  }

  method HexBytes(bytes: seq<U8>) returns (s: string)
    ensures s == Printed(bytes)
  {
    s := "";
    for k := 0 to |bytes|
      invariant s == Printed(bytes[..k])
    {
      assert bytes[..k + 1][..k] == bytes[..k];
      PrintedIsEmpty(bytes[..k]);
      if s != "" {
        s := s + " ";
      }
      DigitsTable(bytes[k] / 16);
      DigitsTable(bytes[k] % 16);
      s := s + [DIGITS[bytes[k] / 16]];
      s := s + [DIGITS[bytes[k] % 16]];
    }
    assert bytes[..|bytes|] == bytes;
  }

  // --- the parser --------------------------------------------------------------------------------

  datatype Parsed = Bytes(bytes: seq<U8>) | OddDigits | NotHex

  /** The text without its spaces. */
  function Digits(text: string): string {
    if text == "" then ""
    else Digits(text[..|text| - 1]) + if text[|text| - 1] != ' ' then [text[|text| - 1]] else ""
  }

  predicate IsHex(c: char) { DigitValue(c).Some? }

  /** The byte of two digits, high one first. */
  function ByteOf(high: char, low: char): U8
    requires IsHex(high) && IsHex(low)
  {
    DigitValue(high).value * 16 + DigitValue(low).value
  }

  /** The bytes of an even number of digits; None when one is not a hex digit. */
  function Paired(digits: string): Option<seq<U8>>
    requires |digits| % 2 == 0
  {
    var n := |digits|;
    if n == 0 then Some([])
    else
      match Paired(digits[..n - 2])
      case None => None
      case Some(bytes) =>
        if IsHex(digits[n - 2]) && IsHex(digits[n - 1]) then Some(bytes + [ByteOf(digits[n - 2], digits[n - 1])])
        else None
  }

  /** What the text stands for. */
  function Parse(text: string): Parsed {
    var digits := Digits(text);
    if |digits| % 2 != 0 then OddDigits
    else match Paired(digits) case None => NotHex case Some(bytes) => Bytes(bytes)
  }

  lemma {:induction false} BadPairSpoils(digits: string, i: nat)
    requires |digits| % 2 == 0 && i % 2 == 0 && i <= |digits| && Paired(digits[..i]) == None
    ensures Paired(digits) == None
    decreases |digits|
  {
    if i < |digits| {
      var pre := digits[..|digits| - 2];
      assert pre[..i] == digits[..i];
      BadPairSpoils(pre, i);
    } else {
      assert digits[..i] == digits;
    }
  }

  /** Two digits more. */
  lemma PairedMore(s: string, c: char, d: char)
    requires |s| % 2 == 0 && Paired(s).Some?
    ensures Paired(s + [c, d]) == if IsHex(c) && IsHex(d) then Some(Paired(s).value + [ByteOf(c, d)]) else None
  {
    assert (s + [c, d])[..|s|] == s;
  }

  method CompactDigits(text: string) returns (digits: string)
    ensures digits == Digits(text)
  {
    digits := "";
    for k := 0 to |text|
      invariant digits == Digits(text[..k])
    {
      assert text[..k + 1][..k] == text[..k];
      if text[k] != ' ' {
        digits := digits + [text[k]];
      }
    }
    assert text[..|text|] == text;
  }

  method EncodeBytes(text: string) returns (r: Parsed)
    ensures r == Parse(text)
  {
    var digits := CompactDigits(text);
    if |digits| % 2 != 0 {
      return OddDigits;
    }
    var out: seq<U8> := [];
    var i := 0;
    while i < |digits|
      invariant 0 <= i <= |digits| && i % 2 == 0 && Paired(digits[..i]) == Some(out)
    {
      assert digits[..i + 2] == digits[..i] + [digits[i], digits[i + 1]];
      PairedMore(digits[..i], digits[i], digits[i + 1]);
      if !IsHex(digits[i]) || !IsHex(digits[i + 1]) {
        BadPairSpoils(digits, i + 2);
        return NotHex;
      }
      out := out + [ByteOf(digits[i], digits[i + 1])];
      i := i + 2;
    }
    assert digits[..i] == digits;
    r := Bytes(out);
  }

  // --- parsing what was printed ------------------------------------------------------------------

  lemma {:induction false} DigitsSplit(a: string, b: string)
    ensures Digits(a + b) == Digits(a) + Digits(b)
    decreases |b|
  {
    if b == "" {
      assert a + b == a;
    } else {
      DigitsSplit(a, b[..|b| - 1]);
      assert (a + b)[..|a + b| - 1] == a + b[..|b| - 1];
    }
  }

  lemma PairDigits(b: U8)
    ensures Digits(Pair(b)) == Pair(b) && Digits(" ") == ""
  {
    PrintedDigitParses(b / 16);
    PrintedDigitParses(b % 16);
    var p := Pair(b);
    assert p[..1] == [p[0]] && [p[0]][..0] == "" && " "[..0] == "";
    assert Digits([p[0]]) == [p[0]];
  }

  lemma PairParses(b: U8)
    ensures IsHex(HexDigit(b / 16)) && IsHex(HexDigit(b % 16)) && ByteOf(HexDigit(b / 16), HexDigit(b % 16)) == b
  {
    PrintedDigitParses(b / 16);
    PrintedDigitParses(b % 16);
    Euclid(b, 16);
  }

  lemma PrintedOneMore(pre: seq<U8>, b: U8)
    ensures Printed(pre + [b]) == if pre == [] then Pair(b) else Printed(pre) + " " + Pair(b)
  {
    assert (pre + [b])[..|pre|] == pre;
  }

  lemma DigitsOneMore(pre: seq<U8>, b: U8)
    ensures Digits(Printed(pre + [b])) == Digits(Printed(pre)) + Pair(b)
  {
    PrintedOneMore(pre, b);
    PairDigits(b);
    if pre != [] {
      DigitsSplit(Printed(pre) + " ", Pair(b));
      DigitsSplit(Printed(pre), " ");
    }
  }

  /** The digits stand for the bytes. */
  predicate Stands(digits: string, bytes: seq<U8>) { |digits| % 2 == 0 && Paired(digits) == Some(bytes) }

  lemma StandsMore(digits: string, bytes: seq<U8>, b: U8)
    requires Stands(digits, bytes)
    ensures Stands(digits + Pair(b), bytes + [b])
  {
    PairParses(b);
    PairedMore(digits, HexDigit(b / 16), HexDigit(b % 16));
  }

  lemma {:induction false} PrintedParses(bytes: seq<U8>)
    ensures Stands(Digits(Printed(bytes)), bytes)
  {
    if bytes != [] {
      var pre, last := bytes[..|bytes| - 1], bytes[|bytes| - 1];
      assert bytes == pre + [last];
      PrintedParses(pre);
      StandsMore(Digits(Printed(pre)), pre, last);
      DigitsOneMore(pre, last);
    }
  }

  /** Parsing the printed form of any byte string gives it back. */
  lemma ParsePrinted(bytes: seq<U8>)
    ensures Parse(Printed(bytes)) == Bytes(bytes)
  {
    PrintedParses(bytes);
  }

  // --- printing what was parsed ------------------------------------------------------------------

  function Upper(s: string): string { seq(|s|, k requires 0 <= k < |s| => UpperChar(s[k])) }

  /** The characters in pairs, separated by single spaces. */
  function Spaced(s: string): string
    requires |s| % 2 == 0
  {
    if |s| <= 2 then s else Spaced(s[..|s| - 2]) + " " + s[|s| - 2..]
  }

  lemma SpacedMore(s: string, c: char, d: char)
    requires |s| % 2 == 0
    ensures Spaced(s + [c, d]) == if s == "" then [c, d] else Spaced(s) + " " + [c, d]
  {
    assert (s + [c, d])[..|s|] == s && (s + [c, d])[|s|..] == [c, d];
    if s == "" {
      assert s + [c, d] == [c, d];
    }
  }

  lemma UpperMore(s: string, c: char, d: char)
    ensures Upper(s + [c, d]) == Upper(s) + [UpperChar(c), UpperChar(d)]
  {
  }

  lemma PairPrints(c: char, d: char)
    requires IsHex(c) && IsHex(d)
    ensures Pair(ByteOf(c, d)) == [UpperChar(c), UpperChar(d)]
  {
    ParsedDigitPrints(c);
    ParsedDigitPrints(d);
    QuotientAndRemainder(DigitValue(c).value, DigitValue(d).value, 16);
  }

  /** The digits and the bytes they stand for have the same canonical form. */
  predicate SameForm(digits: string, bytes: seq<U8>) {
    |digits| % 2 == 0 && (bytes == [] <==> digits == "") && Printed(bytes) == Spaced(Upper(digits))
  }

  lemma SameFormMore(s: string, bytes: seq<U8>, c: char, d: char)
    requires SameForm(s, bytes) && IsHex(c) && IsHex(d)
    ensures SameForm(s + [c, d], bytes + [ByteOf(c, d)])
  {
    PairPrints(c, d);
    UpperMore(s, c, d);
    FormMore(bytes, ByteOf(c, d), Upper(s), UpperChar(c), UpperChar(d));
  }

  lemma FormMore(bytes: seq<U8>, b: U8, t: string, u: char, v: char)
    requires |t| % 2 == 0 && (bytes == [] <==> t == "") && Printed(bytes) == Spaced(t) && Pair(b) == [u, v]
    ensures Printed(bytes + [b]) == Spaced(t + [u, v])
  {
    PrintedOneMore(bytes, b);
    SpacedMore(t, u, v);
  }

  lemma {:induction false} PairedPrints(digits: string)
    requires |digits| % 2 == 0 && Paired(digits).Some?
    ensures SameForm(digits, Paired(digits).value)
  {
    if digits != "" {
      var pre, c, d := digits[..|digits| - 2], digits[|digits| - 2], digits[|digits| - 1];
      PairedPrints(pre);
      SameFormMore(pre, Paired(pre).value, c, d);
      assert digits == pre + [c, d];
    }
  }

  predicate AllHex(digits: string) { forall k :: 0 <= k < |digits| ==> IsHex(digits[k]) }

  lemma {:induction false} AcceptsHex(digits: string)
    requires |digits| % 2 == 0
    ensures Paired(digits).Some? <==> AllHex(digits)
  {
    if digits != "" {
      AcceptsHex(digits[..|digits| - 2]);
    }
  }

  /** Printing any accepted text gives its canonical form: the digits upper-cased and spaced by byte; and a
      text is accepted exactly when its non-space characters are an even number of hex digits. */
  lemma PrintParsed(text: string)
    ensures Parse(text).Bytes? <==> |Digits(text)| % 2 == 0 && AllHex(Digits(text))
    ensures Parse(text).Bytes? ==> Printed(Parse(text).bytes) == Spaced(Upper(Digits(text)))
  {
    if |Digits(text)| % 2 == 0 {
      AcceptsHex(Digits(text));
      if Parse(text).Bytes? {
        PairedPrints(Digits(text));
      }
    }
  }

  // --- integers ----------------------------------------------------------------------------------

  /** An integer type of the codec: u8, i8, u16, i16, u32 and i32. */
  datatype IntType = IntType(width: nat, signed: bool)

  datatype Decoded = Value(v: int) | TooShort

  function EncodeInt(t: IntType, v: int): Option<seq<U8>> {
    if InRange(v, t.width, t.signed) then Some(Octets(ToRaw(v, t.width, t.signed), t.width)) else None
  }

  /** Reads the type's width off the front; a drive may return more. */
  function DecodeInt(t: IntType, bytes: seq<U8>): Decoded {
    if |bytes| < t.width then TooShort else Value(FromRaw(Little(bytes[..t.width]), t.width, t.signed))
  }

  /** Decode after encode is the identity on exactly the values in the type's range; the rest are refused. */
  lemma IntRoundTrip(t: IntType, v: int, more: seq<U8>)
    ensures EncodeInt(t, v).Some? <==> InRange(v, t.width, t.signed)
    ensures EncodeInt(t, v).Some? ==>
              |EncodeInt(t, v).value| == t.width && DecodeInt(t, EncodeInt(t, v).value + more) == Value(v)
  {
    if InRange(v, t.width, t.signed) {
      var raw := ToRaw(v, t.width, t.signed);
      LittleOfOctets(raw, t.width);
      assert (Octets(raw, t.width) + more)[..t.width] == Octets(raw, t.width);
    }
  }

  /** And encode after decode gives back the bytes that were read. */
  lemma IntBytesRoundTrip(t: IntType, bytes: seq<U8>)
    requires |bytes| >= t.width
    ensures DecodeInt(t, bytes).Value? && EncodeInt(t, DecodeInt(t, bytes).v) == Some(bytes[..t.width])
  {
    var front := bytes[..t.width];
    LittleIsBounded(front);
    OctetsOfLittle(front);
    assert front[0..t.width] == front;
    StoreAfterLoad(front, 0, t.width, t.signed);
    assert ToRaw(DecodeInt(t, bytes).v, t.width, t.signed) == Little(front);
  }
}
