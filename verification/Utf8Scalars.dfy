/** The encoding of Utf8 against the standards: UTF-16 as section 2.1 of RFC
    2781 makes it from Unicode scalar values, and a decoder for the table of
    section 3 of RFC 3629. */
module Utf8Scalars {
  import opened Utf8
  import opened Wrappers

  // A character's number: any up to 0x10ffff but those set aside for pairs.
  type Scalar = n: int | 0 <= n < 0x11_0000 && !(0xd800 <= n < 0xe000)

  function UnitsOf(scalars: seq<Scalar>): seq<Unit> {
    if scalars == [] then [] else UnitsOfOne(scalars[0]) + UnitsOf(scalars[1..])
  }

  function UnitsOfOne(n: Scalar): seq<Unit> {
    if n < 0x1_0000 then [n] else [0xd800 + (n - 0x1_0000) / 1024, 0xdc00 + (n - 0x1_0000) % 1024]
  }

  // ----- well-formed text ---------------------------------------------------

  lemma WellFormedOn(text: seq<Unit>)
    requires text != []
    ensures WellFormed(text) <==>
      if IsHigh(text[0]) then |text| > 1 && IsLow(text[1]) && WellFormed(text[2..]) else !IsLow(text[0]) && WellFormed(text[1..])
  {
    var k := if IsHigh(text[0]) then 2 else 1;
    if |text| >= k && (k == 2 ==> IsLow(text[1])) {
      var rest := text[k..];
      assert forall i :: 0 <= i < |rest| ==> rest[i] == text[i + k];
      assert forall i :: k <= i < |text| ==> text[i] == rest[i - k];
    }
  }

  // Text is well formed exactly when it is made from scalar values.
  lemma {:induction false} UnitsWellFormed(scalars: seq<Scalar>)
    ensures WellFormed(UnitsOf(scalars))
  {
    if scalars != [] {
      UnitsWellFormed(scalars[1..]);
      var text, one, rest := UnitsOf(scalars), UnitsOfOne(scalars[0]), UnitsOf(scalars[1..]);
      assert text == one + rest && text[|one|..] == rest;
      WellFormedOn(text);
      hide WellFormed, UnitsOf;
    }
  }

  lemma {:induction false} ScalarsOf(text: seq<Unit>) returns (scalars: seq<Scalar>)
    requires WellFormed(text)
    ensures UnitsOf(scalars) == text
  {
    if text == [] {
      return [];
    }
    WellFormedOn(text);
    hide WellFormed, UnitsOf;
    var k := if IsHigh(text[0]) then 2 else 1;
    var first: Scalar := if k == 1 then text[0] else 0x1_0000 + (text[0] as int - 0xd800) * 1024 + (text[1] as int - 0xdc00);
    assert UnitsOfOne(first) == text[..k];
    scalars := ScalarsOf(text[k..]);
    UnitsJoin(first, scalars);
    scalars := [first] + scalars;
  }

  lemma UnitsJoin(first: Scalar, rest: seq<Scalar>)
    ensures UnitsOf([first] + rest) == UnitsOfOne(first) + UnitsOf(rest)
  {
    assert ([first] + rest)[1..] == rest;
  }

  // ----- decoding -----------------------------------------------------------

  predicate IsTail(c: char) { 0x80 <= c as int <= 0xbf }

  // The first character and what is left, when the bytes have one.
  function DecodeOne(bytes: string): Option<(Scalar, string)> {
    if bytes == "" then None else
      var lead := bytes[0] as int;
      if lead < 0x80 then Some((lead, bytes[1..]))
      else if 0xc0 <= lead < 0xe0 then
        if |bytes| < 2 || !IsTail(bytes[1]) then None
        else Kept((lead - 0xc0) * 0x40 + Six(bytes[1]), 0x80, bytes[2..])
      else if 0xe0 <= lead < 0xf0 then
        if |bytes| < 3 || !IsTail(bytes[1]) || !IsTail(bytes[2]) then None
        else Kept((lead - 0xe0) * 0x1000 + Six(bytes[1]) * 0x40 + Six(bytes[2]), 0x800, bytes[3..])
      else if 0xf0 <= lead < 0xf8 then
        if |bytes| < 4 || !IsTail(bytes[1]) || !IsTail(bytes[2]) || !IsTail(bytes[3]) then None
        else Kept((lead - 0xf0) * 0x4_0000 + Six(bytes[1]) * 0x1000 + Six(bytes[2]) * 0x40 + Six(bytes[3]), 0x1_0000, bytes[4..])
      else None
  }

  function Six(c: char): int { c as int - 0x80 }

  // A number in as few bytes as it takes, and none set aside.
  function Kept(n: int, least: int, rest: string): Option<(Scalar, string)>
    requires least >= 0
  {
    if least <= n < 0x11_0000 && !(0xd800 <= n < 0xe000) then Some((n, rest)) else None
  }

  function Decode(bytes: string): (r: Option<seq<Scalar>>)
    decreases |bytes|
  {
    if bytes == "" then Some([])
    else
      match DecodeOne(bytes)
      case None => None
      case Some((first, rest)) =>
        if |rest| >= |bytes| then None
        else
          match Decode(rest)
          case None => None
          case Some(more) => Some([first] + more)
  }

  // The table's row for a character.
  function BytesOf(n: Scalar): string {
    if n < 0x80 then [Byte(n)]
    else if n < 0x800 then [Byte(0xc0 + n / 64), Byte(0x80 + n % 64)]
    else if n < 0x1_0000 then [Byte(0xe0 + n / 4096), Byte(0x80 + n / 64 % 64), Byte(0x80 + n % 64)]
    else [Byte(0xf0 + n / 262144), Byte(0x80 + n / 4096 % 64), Byte(0x80 + n / 64 % 64), Byte(0x80 + n % 64)]
  }

  lemma EncodedUnit(n: Scalar, rest: seq<Unit>)
    requires n < 0x1_0000
    ensures Encode([n] + rest) == BytesOf(n) + Encode(rest)
  {
    assert ([n] + rest)[1..] == rest;
  }

  lemma EncodedPair(n: Scalar, rest: seq<Unit>)
    requires n >= 0x1_0000
    ensures Encode(UnitsOfOne(n) + rest) == BytesOf(n) + Encode(rest)
  {
    var text := UnitsOfOne(n) + rest;
    assert text[2..] == rest;
    assert 0x1_0000 + (text[0] as int - 0xd800) * 1024 + (text[1] as int - 0xdc00) == n;
  }

  lemma EncodedOne(n: Scalar, rest: seq<Unit>)
    ensures Encode(UnitsOfOne(n) + rest) == BytesOf(n) + Encode(rest) && BytesOf(n) != ""
  {
    if n < 0x1_0000 { EncodedUnit(n, rest); } else { EncodedPair(n, rest); }
    hide Encode;
  }

  lemma DecodedShort(n: Scalar, tail: string)
    requires n < 0x800
    ensures DecodeOne(BytesOf(n) + tail) == Some((n, tail))
  {
    var bytes := BytesOf(n) + tail;
    assert bytes[|BytesOf(n)|..] == tail;
  }

  lemma DecodedThree(n: Scalar, tail: string)
    requires 0x800 <= n < 0x1_0000
    ensures DecodeOne(BytesOf(n) + tail) == Some((n, tail))
  {
    var bytes := BytesOf(n) + tail;
    assert bytes[3..] == tail;
    assert n / 64 / 64 == n / 4096;
    assert n / 4096 * 0x1000 + n / 64 % 64 * 0x40 + n % 64 == n;
  }

  lemma DecodedFour(n: Scalar, tail: string)
    requires 0x1_0000 <= n
    ensures DecodeOne(BytesOf(n) + tail) == Some((n, tail))
  {
    var bytes := BytesOf(n) + tail;
    assert bytes[4..] == tail;
    assert n / 64 / 64 == n / 4096 && n / 4096 / 64 == n / 262144;
    assert n / 262144 * 0x4_0000 + n / 4096 % 64 * 0x1000 + n / 64 % 64 * 0x40 + n % 64 == n;
  }

  lemma DecodedOne(n: Scalar, tail: string)
    ensures DecodeOne(BytesOf(n) + tail) == Some((n, tail))
  {
    hide *;
    if n < 0x800 { DecodedShort(n, tail); } else if n < 0x1_0000 { DecodedThree(n, tail); } else { DecodedFour(n, tail); }
  }

  // The encoding of any characters decodes to them.
  lemma {:induction false} DecodesBack(scalars: seq<Scalar>)
    ensures Decode(Encode(UnitsOf(scalars))) == Some(scalars)
  {
    if scalars != [] {
      DecodesBack(scalars[1..]);
      EncodedOne(scalars[0], UnitsOf(scalars[1..]));
      DecodedOne(scalars[0], Encode(UnitsOf(scalars[1..])));
      hide Encode, DecodeOne, UnitsOfOne, BytesOf;
      assert scalars == [scalars[0]] + scalars[1..];
    }
  }

  // ----- text with lone surrogates ------------------------------------------

  // Every surrogate without its partner replaced.
  function Repaired(text: seq<Unit>): seq<Unit> {
    if text == [] then []
    else if IsHigh(text[0]) && |text| > 1 && IsLow(text[1]) then text[..2] + Repaired(text[2..])
    else [if 0xd800 <= text[0] < 0xe000 then 0xfffd else text[0]] + Repaired(text[1..])
  }

  lemma RepairedOne(text: seq<Unit>)
    requires text != []
    ensures var k := if IsHigh(text[0]) && |text| > 1 && IsLow(text[1]) then 2 else 1;
      var rest := Repaired(text[k..]);
      && Repaired(text) != [] && |Repaired(text)| >= k && Repaired(text)[k..] == rest
      && (if k == 2 then Repaired(text)[..2] == text[..2]
          else Repaired(text)[0] == (if 0xd800 <= text[0] < 0xe000 then 0xfffd else text[0]))
  {
  }

  lemma Replacement()
    ensures BytesOf(0xfffd) == [Byte(0xef), Byte(0xbf), Byte(0xbd)]
  {
  }

  lemma EncodedLone(text: seq<Unit>)
    requires text != [] && !(IsHigh(text[0]) && |text| > 1 && IsLow(text[1])) && 0xd800 <= text[0] < 0xe000
    ensures Encode(text) == [Byte(0xef), Byte(0xbf), Byte(0xbd)] + Encode(text[1..])
  {
  }

  lemma EncodedAlone(text: seq<Unit>)
    requires text != [] && !(IsHigh(text[0]) && |text| > 1 && IsLow(text[1]))
    ensures Encode(text) == BytesOf(if 0xd800 <= text[0] < 0xe000 then 0xfffd else text[0]) + Encode(text[1..])
  {
    Replacement();
    hide Encode, BytesOf;
    if 0xd800 <= text[0] < 0xe000 {
      EncodedLone(text);
    } else {
      EncodedUnit(text[0], text[1..]);
      assert text == [text[0]] + text[1..];
    }
  }

  lemma PairOf(high: Unit, low: Unit) returns (n: Scalar)
    requires IsHigh(high) && IsLow(low)
    ensures UnitsOfOne(n) == [high, low] && n >= 0x1_0000
  {
    n := 0x1_0000 + (high as int - 0xd800) * 1024 + (low as int - 0xdc00);
  }

  lemma EncodedTwo(text: seq<Unit>, all: seq<Unit>)
    requires |text| > 1 && |all| > 1 && text[..2] == all[..2] && IsHigh(text[0]) && IsLow(text[1])
    requires Encode(text[2..]) == Encode(all[2..])
    ensures Encode(text) == Encode(all)
  {
    hide Encode, BytesOf;
    var n := PairOf(text[0], text[1]);
    assert text[..2] == [text[0], text[1]];
    assert text == text[..2] + text[2..] && all == all[..2] + all[2..];
    EncodedPair(n, text[2..]);
    EncodedPair(n, all[2..]);
  }

  lemma RepairedWellFormed(text: seq<Unit>)
    requires text != [] && WellFormed(Repaired(text[if IsHigh(text[0]) && |text| > 1 && IsLow(text[1]) then 2 else 1..]))
    ensures WellFormed(Repaired(text))
  {
    var all := Repaired(text);
    RepairedOne(text);
    WellFormedOn(all);
    if IsHigh(text[0]) && |text| > 1 && IsLow(text[1]) {
      assert all[0] == all[..2][0] && all[1] == all[..2][1];
    }
    hide WellFormed, Repaired;
  }

  // Any text is encoded as the well-formed one it is repaired to.
  lemma {:induction false} EncodedRepaired(text: seq<Unit>)
    ensures WellFormed(Repaired(text)) && Encode(Repaired(text)) == Encode(text)
  {
    if text != [] {
      var pair := IsHigh(text[0]) && |text| > 1 && IsLow(text[1]);
      var all, rest := Repaired(text), Repaired(text[if pair then 2 else 1..]);
      EncodedRepaired(text[if pair then 2 else 1..]);
      RepairedOne(text);
      RepairedWellFormed(text);
      if pair {
        EncodedTwo(text, all);
      } else {
        EncodedAlone(text);
        EncodedUnit(all[0], rest);
        assert all == [all[0]] + rest;
      }
      hide WellFormed, Repaired, Encode, BytesOf;
    }
  }
}
