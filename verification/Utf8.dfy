/** The UTF-8 length of an editor's text as extension/src/engine/documentSync.ts
    counts it, against the encoding itself. */
module Utf8 {

  // A UTF-16 code unit.
  type Unit = u: int | 0 <= u < 0x1_0000

  predicate IsHigh(u: Unit) { 0xd800 <= u <= 0xdbff }

  predicate IsLow(u: Unit) { 0xdc00 <= u <= 0xdfff }

  function Byte(n: nat): char
    requires n < 256
  {
    n as char
  }

  // Section 3 of RFC 3629. A surrogate without its partner has no encoding and
  // stands here for U+FFFD, its usual replacement.
  function Encode(text: seq<Unit>): string {
    if text == [] then "" else
      var u := text[0];
      if u < 0x80 then [Byte(u)] + Encode(text[1..])
      else if u < 0x800 then [Byte(0xc0 + u / 64), Byte(0x80 + u % 64)] + Encode(text[1..])
      else if IsHigh(u) && |text| > 1 && IsLow(text[1]) then
        var point: int := 0x1_0000 + (u as int - 0xd800) * 1024 + (text[1] as int - 0xdc00);
        [Byte(0xf0 + point / 262144), Byte(0x80 + point / 4096 % 64), Byte(0x80 + point / 64 % 64), Byte(0x80 + point % 64)]
          + Encode(text[2..])
      else if IsHigh(u) || IsLow(u) then [Byte(0xef), Byte(0xbf), Byte(0xbd)] + Encode(text[1..])
      else [Byte(0xe0 + u / 4096), Byte(0x80 + u / 64 % 64), Byte(0x80 + u % 64)] + Encode(text[1..])
  }

  // Every high surrogate is followed by a low one.
  predicate IsPaired(text: seq<Unit>) {
    forall i :: 0 <= i < |text| && IsHigh(text[i]) ==> i + 1 < |text| && IsLow(text[i + 1])
  }

  // Well-formed UTF-16: every low surrogate follows a high one, too.
  predicate WellFormed(text: seq<Unit>) {
    IsPaired(text) && forall i :: 0 <= i < |text| && IsLow(text[i]) ==> i > 0 && IsHigh(text[i - 1])
  }

  // The count: a high surrogate takes the unit after it along, whatever it is.
  function Counted(text: seq<Unit>): nat {
    if text == [] then 0
    else if text[0] < 0x80 then 1 + Counted(text[1..])
    else if text[0] < 0x800 then 2 + Counted(text[1..])
    else if IsHigh(text[0]) && |text| > 1 then 4 + Counted(text[2..])
    else 3 + Counted(text[1..])
  }

  method Utf8ByteLength(text: seq<Unit>) returns (bytes: nat)
    ensures bytes == Counted(text)
  {
    bytes := 0;
    var i := 0;
    assert text[0..] == text;
    while i < |text|
      invariant 0 <= i <= |text| && bytes + Counted(text[i..]) == Counted(text)
      decreases |text| - i
    {
      var unit := text[i];
      assert text[i..][1..] == text[i + 1..];
      if unit < 0x80 {
        bytes := bytes + 1;
      } else if unit < 0x800 {
        bytes := bytes + 2;
      } else if 0xd800 <= unit <= 0xdbff && i + 1 < |text| {
        assert text[i..][2..] == text[i + 2..];
        bytes := bytes + 4;
        i := i + 1;
      } else {
        bytes := bytes + 3;
      }
      i := i + 1;
    }
  }

  // What may come after a high surrogate that comes after no other: the end,
  // a unit of one byte, its low surrogate, or a pair.
  predicate SafeAt(text: seq<Unit>, i: nat)
    requires i < |text|
  {
    IsHigh(text[i]) && (i == 0 || !IsHigh(text[i - 1])) && i + 1 < |text| ==>
      || text[i + 1] < 0x80 || IsLow(text[i + 1])
      || (IsHigh(text[i + 1]) && i + 2 < |text| && IsLow(text[i + 2]))
  }

  predicate Safe(text: seq<Unit>) {
    forall i :: 0 <= i < |text| ==> SafeAt(text, i)
  }

  // How many units the count takes at once.
  function Stride(text: seq<Unit>): nat
    requires text != []
  {
    if IsHigh(text[0]) && |text| > 1 then 2 else 1
  }

  // Safety is settled at the start and then from where the count goes on.
  lemma SafeOn(text: seq<Unit>)
    requires text != []
    ensures Safe(text) <==> SafeAt(text, 0) && Safe(text[Stride(text)..])
  {
    var k := Stride(text);
    var rest := text[k..];
    forall i | 0 <= i < |rest| && SafeAt(text, 0) ensures SafeAt(rest, i) <==> SafeAt(text, i + k) {
      if i == 0 && k == 2 { assert IsHigh(text[1]) && |text| > 2 ==> IsLow(text[2]); }
    }
    if SafeAt(text, 0) && Safe(rest) {
      forall i | 0 <= i < |text| ensures SafeAt(text, i) {
        if i >= k { assert SafeAt(rest, i - k); }
      }
    }
    if Safe(text) {
      assert SafeAt(text, 0);
      forall i | 0 <= i < |rest| ensures SafeAt(rest, i) {
        assert SafeAt(text, i + k);
      }
    }
  }

  // What the encoding takes where the count takes its stride.
  lemma EncodedOn(text: seq<Unit>)
    requires text != []
    ensures |Encode(text)| - |Encode(text[Stride(text)..])| >= Counted(text) - Counted(text[Stride(text)..])
    ensures |Encode(text)| - |Encode(text[Stride(text)..])| == Counted(text) - Counted(text[Stride(text)..]) <==> SafeAt(text, 0)
  {
    if Stride(text) == 2 {
      assert text[1..][1..] == text[2..];
      if IsHigh(text[1]) && |text| > 2 && IsLow(text[2]) {
        assert text[1..][2..] == text[3..] && text[2..][1..] == text[3..];
      }
    }
  }

  // The count never exceeds the encoding's length, and is that length exactly
  // for the safe texts.
  lemma {:induction false} CountIsExact(text: seq<Unit>)
    ensures Counted(text) <= |Encode(text)|
    ensures Counted(text) == |Encode(text)| <==> Safe(text)
    decreases |text|
  {
    if text != [] {
      CountIsExact(text[Stride(text)..]);
      SafeOn(text);
      EncodedOn(text);
      hide Encode, Counted, SafeAt, Safe;
    }
  }

  lemma PairedIsSafe(text: seq<Unit>)
    requires IsPaired(text)
    ensures Safe(text)
  {
    forall i | 0 <= i < |text| ensures SafeAt(text, i) {
      assert IsHigh(text[i]) ==> i + 1 < |text| && IsLow(text[i + 1]);
    }
  }

  // So it is the length for well-formed UTF-16, all of whose high surrogates
  // are paired.
  lemma CountIsLength(text: seq<Unit>)
    requires IsPaired(text)
    ensures Counted(text) == |Encode(text)|
  {
    CountIsExact(text);
    PairedIsSafe(text);
  }

  lemma {:induction false} CountBounds(text: seq<Unit>)
    ensures |text| <= Counted(text) <= 3 * |text|
    decreases |text|
  {
    if text != [] { CountBounds(text[Stride(text)..]); }
  }

  // Whether the text fits a limit once encoded; the length alone settles most.
  method FitsBufferLimit(text: seq<Unit>, limit: nat) returns (fits: bool)
    ensures fits <==> Counted(text) <= limit
    ensures |Encode(text)| <= limit ==> fits
    ensures Safe(text) ==> (fits <==> |Encode(text)| <= limit)
  {
    CountIsExact(text);
    CountBounds(text);
    if |text| > limit {
      return false;
    }
    if |text| * 3 <= limit {
      return true;
    }
    var bytes := Utf8ByteLength(text);
    return bytes <= limit;
  }

  // A text counted short: a high surrogate before a letter of two bytes.
  lemma CountedShort()
    ensures Counted([0xd800, 0xe9]) < |Encode([0xd800, 0xe9])|
  {
    CountIsExact([0xd800, 0xe9]);
    assert !SafeAt([0xd800, 0xe9], 0);
  }
}
