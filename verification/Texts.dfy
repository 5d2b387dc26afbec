/** Lines and decimal numbers in texts, as several of the readers and writers
    use them. */
module Texts {

  // ----- lines --------------------------------------------------------------

  // std::getline over the whole text.
  function Lines(text: string): seq<string>
    decreases |text|
  {
    if text == "" then [] else
      var n := LineLength(text);
      [text[..n]] + Lines(if n < |text| then text[n + 1..] else "")
  }

  function LineLength(text: string): (n: nat)
    ensures n <= |text| && '\n' !in text[..n] && (n < |text| ==> text[n] == '\n')
  {
    if text == "" || text[0] == '\n' then 0 else
      assert text == [text[0]] + text[1..];
      1 + LineLength(text[1..])
  }

  lemma {:induction false} LineLengthOf(line: string, rest: string)
    requires '\n' !in line && (rest == "" || rest[0] == '\n')
    ensures LineLength(line + rest) == |line|
  {
    if line == "" {
      assert line + rest == rest;
    } else {
      assert (line + rest)[1..] == line[1..] + rest;
      LineLengthOf(line[1..], rest);
    }
  }

  lemma FirstLine(line: string, rest: string)
    requires '\n' !in line
    ensures Lines(line + "\n" + rest) == [line] + Lines(rest)
  {
    LineLengthOf(line, "\n" + rest);
    var text := line + "\n" + rest;
    assert text == line + ("\n" + rest);
    assert text[|line| + 1..] == rest;
  }

  // A line without the carriage return at its end.
  function DropReturn(line: string): string {
    if line != "" && line[|line| - 1] == '\r' then line[..|line| - 1] else line
  }

  // ----- decimal numbers ----------------------------------------------------

  predicate IsDigit(c: char) { '0' <= c <= '9' }

  function Decimal(n: nat): string {
    (if n < 10 then "" else Decimal(n / 10)) + ['0' + (n % 10) as char]
  }

  // Reads digits into `acc` up to the first character that is not one.
  function ReadDigits(text: string, acc: nat): (nat, string) {
    if text == "" || !IsDigit(text[0]) then (acc, text)
    else ReadDigits(text[1..], 10 * acc + (text[0] - '0') as nat)
  }

  lemma DigitRead(digit: nat, rest: string, acc: nat)
    requires digit < 10
    ensures ReadDigits(['0' + digit as char] + rest, acc) == ReadDigits(rest, 10 * acc + digit)
    ensures '0' + digit as char != '\n'
  {
    assert (['0' + digit as char] + rest)[1..] == rest;
  }

  lemma LastDigit(n: nat, rest: string)
    ensures var last := ['0' + (n % 10) as char];
      Decimal(n) + rest == (if n < 10 then "" else Decimal(n / 10)) + (last + rest)
      && Decimal(n) == (if n < 10 then "" else Decimal(n / 10)) + last
  {
  }

  lemma {:induction false} ReadDecimal(n: nat, rest: string)
    ensures ReadDigits(Decimal(n) + rest, 0) == ReadDigits(rest, n)
    ensures '\n' !in Decimal(n)
  {
    var last := ['0' + (n % 10) as char];
    LastDigit(n, rest);
    DigitRead(n % 10, rest, n / 10);
    hide Decimal, ReadDigits;
    if n < 10 {
      assert "" + (last + rest) == last + rest && "" + last == last;
    } else {
      ReadDecimal(n / 10, last + rest);
    }
  }

  lemma {:induction false} DecimalStarts(n: nat)
    ensures Decimal(n) != "" && IsDigit(Decimal(n)[0])
  {
    if n >= 10 { DecimalStarts(n / 10); }
  }
}
