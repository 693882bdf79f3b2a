/** Text made of bytes (section 5 of RFC 4648, without padding), as cursors are written. Strings
    are the bytes Go keeps in them. */
module Base64 {
  import opened Options

  predicate IsBytes(text: string) {
    forall i | 0 <= i < |text| :: text[i] < 256 as char
  }

  type Sextet = x: int | 0 <= x < 64

  type Octet = x: int | 0 <= x < 256

  function Digit(value: Sextet): char {
    if value < 26 then ('A' as int + value) as char
    else if value < 52 then ('a' as int + value - 26) as char
    else if value < 62 then ('0' as int + value - 52) as char
    else if value == 62 then '-' else '_'
  }

  function Value(digit: char): Option<Sextet> {
    if 'A' <= digit <= 'Z' then Some(digit as int - 'A' as int)
    else if 'a' <= digit <= 'z' then Some(digit as int - 'a' as int + 26)
    else if '0' <= digit <= '9' then Some(digit as int - '0' as int + 52)
    else if digit == '-' then Some(62)
    else if digit == '_' then Some(63)
    else None
  }

  lemma DigitValue(value: Sextet)
    ensures Value(Digit(value)) == Some(value) && Digit(value) != '\n' && Digit(value) != '\r'
  {}

  /** The four digits three bytes make. */
  function First(a: Octet): Sextet { a / 4 }

  function Second(a: Octet, b: Octet): Sextet { a % 4 * 16 + b / 16 }

  function Third(b: Octet, c: Octet): Sextet { b % 16 * 4 + c / 64 }

  function Fourth(c: Octet): Sextet { c % 64 }

  function Encode(text: string): string
    requires IsBytes(text)
    decreases |text|
  {
    if text == [] then ""
    else
      var a := text[0] as int;
      if |text| == 1 then [Digit(First(a)), Digit(Second(a, 0))]
      else
        var b := text[1] as int;
        if |text| == 2 then [Digit(First(a)), Digit(Second(a, b)), Digit(Third(b, 0))]
        else
          var c := text[2] as int;
          [Digit(First(a)), Digit(Second(a, b)), Digit(Third(b, c)), Digit(Fourth(c))] + Encode(text[3..])
  }

  /** Line breaks are skipped wherever they stand. */
  function WithoutBreaks(text: string): string {
    if text == [] then ""
    else (if text[0] == '\n' || text[0] == '\r' then "" else [text[0]]) + WithoutBreaks(text[1..])
  }

  function Values(text: string): Option<seq<Sextet>> {
    if text == [] then Some([])
    else
      var first, rest := Value(text[0]), Values(text[1..]);
      if first.Some? && rest.Some? then Some([first.value] + rest.value) else None
  }

  /** The three bytes four digits make. */
  function Byte1(first: Sextet, second: Sextet): char { (first * 4 + second / 16) as char }

  function Byte2(second: Sextet, third: Sextet): char { (second % 16 * 16 + third / 4) as char }

  function Byte3(third: Sextet, fourth: Sextet): char { (third % 4 * 64 + fourth) as char }

  /** Bits left over in the last group are not looked at. */
  function FromValues(values: seq<Sextet>): Option<string>
    decreases |values|
  {
    if values == [] then Some("")
    else if |values| == 1 then None
    else
      var a := Byte1(values[0], values[1]);
      if |values| == 2 then Some([a])
      else
        var b := Byte2(values[1], values[2]);
        if |values| == 3 then Some([a, b])
        else
          var c := Byte3(values[2], values[3]);
          match FromValues(values[4..])
          case None => None
          case Some(rest) => Some([a, b, c] + rest)
  }

  function Decode(text: string): Option<string> {
    match Values(WithoutBreaks(text))
    case None => None
    case Some(values) => FromValues(values)
  }

  /** The values of the digits Encode writes. */
  function Groups(text: string): seq<Sextet>
    requires IsBytes(text)
    decreases |text|
  {
    if text == [] then []
    else
      var a := text[0] as int;
      if |text| == 1 then [First(a), Second(a, 0)]
      else
        var b := text[1] as int;
        if |text| == 2 then [First(a), Second(a, b), Third(b, 0)]
        else
          var c := text[2] as int;
          [First(a), Second(a, b), Third(b, c), Fourth(c)] + Groups(text[3..])
  }

  function Digits(values: seq<Sextet>): string
  {
    if values == [] then "" else [Digit(values[0])] + Digits(values[1..])
  }

  lemma {:induction false} DigitsRead(values: seq<Sextet>)
    ensures WithoutBreaks(Digits(values)) == Digits(values) && Values(Digits(values)) == Some(values)
  {
    if values != [] {
      DigitsRead(values[1..]);
      DigitValue(values[0]);
      assert values == [values[0]] + values[1..];
      assert Digits(values)[1..] == Digits(values[1..]);
    }
  }

  lemma {:induction false} FourDigits(values: seq<Sextet>)
    requires |values| >= 4
    ensures Digits(values) == [Digit(values[0]), Digit(values[1]), Digit(values[2]), Digit(values[3])] + Digits(values[4..])
  {
    var one := values[1..];
    var two := one[1..];
    var three := two[1..];
    assert one[0] == values[1] && two[0] == values[2] && three[0] == values[3] && three[1..] == values[4..];
    assert Digits(two) == [Digit(two[0]), Digit(three[0])] + Digits(three[1..]);
    assert Digits(values) == [Digit(values[0]), Digit(one[0])] + Digits(two);
  }

  lemma {:induction false} EncodesGroups(text: string)
    requires IsBytes(text)
    ensures Encode(text) == Digits(Groups(text))
    decreases |text|
  {
    if |text| >= 3 {
      EncodesGroups(text[3..]);
      FourDigits(Groups(text));
      assert Groups(text)[4..] == Groups(text[3..]);
    } else if text != [] {
      var values := Groups(text);
      assert Digits(values[1..]) == [Digit(values[1])] + Digits(values[1..][1..]);
      if |text| == 2 {
        assert values[1..][1..] == [values[2]];
        assert [values[2]][1..] == [];
      } else {
        assert values[1..][1..] == [];
      }
    }
  }

  lemma HighAndLow16(high: int, low: int)
    requires 0 <= low < 16
    ensures (high * 16 + low) / 16 == high && (high * 16 + low) % 16 == low
  {}

  lemma HighAndLow4(high: int, low: int)
    requires 0 <= low < 4
    ensures (high * 4 + low) / 4 == high && (high * 4 + low) % 4 == low
  {}

  lemma FirstByte(a: Octet, b: Octet)
    ensures Byte1(First(a), Second(a, b)) == a as char
  {
    HighAndLow16(a % 4, b / 16);
    assert Second(a, b) / 16 == a % 4;
    assert a / 4 * 4 + a % 4 == a;
  }

  lemma SecondByte(a: Octet, b: Octet, c: Octet)
    ensures Byte2(Second(a, b), Third(b, c)) == b as char
  {
    HighAndLow16(a % 4, b / 16);
    assert Second(a, b) % 16 == b / 16;
    HighAndLow4(b % 16, c / 64);
    assert Third(b, c) / 4 == b % 16;
    assert b / 16 * 16 + b % 16 == b;
  }

  lemma ThirdByte(b: Octet, c: Octet)
    ensures Byte3(Third(b, c), Fourth(c)) == c as char
  {
    HighAndLow4(b % 16, c / 64);
    assert Third(b, c) % 4 == c / 64;
    assert c / 64 * 64 + c % 64 == c;
  }

  lemma OneGroup(text: string)
    requires IsBytes(text) && |text| >= 3 && FromValues(Groups(text[3..])) == Some(text[3..])
    ensures FromValues(Groups(text)) == Some(text)
  {
    var a, b, c := text[0] as int, text[1] as int, text[2] as int;
    FirstByte(a, b);
    SecondByte(a, b, c);
    ThirdByte(b, c);
    assert Groups(text)[4..] == Groups(text[3..]);
    assert text == [text[0], text[1], text[2]] + text[3..];
  }

  lemma LastGroup(text: string)
    requires IsBytes(text) && 0 < |text| < 3
    ensures FromValues(Groups(text)) == Some(text)
  {
    var a, b := text[0] as int, if |text| > 1 then text[1] as int else 0;
    FirstByte(a, b);
    SecondByte(a, b, 0);
    assert text == if |text| == 1 then [text[0]] else [text[0], text[1]];
  }

  lemma {:induction false} GroupsRead(text: string)
    requires IsBytes(text)
    ensures FromValues(Groups(text)) == Some(text)
    decreases |text|
  {
    if |text| >= 3 {
      GroupsRead(text[3..]);
      OneGroup(text);
    } else if text != [] {
      LastGroup(text);
    }
  }

  /** What a cursor is made of goes into an address as it is. */
  predicate UrlSafe(c: char) {
    'A' <= c <= 'Z' || 'a' <= c <= 'z' || '0' <= c <= '9' || c == '-' || c == '_'
  }

  lemma {:induction false} EncodesUrlSafe(text: string)
    requires IsBytes(text)
    ensures |Encode(text)| == (|text| * 4 + 2) / 3
    ensures forall i | 0 <= i < |Encode(text)| :: UrlSafe(Encode(text)[i])
    decreases |text|
  {
    if |text| >= 3 {
      EncodesUrlSafe(text[3..]);
    }
  }

  /** The vectors of section 10 of RFC 4648, without padding, and the last two digits. */
  lemma Vectors()
    ensures Encode("f") == "Zg" && Encode("fo") == "Zm8" && Encode("foo") == "Zm9v" && Encode("foob") == "Zm9vYg"
    ensures Encode(['\U{FB}', '\U{FF}']) == "-_8"
  {
    assert "foob"[3..] == "b" && Encode("b") == "Yg";
    assert "foo"[3..] == "";
  }

  /** A cursor reads back as the key it was written from. */
  lemma DecodeEncode(text: string)
    requires IsBytes(text)
    ensures Decode(Encode(text)) == Some(text)
  {
    EncodesGroups(text);
    DigitsRead(Groups(text));
    GroupsRead(text);
  }
}
