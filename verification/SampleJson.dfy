/**
 Printing a sample buffer as a JSON array of decimal byte values, and reading it back.
 */
module SampleJson {
  import opened Wire
  import opened Wrappers
  import opened Text

  /** A Go byte slice: nil is not the empty slice. */
  datatype SampleBytes = Nil | Samples(bytes: seq<Byte>)

  const COMMA: char := ','

  function Tokens(bytes: seq<Byte>): (tokens: seq<string>)
    ensures |tokens| == |bytes|
    ensures forall i :: 0 <= i < |bytes| ==> tokens[i] == Decimal(bytes[i])
  {
    seq(|bytes|, i requires 0 <= i < |bytes| => Decimal(bytes[i]))
  }

  function Printed(s: SampleBytes): string {
    match s
    case Nil => "null"
    case Samples(bytes) => "[" + Join(Tokens(bytes), COMMA) + "]"
  }

  method MarshalJSON(s: SampleBytes) returns (out: string)
    ensures out == Printed(s)
    ensures s.Samples? ==> |out| <= 4 * |s.bytes| + 2
  {
    if s.Nil? {
      return "null";
    }
    out := "[";
    for i := 0 to |s.bytes|
      invariant out == "[" + Join(Tokens(s.bytes[..i]), COMMA)
      invariant |out| <= 4 * i + 1
    {
      if i > 0 {
        out := out + [COMMA];
      }
      out := out + Decimal(s.bytes[i]);
      assert Tokens(s.bytes[..i + 1]) == Tokens(s.bytes[..i]) + [Decimal(s.bytes[i])];
      JoinSnoc(Tokens(s.bytes[..i]), Decimal(s.bytes[i]), COMMA);
      DecimalIsShort(s.bytes[i]);
    }
    assert s.bytes[..|s.bytes|] == s.bytes;
    out := out + "]";
  }

  lemma DecimalIsShort(b: Byte)
    ensures |Decimal(b)| <= 3
  {
    if b >= 100 {
      assert |Decimal(b / 10 / 10)| == 1;
      assert Decimal(b / 10) == Decimal(b / 10 / 10) + [DigitChar(b / 10 % 10)];
    }
  }

  /** The integers of section 6 of RFC 8259 without sign, fraction or exponent: no superfluous zero. */
  predicate IsJsonInteger(s: string) {
    s != "" && AllDigits(s) && (|s| > 1 ==> s[0] != '0')
  }

  predicate IsByteToken(s: string) {
    IsJsonInteger(s) && ValueOf(s) < 256
  }

  predicate AllByteTokens(tokens: seq<string>) {
    forall i :: 0 <= i < |tokens| ==> IsByteToken(tokens[i])
  }

  function ByteValues(tokens: seq<string>): (bytes: seq<Byte>)
    requires AllByteTokens(tokens)
    ensures |bytes| == |tokens|
    ensures forall i :: 0 <= i < |tokens| ==> bytes[i] == ValueOf(tokens[i])
  {
    seq(|tokens|, i requires 0 <= i < |tokens| => ValueOf(tokens[i]))
  }

  /** Reads "null" or an array (section 5 of RFC 8259) of integers below 256, without white space. */
  function Parse(text: string): Option<SampleBytes> {
    if text == "null" then Some(Nil)
    else if |text| < 2 || text[0] != '[' || text[|text| - 1] != ']' then None
    else if |text| == 2 then Some(Samples([]))
    else
      var tokens := Split(text[1..|text| - 1], COMMA);
      if AllByteTokens(tokens) then Some(Samples(ByteValues(tokens))) else None
  }

  lemma TokensAreBytes(bytes: seq<Byte>)
    ensures AllByteTokens(Tokens(bytes)) && ByteValues(Tokens(bytes)) == bytes
    ensures forall i :: 0 <= i < |bytes| ==> COMMA !in Tokens(bytes)[i]
  {
    var tokens := Tokens(bytes);
    forall i | 0 <= i < |bytes|
      ensures IsByteToken(tokens[i]) && ValueOf(tokens[i]) == bytes[i] && COMMA !in tokens[i]
    {
      ValueOfDecimal(bytes[i]);
      NoLeadingZero(bytes[i]);
    }
  }

  lemma {:induction false} NoLeadingZero(n: nat)
    ensures |Decimal(n)| > 1 ==> n >= 10
    ensures n > 0 ==> Decimal(n)[0] != '0'
  {
    if n >= 10 {
      NoLeadingZero(n / 10);
    }
  }

  lemma ItemsRoundTrip(bytes: seq<Byte>)
    requires bytes != []
    ensures var body := Join(Tokens(bytes), COMMA); body != "" && Split(body, COMMA) == Tokens(bytes)
  {
    var tokens := Tokens(bytes);
    TokensAreBytes(bytes);
    SplitOfJoin(tokens, COMMA);
    assert tokens[0] != "";
  }

  /** A parser reads back exactly the buffer that was printed. */
  lemma ParseOfPrinted(s: SampleBytes)
    ensures Parse(Printed(s)) == Some(s)
  {
    if s.Samples? && s.bytes == [] {
      assert Printed(s) == "[]";
    } else if s.Samples? {
      ItemsRoundTrip(s.bytes);
      TokensAreBytes(s.bytes);
      var text := Printed(s);
      assert text[0] != 'n';
      assert text[1..|text| - 1] == Join(Tokens(s.bytes), COMMA);
    }
  }

  lemma TokensOfValues(tokens: seq<string>)
    requires AllByteTokens(tokens)
    ensures Tokens(ByteValues(tokens)) == tokens
  {
    forall i | 0 <= i < |tokens| ensures Tokens(ByteValues(tokens))[i] == tokens[i] {
      DecimalOfValue(tokens[i]);
    }
  }

  /** And what the parser accepts is printed the same way, so text and buffer determine each other. */
  lemma PrintedOfParse(text: string)
    requires Parse(text).Some?
    ensures Printed(Parse(text).value) == text
  {
    if text != "null" {
      assert text == "[" + text[1..|text| - 1] + "]";
      if |text| > 2 {
        TokensOfValues(Split(text[1..|text| - 1], COMMA));
        JoinOfSplit(text[1..|text| - 1], COMMA);
      }
    }
  }

  lemma PrintedIsInjective(s: SampleBytes, t: SampleBytes)
    requires Printed(s) == Printed(t)
    ensures s == t
  {
    ParseOfPrinted(s);
    ParseOfPrinted(t);
  }
}
