/**
  The `"{numerator}:{denominator}"` text that names a fraction: the
  directory segment of the multi-part files (src/hooks/useDynamicSVG.ts)
  and the value of the fraction select (src/components/tabs/ShapePartsTab.tsx).
*/
module FractionKeys {
  import opened Wrappers
  import opened Strings

  function Encode(numerator: int, denominator: int): (s: string)
    ensures '/' !in s
  {
    IntToString(numerator) + ":" + IntToString(denominator)
  }

  /** `value.split(':').map(Number)` destructured into two numbers; text
      that is not a decimal integer, or a missing second half, gives no
      pair. */
  function Decode(value: string): (r: Option<(int, int)>)
    ensures ':' !in value ==> r == None
  {
    var parts := Split(value, ':');
    if |parts| >= 2 && ParseInteger(parts[0]).Some? && ParseInteger(parts[1]).Some? then
      Some((ParseInteger(parts[0]).value, ParseInteger(parts[1]).value))
    else None
  }

  /** Decoding an encoded pair gives the pair back. */
  lemma DecodeEncode(numerator: int, denominator: int)
    ensures Decode(Encode(numerator, denominator)) == Some((numerator, denominator))
  {
    var a, b := IntToString(numerator), IntToString(denominator);
    assert Encode(numerator, denominator) == a + [':'] + b;
    SplitJoined(a, b, ':');
    ParseIntegerOfIntToString(numerator);
    ParseIntegerOfIntToString(denominator);
  }

  /** Distinct fractions have distinct keys. */
  lemma EncodeInjective(n1: int, d1: int, n2: int, d2: int)
    requires Encode(n1, d1) == Encode(n2, d2)
    ensures n1 == n2 && d1 == d2
  {
    DecodeEncode(n1, d1);
    DecodeEncode(n2, d2);
  }
}
