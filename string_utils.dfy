/**
 * Model of com.mx.utils.StringUtils, together with the ASCII upper-casing
 * that stands for Java's String.toUpperCase throughout the model.
 */
module StringUtils {

  /** Upper-casing of one character: ASCII letters a-z map to A-Z, every other character is kept. */
  function UpperChar(c: char): (u: char)
    ensures !('a' <= u <= 'z')
    ensures ('A' <= u <= 'Z') <==> ('A' <= c <= 'Z' || 'a' <= c <= 'z')
    ensures 'a' <= c <= 'z' ==> u as int + 32 == c as int
  {
    if 'a' <= c <= 'z' then (c as int - 32) as char else c
  }

  /** String.toUpperCase over ASCII: it keeps the length and upper-cases character by character. */
  function ToUpper(s: string): (r: string)
    ensures |r| == |s|
    ensures forall i :: 0 <= i < |s| ==> r[i] == UpperChar(s[i])
  {
    if s == [] then [] else [UpperChar(s[0])] + ToUpper(s[1..])
  }

  /**
   * upperFirstChar: the empty string is returned as it is; otherwise the
   * first character is upper-cased and the rest follows unchanged.
   */
  function UpperFirstChar(name: string): (r: string)
    ensures |r| == |name|
    ensures name == [] ==> r == name
    ensures |name| == 1 ==> r == [UpperChar(name[0])]
    ensures |name| > 1 ==> r[0] == UpperChar(name[0]) && r[1..] == name[1..]
  {
    if |name| < 1 then name
    else
      var firstChar := ToUpper(name[..1]);
      if |name| > 1 then firstChar + name[1..] else firstChar
  }

  /** Applying upperFirstChar twice equals applying it once. */
  lemma UpperFirstCharIdempotent(name: string)
    ensures UpperFirstChar(UpperFirstChar(name)) == UpperFirstChar(name)
  {
  }

  /**
   * upperFirstChar leaves a string unchanged exactly when it is empty or does
   * not start with a lower-case letter.
   */
  lemma UpperFirstCharFixedPoint(name: string)
    ensures UpperFirstChar(name) == name <==> name == [] || !('a' <= name[0] <= 'z')
  {
    if name != [] {
      var r := UpperFirstChar(name);
      assert r[0] == UpperChar(name[0]);
      if !('a' <= name[0] <= 'z') {
        assert r[0] == name[0];
        assert r[1..] == name[1..];
        assert r == [r[0]] + r[1..] && name == [name[0]] + name[1..];
      }
    }
  }
}
