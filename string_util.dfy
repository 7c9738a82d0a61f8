/**
 * com.ct.condition.core.StringUtil. The core module and the jpa-plus-core
 * module each carry a copy; their `lowerFirst` bodies are the same text, and
 * the jpa-plus-core copy adds `isEmpty`. Characters are modelled over ASCII:
 * `Character.isUpperCase` is 'A'..'Z' and `toLowerCase` maps it to 'a'..'z'.
 */
module StringUtil {
  import opened Common

  predicate IsUpperCase(c: char)
  {
    'A' <= c <= 'Z'
  }

  function ToLowerCase(c: char): (r: char)
    ensures !IsUpperCase(r)
    ensures IsUpperCase(c) ==> r as int == c as int + 32
    ensures !IsUpperCase(c) ==> r == c
  {
    if IsUpperCase(c) then (c as int + 32) as char else c
  }

  /** `lowerFirst`: lower-case the first character when it is upper-case. */
  function LowerFirst(str: Option<string>): (r: Option<string>)
    ensures r.None? <==> str.None?
    ensures str.Some? ==> |r.value| == |str.value|
    ensures str.Some? && |str.value| > 0 ==> r.value[1..] == str.value[1..]
    ensures str.Some? && |str.value| > 0 ==> r.value[0] == ToLowerCase(str.value[0])
  {
    if str.None? then None
    else if |str.value| > 0 && IsUpperCase(str.value[0]) then
      Some([ToLowerCase(str.value[0])] + str.value[1..])
    else str
  }

  /** `isEmpty`: null or of length 0. */
  predicate IsEmpty(s: Option<string>)
  {
    s.None? || |s.value| == 0
  }

  /** A string whose first character is not upper-case is returned as it is. */
  lemma LowerFirstKeepsLowered(s: string)
    requires s == [] || !IsUpperCase(s[0])
    ensures LowerFirst(Some(s)) == Some(s)
  {
  }

  lemma LowerFirstIdempotent(str: Option<string>)
    ensures LowerFirst(LowerFirst(str)) == LowerFirst(str)
  {
  }

  /** `lowerFirst` neither creates nor removes emptiness. */
  lemma LowerFirstKeepsEmptiness(str: Option<string>)
    ensures IsEmpty(LowerFirst(str)) == IsEmpty(str)
  {
  }
}
