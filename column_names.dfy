/**
 * Column-name resolution of the lambda builders: `functionToColumnName` in
 * LambdaColumnConverter (condition package) and in LambdaColumn (wrapper
 * package). The method name that the Java code extracts from a serialized
 * lambda is an input here.
 */
module ColumnNames {
  import opened Common
  import opened StringUtil

  const GET: string := "get"
  const IS: string := "is"

  predicate StartsWith(s: string, prefix: string)
  {
    |prefix| <= |s| && s[..|prefix|] == prefix
  }

  /**
   * LambdaColumn.functionToColumnName. Its `lowerFirst` comes from
   * com.ct.util.StringUtil, which is not part of this model, so it is a
   * parameter.
   */
  function ColumnNameWith(methodName: string, lowerFirst: string -> string): (r: string)
    ensures StartsWith(methodName, GET) ==> r == lowerFirst(methodName[3..])
    ensures !StartsWith(methodName, GET) && StartsWith(methodName, IS) ==> r == lowerFirst(methodName[2..])
    ensures !StartsWith(methodName, GET) && !StartsWith(methodName, IS) ==> r == methodName
  {
    if StartsWith(methodName, GET) then lowerFirst(methodName[3..])
    else if StartsWith(methodName, IS) then lowerFirst(methodName[2..])
    else methodName
  }

  /** LambdaColumnConverter.functionToColumnName, over StringUtil.lowerFirst. */
  function FunctionToColumnName(methodName: string): (r: string)
    ensures StartsWith(methodName, GET) ==> r == LowerFirst(Some(methodName[3..])).value
    ensures !StartsWith(methodName, GET) && StartsWith(methodName, IS) ==> r == LowerFirst(Some(methodName[2..])).value
    ensures !StartsWith(methodName, GET) && !StartsWith(methodName, IS) ==> r == methodName
    ensures |r| <= |methodName|
    ensures StartsWith(methodName, GET) || StartsWith(methodName, IS) ==> |r| < |methodName|
  {
    if StartsWith(methodName, GET) then LowerFirst(Some(methodName[3..])).value
    else if StartsWith(methodName, IS) then LowerFirst(Some(methodName[2..])).value
    else methodName
  }

  /** The two resolvers agree whenever LambdaColumn's `lowerFirst` is StringUtil's. */
  lemma ResolversAgree(methodName: string, lowerFirst: string -> string)
    requires forall s :: lowerFirst(s) == LowerFirst(Some(s)).value
    ensures ColumnNameWith(methodName, lowerFirst) == FunctionToColumnName(methodName)
  {
  }

  /** The first character upper-cased, as the JavaBeans accessor convention does. */
  function UpperFirst(field: string): (r: string)
    ensures |r| == |field|
  {
    if |field| > 0 && 'a' <= field[0] <= 'z' then [(field[0] as int - 32) as char] + field[1..]
    else field
  }

  /** An accessor name built by the convention resolves back to its field. */
  lemma GetterRoundTrip(field: string)
    requires field == [] || 'a' <= field[0] <= 'z'
    ensures FunctionToColumnName(GET + UpperFirst(field)) == field
    ensures FunctionToColumnName(IS + UpperFirst(field)) == field
  {
    var g := GET + UpperFirst(field);
    var i := IS + UpperFirst(field);
    assert StartsWith(g, GET) && g[3..] == UpperFirst(field);
    assert !StartsWith(i, GET) by { assert i[0] == 'i'; }
    assert StartsWith(i, IS) && i[2..] == UpperFirst(field);
  }
}
