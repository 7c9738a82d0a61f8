/**
 * com.ct.wrapper.core.ArrayUtil.toArray: checks that its `Object` argument
 * is an array and returns a new array of the same component type holding
 * the same elements, filled by `System.arraycopy`.
 */
module ArrayUtil {
  import opened Common

  /** The `Object arrayObj` argument: null, an array, or an object of some other class. */
  datatype Arg<T> = NullArg | ArrayArg(elems: array<T>) | OtherArg

  const NULL_ARGUMENT: string := "Argument [arrayObj] is null !"
  const NOT_ARRAY: string := "Argument [arrayObj] is not array !"

  /**
   * Null is a NullPointerException and a non-array an
   * IllegalArgumentException (both as `Err` with their message); an array
   * gives a freshly allocated copy, element for element, and the argument
   * itself is left as it was.
   */
  method ToArray<T(0)>(arrayObj: Arg<T>) returns (r: Result<array<T>>)
    ensures arrayObj.NullArg? <==> r == Err(NULL_ARGUMENT)
    ensures arrayObj.OtherArg? <==> r == Err(NOT_ARRAY)
    ensures arrayObj.ArrayArg? <==> r.Ok?
    ensures r.Ok? ==> fresh(r.value)
    ensures r.Ok? ==> r.value.Length == arrayObj.elems.Length
    ensures r.Ok? ==> r.value[..] == arrayObj.elems[..]
    ensures arrayObj.ArrayArg? ==> unchanged(arrayObj.elems)
  {
    match arrayObj
    case NullArg =>
      return Err(NULL_ARGUMENT);
    case OtherArg =>
      return Err(NOT_ARRAY);
    case ArrayArg(source) =>
      var result := new T[source.Length];
      // System.arraycopy(source, 0, result, 0, source.length)
      var i := 0;
      while i < source.Length
        invariant 0 <= i <= source.Length
        invariant result[..i] == source[..i]
      {
        result[i] := source[i];
        i := i + 1;
      }
      assert result[..] == result[..i] && source[..] == source[..i];
      return Ok(result);
  }
}
