/** Failure-compatible wrappers and the Java values the builders pass around. */
module Common {

  /** A Java reference that may be null. */
  datatype Option<+T> = None | Some(value: T)

  /** A computed value, or the message of the exception Java would throw. */
  datatype Result<+T> = Ok(value: T) | Err(msg: string)

  /** A statement that either completes or throws with a message. */
  datatype Outcome = Pass | Fail(msg: string)

  /** Java's `long` (and the boxed `Long` the entities use as primary key). */
  newtype Long = x: int | -0x8000_0000_0000_0000 <= x < 0x8000_0000_0000_0000

  /** Java's `int`. */
  newtype Int = x: int | -0x8000_0000 <= x < 0x8000_0000

  /**
   * The Java objects that reach the condition factory as `Object val`:
   * null, a plain comparable object (identified by its `toString` form),
   * a `java.util.Collection` and an `Object[]` array (varargs).
   * Equality of values stands for `Object.equals`.
   */
  datatype Value =
    | Null
    | Obj(text: string)
    | Coll(items: seq<Value>)
    | Arr(items: seq<Value>)

  /** `Objects.nonNull` filtering of a stream, order kept. */
  function NonNulls(vs: seq<Value>): (r: seq<Value>)
    ensures |r| <= |vs|
    ensures forall v :: v in r <==> v in vs && v != Null
  {
    if vs == [] then []
    else if vs[0] == Null then NonNulls(vs[1..])
    else [vs[0]] + NonNulls(vs[1..])
  }

  /** A one-element list whose element is not null passes the filter unchanged. */
  lemma NonNullsSingle(v: Value)
    requires v != Null
    ensures NonNulls([v]) == [v]
  {
    assert [v][1..] == [];
  }
}
