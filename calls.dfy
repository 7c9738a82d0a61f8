/**
 * The fluent chain methods shared by AbstractCondition and AbstractWrapper
 * (the Condition interface), as data. A `Consumer<Child>` passed to
 * `and(consumer)` / `or(consumer)` is modelled by the sequence of chain calls
 * it makes on the fresh child builder.
 */
module Calls {
  import opened Common
  import opened Specs

  datatype Call =
    // ge / eq / notEq / gt / lt / le (R field, X val)
    | Ge(field: Option<string>, v: Value)
    | Eq(field: Option<string>, v: Value)
    | NotEq(field: Option<string>, v: Value)
    | Gt(field: Option<string>, v: Value)
    | Lt(field: Option<string>, v: Value)
    | Le(field: Option<string>, v: Value)
    // allLike / rightLike / leftLike (R field, String val)
    | AllLike(field: Option<string>, s: Option<string>)
    | RightLike(field: Option<string>, s: Option<string>)
    | LeftLike(field: Option<string>, s: Option<string>)
    // isNull / isNotNull (R field)
    | IsNull(field: Option<string>)
    | IsNotNull(field: Option<string>)
    // in / notIn (R field, Collection<X> collection)
    | In(field: Option<string>, c: Option<seq<Value>>)
    | NotIn(field: Option<string>, c: Option<seq<Value>>)
    // in / notIn (R field, X... array)
    | InArray(field: Option<string>, items: seq<Value>)
    | NotInArray(field: Option<string>, items: seq<Value>)
    // between / notBetween (R field, X low, X up)
    | Between(field: Option<string>, low: Value, up: Value)
    | NotBetween(field: Option<string>, low: Value, up: Value)
    // and() / or()
    | SetAnd
    | SetOr
    // and(consumer) / or(consumer)
    | NestAnd(group: seq<Call>)
    | NestOr(group: seq<Call>)

  function CallSize(c: Call): (n: nat)
    ensures n >= 1
  {
    match c
    case NestAnd(g) => 1 + CallsSize(g)
    case NestOr(g) => 1 + CallsSize(g)
    case _ => 1
  }

  function CallsSize(cs: seq<Call>): (n: nat)
    ensures cs != [] ==> n >= CallSize(cs[0]) && n > CallsSize(cs[1..])
  {
    if cs == [] then 0 else CallSize(cs[0]) + CallsSize(cs[1..])
  }

  /** A group is at least as large as each of its calls. */
  lemma {:induction false} CallSizeBound(calls: seq<Call>, i: nat)
    requires i < |calls|
    ensures CallSize(calls[i]) <= CallsSize(calls)
    decreases i
  {
    if i > 0 {
      CallSizeBound(calls[1..], i - 1);
      assert calls[1..][i - 1] == calls[i];
    }
  }

  /** A chain call that asks the factory for one leaf specification. */
  predicate IsLeafCall(c: Call)
  {
    !(c.SetAnd? || c.SetOr? || c.NestAnd? || c.NestOr?)
  }

  /** A `String` argument as the `Object` the factory receives. */
  function StrValue(s: Option<string>): (v: Value)
    ensures s.None? <==> v == Null
  {
    match s
    case None => Null
    case Some(t) => Obj(t)
  }

  /** A `Collection` argument as the `Object` the factory receives. */
  function CollValue(c: Option<seq<Value>>): (v: Value)
    ensures c.None? <==> v == Null
  {
    match c
    case None => Null
    case Some(items) => Coll(items)
  }

  /**
   * What a leaf chain method does before the factory runs: nothing at all
   * (between/notBetween with both bounds null), throw (an empty varargs
   * array), or call `createSpec(h, field, v)`.
   */
  datatype Request = Skip | Reject(msg: string) | Create(h: Handler, field: Option<string>, v: Value)

  const EMPTY_ARRAY: string := "Array should not be empty"

  function RequestOf(c: Call): (r: Request)
    requires IsLeafCall(c)
    ensures r.Reject? <==> (c.InArray? || c.NotInArray?) && |c.items| == 0
    ensures r.Skip? <==> (c.Between? || c.NotBetween?) && c.low == Null && c.up == Null
    ensures r.Create? ==> r.field == c.field
  {
    match c
    case Ge(f, v) => Create(GE, f, v)
    case Eq(f, v) => Create(EQUAL, f, v)
    case NotEq(f, v) => Create(NOT_EQUAL, f, v)
    case Gt(f, v) => Create(GT, f, v)
    case Lt(f, v) => Create(LT, f, v)
    case Le(f, v) => Create(LE, f, v)
    case AllLike(f, s) => Create(ALL_LIKE, f, StrValue(s))
    case RightLike(f, s) => Create(RIGHT_LIKE, f, StrValue(s))
    case LeftLike(f, s) => Create(LEFT_LIKE, f, StrValue(s))
    case IsNull(f) => Create(IS_NULL, f, Null)
    case IsNotNull(f) => Create(IS_NOT_NULL, f, Null)
    case In(f, col) => Create(IN, f, CollValue(col))
    case NotIn(f, col) => Create(NOT_IN, f, CollValue(col))
    case InArray(f, items) => if |items| == 0 then Reject(EMPTY_ARRAY) else Create(IN, f, Arr(items))
    case NotInArray(f, items) => if |items| == 0 then Reject(EMPTY_ARRAY) else Create(NOT_IN, f, Arr(items))
    case Between(f, lo, up) => if lo != Null || up != Null then Create(BETWEEN, f, Arr([lo, up])) else Skip
    case NotBetween(f, lo, up) => if lo != Null || up != Null then Create(NOT_BETWEEN, f, Arr([lo, up])) else Skip
  }

  /** The two fields of a builder: the accumulated specification and the operator. */
  datatype State = State(spec: Spec, mode: Mode)

  /** What a call sequence leaves behind: the builder's state and whether it threw. */
  datatype Trace = Trace(state: State, outcome: Outcome)

  /** A new builder: operator AND, and the specification that yields no predicate. */
  const Fresh: State := State(Empty, AND)

  /** A single call that completes leaves its new state; one that throws leaves the old one. */
  function Finish(st: State, r: Result<State>): (t: Trace)
    ensures t.outcome.Pass? <==> r.Ok?
    ensures r.Ok? ==> t.state == r.value
    ensures r.Err? ==> t == Trace(st, Fail(r.msg))
  {
    match r
    case Ok(next) => Trace(next, Pass)
    case Err(m) => Trace(st, Fail(m))
  }
}
