/**
 * com.ct.condition.core.SpecificationFactory.createSpec: builds the leaf
 * specification of one chain call, or none. The returned lambda is modelled
 * by the tree it stands for; what the lambda would throw when the persistence
 * layer calls `toPredicate` becomes a `Throws` leaf.
 */
module SpecificationFactory {
  import opened Common
  import opened Specs
  import opened Paths

  const FIELD_NAME_NULL: string := "fieldName cannot null"
  const NOT_COLLECTION: string := "Value Must be Collection Instance!"
  const NULL_POINTER: string := "NullPointerException"

  /**
   * The IN lambda: the attribute path is resolved first; a value that is not
   * a Collection throws; otherwise its non-null members are the list.
   * A null path (a name of dots only) fails on `path.in`.
   */
  function InSpec(fieldName: string, v: Value): (s: Spec)
    ensures !v.Coll? ==> s == Throws(NOT_COLLECTION)
    ensures v.Coll? && RootPath(fieldName).Some? ==> s == Leaf(IN, RootPath(fieldName).value, Members(NonNulls(v.items)))
    ensures s.Leaf? || s.Throws?
  {
    if !v.Coll? then Throws(NOT_COLLECTION)
    else match RootPath(fieldName)
      case None => Throws(NULL_POINTER)
      case Some(p) => Leaf(IN, p, Members(NonNulls(v.items)))
  }

  /** `.not()` on the predicate of a leaf; a lambda that throws still throws. */
  function Negate(s: Spec): (r: Spec)
    ensures s.Throws? ==> r == s
    ensures s.Leaf? ==> r == Not(s)
  {
    if s.Throws? then s else Not(s)
  }

  predicate IsNullTest(h: Handler)
  {
    h == IS_NULL || h == IS_NOT_NULL
  }

  function CreateSpec(h: Handler, fieldName: Option<string>, v: Value): (r: Result<Option<Spec>>)
    ensures fieldName.None? <==> r == Err(FIELD_NAME_NULL)
    ensures fieldName.Some? && v == Null && !IsNullTest(h) ==> r == Ok(None)
  {
    if fieldName.None? then Err(FIELD_NAME_NULL)
    else if v == Null && !IsNullTest(h) then Ok(None)
    else
      var f := fieldName.value;
      match h
      case EQUAL => Ok(Some(Leaf(EQUAL, [f], Scalar(v))))
      case NOT_EQUAL => Ok(Some(Not(Leaf(EQUAL, [f], Scalar(v)))))
      case GE => Ok(Some(Leaf(GE, [f], Scalar(v))))
      case GT => Ok(Some(Leaf(GT, [f], Scalar(v))))
      case LE => Ok(Some(Leaf(LE, [f], Scalar(v))))
      case LT => Ok(Some(Leaf(LT, [f], Scalar(v))))
      case ALL_LIKE => Ok(Some(Leaf(ALL_LIKE, [f], Pattern("%", v, "%"))))
      case LEFT_LIKE => Ok(Some(Leaf(LEFT_LIKE, [f], Pattern("%", v, ""))))
      case RIGHT_LIKE => Ok(Some(Leaf(RIGHT_LIKE, [f], Pattern("", v, "%"))))
      case IN => Ok(Some(InSpec(f, v)))
      case NOT_IN => Ok(Some(Negate(InSpec(f, v))))
      case IS_NOT_NULL => Ok(Some(Leaf(IS_NOT_NULL, [f], NoOperand)))
      case IS_NULL => Ok(Some(Leaf(IS_NULL, [f], NoOperand)))
      case _ => Ok(None)
  }

  /** The comparisons: one leaf on the field itself; NOT_EQUAL is the negated equality. */
  lemma ComparisonLeaves(h: Handler, f: string, v: Value)
    requires v != Null
    ensures h in {EQUAL, LT, LE, GT, GE} ==> CreateSpec(h, Some(f), v) == Ok(Some(Leaf(h, [f], Scalar(v))))
    ensures CreateSpec(NOT_EQUAL, Some(f), v) == Ok(Some(Not(Leaf(EQUAL, [f], Scalar(v)))))
  {
  }

  /** isNull / isNotNull build their test whatever the value, null included. */
  lemma NullTestLeaves(h: Handler, f: string, v: Value)
    requires IsNullTest(h)
    ensures CreateSpec(h, Some(f), v) == Ok(Some(Leaf(h, [f], NoOperand)))
  {
  }

  /** This factory has no case for BETWEEN / NOT_BETWEEN: it returns no specification. */
  lemma NoRangeCase(h: Handler, f: string, v: Value)
    requires h == BETWEEN || h == NOT_BETWEEN
    ensures CreateSpec(h, Some(f), v) == Ok(None)
  {
  }

  /**
   * IN / NOT_IN accept only a Collection; anything else (an array included)
   * becomes a specification that throws when it is turned into a predicate.
   */
  lemma InNeedsCollection(f: string, v: Value)
    requires v != Null && !v.Coll?
    ensures CreateSpec(IN, Some(f), v) == Ok(Some(Throws(NOT_COLLECTION)))
    ensures CreateSpec(NOT_IN, Some(f), v) == Ok(Some(Throws(NOT_COLLECTION)))
  {
  }

  /** Every specification this factory builds is for a handler it has a case for. */
  lemma BuiltOnlyForKnownHandlers(h: Handler, f: Option<string>, v: Value)
    requires CreateSpec(h, f, v).Ok? && CreateSpec(h, f, v).value.Some?
    ensures h != BETWEEN && h != NOT_BETWEEN
    ensures f.Some?
  {
  }

  /** The text of a LIKE pattern, for a `String` value. */
  function PatternText(o: Operand): string
    requires o.Pattern? && o.v.Obj?
  {
    o.lead + o.v.text + o.trail
  }

  /** allLike / leftLike / rightLike match `%v%`, `%v` and `v%`. */
  lemma LikePatterns(fieldName: string, t: string)
    ensures PatternText(CreateSpec(ALL_LIKE, Some(fieldName), Obj(t)).value.value.arg) == "%" + t + "%"
    ensures PatternText(CreateSpec(LEFT_LIKE, Some(fieldName), Obj(t)).value.value.arg) == "%" + t
    ensures PatternText(CreateSpec(RIGHT_LIKE, Some(fieldName), Obj(t)).value.value.arg) == t + "%"
  {
  }

  /**
   * NOT_IN is the negation of IN over the same filtered list: it throws
   * exactly when IN throws, and otherwise holds exactly when IN does not.
   */
  lemma NotInNegatesIn(fieldName: string, v: Value, truth: LeafTruth)
    requires v != Null
    ensures var inSpec := CreateSpec(IN, Some(fieldName), v).value.value;
            var notInSpec := CreateSpec(NOT_IN, Some(fieldName), v).value.value;
            (Eval(notInSpec, truth) == Raises <==> Eval(inSpec, truth) == Raises) &&
            (Eval(inSpec, truth).Holds? ==> Eval(notInSpec, truth) == Holds(!Eval(inSpec, truth).b))
  {
  }

  /** Null members never reach the IN list. */
  lemma InDropsNulls(fieldName: string, items: seq<Value>)
    requires RootPath(fieldName).Some?
    ensures var s := CreateSpec(IN, Some(fieldName), Coll(items)).value.value;
            s.Leaf? && s.arg.Members? && Null !in s.arg.vs &&
            forall x :: x in items && x != Null ==> x in s.arg.vs
  {
  }
}
