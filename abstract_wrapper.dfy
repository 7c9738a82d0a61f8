/**
 * com.ct.wrapper.AbstractWrapper: the older fluent builder, with its own
 * private copy of the condition factory.
 *
 * It differs from AbstractCondition in three ways:
 * - a new term is merged IN FRONT: `leaf OP accumulated` (and a nested
 *   child as `child OP accumulated`);
 * - its factory also accepts arrays for IN / NOT_IN and has cases for
 *   BETWEEN / NOT_BETWEEN; both go through `Arrays.asList(val)` with `val`
 *   typed `Object`, which builds a list whose only element is `val` itself.
 *   For IN the model records that list (`[array]`) without claiming what
 *   the persistence layer makes of it; for BETWEEN the cast of its first
 *   element to `Comparable` throws, so the range lambdas never build a
 *   predicate;
 * - a null field name is reported as "filedName cannot null".
 */
module Wrapper {
  import opened Common
  import opened Specs
  import opened Calls
  import opened Paths
  import SpecificationFactory

  const FILED_NAME_NULL: string := "filedName cannot null"

  /**
   * The IN lambda: the path is resolved first; a Collection gives its
   * non-null members, an array gives the one-element list `[array]`
   * (`Arrays.asList(Object)`), anything else throws. A null path (a name of
   * dots only) fails on `path.in`.
   */
  function InSpec(fieldName: string, v: Value): (s: Spec)
    ensures !(v.Coll? || v.Arr?) ==> s == Throws(SpecificationFactory.NOT_COLLECTION)
    ensures (v.Coll? || v.Arr?) && RootPath(fieldName).None? ==> s == Throws(SpecificationFactory.NULL_POINTER)
    ensures v.Coll? && RootPath(fieldName).Some? ==> s == Leaf(IN, RootPath(fieldName).value, Members(NonNulls(v.items)))
    ensures v.Arr? && RootPath(fieldName).Some? ==> s == Leaf(IN, RootPath(fieldName).value, Members([v]))
  {
    if !(v.Coll? || v.Arr?) then Throws(SpecificationFactory.NOT_COLLECTION)
    else match RootPath(fieldName)
      case None => Throws(SpecificationFactory.NULL_POINTER)
      case Some(p) =>
        if v.Coll? then Leaf(IN, p, Members(NonNulls(v.items)))
        else NonNullsSingle(v); Leaf(IN, p, Members(NonNulls([v])))
  }

  const CLASS_CAST: string := "ClassCastException"
  const INDEX_OUT_OF_BOUNDS: string := "ArrayIndexOutOfBoundsException"

  /**
   * The BETWEEN lambda. `Arrays.asList(val)` is the one-element list
   * `[val]`, so `(Comparable) bound.get(0)` casts `val` itself: an array or
   * a collection is not `Comparable` and the cast throws; a comparable
   * object passes it and `bound.get(1)` is out of range. `cb.between` is
   * never reached, and the NOT_BETWEEN lambda fails at the same point,
   * before its `.not()`.
   */
  function BetweenSpec(v: Value): (s: Spec)
    ensures forall truth :: Eval(s, truth) == Raises
    ensures SpecificationFactory.Negate(s) == s
    ensures v.Arr? || v.Coll? ==> s == Throws(CLASS_CAST)
    ensures v.Obj? ==> s == Throws(INDEX_OUT_OF_BOUNDS)
  {
    if v.Arr? || v.Coll? then Throws(CLASS_CAST) else Throws(INDEX_OUT_OF_BOUNDS)
  }

  function CreateSpec(h: Handler, fieldName: Option<string>, v: Value): (r: Result<Option<Spec>>)
    ensures fieldName.None? <==> r == Err(FILED_NAME_NULL)
    ensures fieldName.Some? && v == Null && !SpecificationFactory.IsNullTest(h) ==> r == Ok(None)
    ensures fieldName.Some? && (v != Null || SpecificationFactory.IsNullTest(h)) ==> r.Ok? && r.value.Some?
  {
    if fieldName.None? then Err(FILED_NAME_NULL)
    else if v == Null && !SpecificationFactory.IsNullTest(h) then Ok(None)
    else
      var f := fieldName.value;
      match h
      case EQUAL => Ok(Some(Leaf(EQUAL, [f], Scalar(v))))
      case NOT_EQUAL => Ok(Some(Not(Leaf(EQUAL, [f], Scalar(v)))))
      case GE => Ok(Some(Leaf(GE, [f], Scalar(v))))
      case GT => Ok(Some(Leaf(GT, [f], Scalar(v))))
      case LE => Ok(Some(Leaf(LE, [f], Scalar(v))))
      case LT => Ok(Some(Leaf(LT, [f], Scalar(v))))
      case ALL_LIKE => Ok(Some(Leaf(ALL_LIKE, [f], Pattern("%", v, "%"))))
      case LEFT_LIKE => Ok(Some(Leaf(LEFT_LIKE, [f], Pattern("%", v, ""))))
      case RIGHT_LIKE => Ok(Some(Leaf(RIGHT_LIKE, [f], Pattern("", v, "%"))))
      case IN => Ok(Some(InSpec(f, v)))
      case NOT_IN => Ok(Some(SpecificationFactory.Negate(InSpec(f, v))))
      case IS_NOT_NULL => Ok(Some(Leaf(IS_NOT_NULL, [f], NoOperand)))
      case IS_NULL => Ok(Some(Leaf(IS_NULL, [f], NoOperand)))
      case BETWEEN => Ok(Some(BetweenSpec(v)))
      case NOT_BETWEEN => Ok(Some(SpecificationFactory.Negate(BetweenSpec(v))))
  }

  /**
   * Unlike the condition factory, this one builds a specification for
   * BETWEEN and NOT_BETWEEN, but both are the same throwing lambda: for the
   * bounds array `between` passes, a ClassCastException.
   */
  lemma RangeSpecs(f: string, v: Value)
    requires v != Null
    ensures CreateSpec(BETWEEN, Some(f), v).Ok? && CreateSpec(BETWEEN, Some(f), v).value.Some?
    ensures CreateSpec(NOT_BETWEEN, Some(f), v) == CreateSpec(BETWEEN, Some(f), v)
    ensures v.Arr? ==> CreateSpec(BETWEEN, Some(f), v) == Ok(Some(Throws(CLASS_CAST)))
  {
  }

  /** Neither range lambda ever yields a predicate: both raise on every row. */
  lemma RangeAlwaysRaises(f: string, v: Value, truth: LeafTruth)
    requires v != Null
    ensures Eval(CreateSpec(BETWEEN, Some(f), v).value.value, truth) == Raises
    ensures Eval(CreateSpec(NOT_BETWEEN, Some(f), v).value.value, truth) == Raises
  {
    RangeSpecs(f, v);
  }

  /**
   * Away from arrays given to IN / NOT_IN and from BETWEEN / NOT_BETWEEN, the private factory builds exactly the
   * leaves of com.ct.condition.core.SpecificationFactory; both reject a null
   * field name, with different messages.
   */
  lemma FactoriesAgree(h: Handler, fieldName: Option<string>, v: Value)
    requires h != BETWEEN && h != NOT_BETWEEN && !(v.Arr? && (h == IN || h == NOT_IN))
    ensures CreateSpec(h, fieldName, v).Err? <==> SpecificationFactory.CreateSpec(h, fieldName, v).Err?
    ensures CreateSpec(h, fieldName, v).Ok? ==> CreateSpec(h, fieldName, v) == SpecificationFactory.CreateSpec(h, fieldName, v)
  {
  }

  // ---------------------------------------------------------------------
  // The wrapper as a fold over its chain calls

  /** `mergeSpecification(s, operator)`: a null `s` changes nothing; otherwise `s OP spec`. */
  function Merge(spec: Spec, s: Option<Spec>, m: Mode): (r: Spec)
    ensures s.None? ==> r == spec
    ensures s.Some? ==> forall truth :: Eval(r, truth) == Compose(m, Eval(s.value, truth), Eval(spec, truth))
  {
    match s
    case None => spec
    case Some(x) => Combine(m, x, spec)
  }

  function LeafOf(c: Call): Result<Option<Spec>>
    requires IsLeafCall(c)
  {
    match RequestOf(c)
    case Skip => Ok(None)
    case Reject(m) => Err(m)
    case Create(h, f, v) => CreateSpec(h, f, v)
  }

  /** A leaf call: the factory's exception, or the merge of what it built. */
  function LeafStep(st: State, r: Result<Option<Spec>>): Result<State>
  {
    match r
    case Err(m) => Err(m)
    case Ok(s) => Ok(State(Merge(st.spec, s, st.mode), st.mode))
  }

  function Step(st: State, c: Call): (r: Result<State>)
    ensures (c == SetAnd || c == SetOr) ==> r.Ok? && r.value.spec == st.spec
    ensures c != SetAnd && c != SetOr && r.Ok? ==> r.value.mode == st.mode
    decreases CallSize(c), 0
  {
    match c
    case SetAnd => Ok(State(st.spec, AND))
    case SetOr => Ok(State(st.spec, OR))
    case NestAnd(g) =>
      var child := Run(Fresh, g);
      if child.outcome.Fail? then Err(child.outcome.msg)
      else Ok(State(Merge(st.spec, Some(child.state.spec), AND), st.mode))
    case NestOr(g) =>
      var child := Run(Fresh, g);
      if child.outcome.Fail? then Err(child.outcome.msg)
      else Ok(State(Merge(st.spec, Some(child.state.spec), OR), st.mode))
    case _ => LeafStep(st, LeafOf(c))
  }

  function Run(st: State, calls: seq<Call>): Trace
    decreases CallsSize(calls), 1
  {
    if calls == [] then Trace(st, Pass)
    else match Step(st, calls[0])
      case Err(m) => Trace(st, Fail(m))
      case Ok(next) => Run(next, calls[1..])
  }

  /** A run of one leaf call is the leaf step of what the factory returns. */
  lemma RunLeaf(st: State, c: Call)
    requires IsLeafCall(c)
    ensures Run(st, [c]) == Finish(st, LeafStep(st, LeafOf(c)))
  {
    assert [c][1..] == [];
  }

  lemma RunCons(st: State, c: Call, rest: seq<Call>)
    ensures Step(st, c).Err? ==> Run(st, [c] + rest) == Trace(st, Fail(Step(st, c).msg))
    ensures Step(st, c).Ok? ==> Run(st, [c] + rest) == Run(Step(st, c).value, rest)
  {
    assert ([c] + rest)[0] == c;
    assert ([c] + rest)[1..] == rest;
  }

  // ---------------------------------------------------------------------
  // Properties of one call

  /** A real leaf is put in front: `leaf OP spec` with the current operator, which stays. */
  lemma LeafMergesInFront(st: State, c: Call, leaf: Spec)
    requires IsLeafCall(c) && LeafOf(c) == Ok(Some(leaf))
    ensures Step(st, c) == Ok(State(Combine(st.mode, leaf, st.spec), st.mode))
  {
  }

  /** A leaf call whose factory result is none leaves both fields unchanged. */
  lemma NoLeafNoChange(st: State, c: Call)
    requires IsLeafCall(c) && LeafOf(c) == Ok(None)
    ensures Step(st, c) == Ok(st)
  {
  }

  /** A null field name throws "filedName cannot null" and changes nothing. */
  lemma NullFieldThrows(st: State, c: Call)
    requires IsLeafCall(c) && c.field.None? && RequestOf(c).Create?
    ensures Step(st, c) == Err(FILED_NAME_NULL)
  {
  }

  /** `and(c)` / `or(c)`: the child goes in front, with a fixed AND / OR. */
  lemma NestedMergeIsFixed(st: State, g: seq<Call>)
    ensures var child := Run(Fresh, g);
            child.outcome.Pass? ==>
              Step(st, NestAnd(g)) == Ok(State(And(child.state.spec, st.spec), st.mode)) &&
              Step(st, NestOr(g)) == Ok(State(Or(child.state.spec, st.spec), st.mode))
    ensures var child := Run(Fresh, g);
            child.outcome.Fail? ==>
              Step(st, NestAnd(g)) == Err(child.outcome.msg) &&
              Step(st, NestOr(g)) == Err(child.outcome.msg)
  {
  }

  /** Varargs `in`/`notIn` with no element throw before any state change. */
  lemma EmptyArrayThrows(st: State, f: Option<string>)
    ensures Step(st, InArray(f, [])) == Err(EMPTY_ARRAY)
    ensures Step(st, NotInArray(f, [])) == Err(EMPTY_ARRAY)
  {
  }

  /**
   * `between`/`notBetween` with a bound put the throwing range lambda in
   * front, with the current operator.
   */
  lemma BetweenMergesInFront(st: State, f: string, lo: Value, up: Value)
    requires lo != Null || up != Null
    ensures Step(st, Between(Some(f), lo, up)) == Ok(State(Combine(st.mode, Throws(CLASS_CAST), st.spec), st.mode))
    ensures Step(st, NotBetween(Some(f), lo, up)) == Ok(State(Combine(st.mode, Throws(CLASS_CAST), st.spec), st.mode))
  {
    RangeSpecs(f, Arr([lo, up]));
    LeafMergesInFront(st, Between(Some(f), lo, up), Throws(CLASS_CAST));
    LeafMergesInFront(st, NotBetween(Some(f), lo, up), Throws(CLASS_CAST));
  }

  /** Once the accumulated specification raises, every later call keeps it raising. */
  lemma RaisesSticks(st: State, c: Call, truth: LeafTruth)
    requires Eval(st.spec, truth) == Raises && Step(st, c).Ok?
    ensures Eval(Step(st, c).value.spec, truth) == Raises
  {
  }

  /**
   * So a chain in which a wrapper `between` or `notBetween` with a bound
   * has run yields a specification that throws when the query is built.
   */
  lemma {:induction false} RaisesToTheEnd(st: State, calls: seq<Call>, truth: LeafTruth)
    requires Eval(st.spec, truth) == Raises
    ensures Eval(Run(st, calls).state.spec, truth) == Raises
    decreases |calls|
  {
    if calls != [] {
      match Step(st, calls[0])
      case Err(_) =>
      case Ok(next) =>
        RaisesSticks(st, calls[0], truth);
        RaisesToTheEnd(next, calls[1..], truth);
    }
  }

  lemma BetweenSpoilsChain(st: State, f: string, lo: Value, up: Value, rest: seq<Call>, truth: LeafTruth)
    requires lo != Null || up != Null
    ensures Eval(Run(st, [Between(Some(f), lo, up)] + rest).state.spec, truth) == Raises
    ensures Eval(Run(st, [NotBetween(Some(f), lo, up)] + rest).state.spec, truth) == Raises
  {
    BetweenMergesInFront(st, f, lo, up);
    var next := State(Combine(st.mode, Throws(CLASS_CAST), st.spec), st.mode);
    ThrowsPropagates(st.mode, CLASS_CAST, st.spec, truth);
    RunCons(st, Between(Some(f), lo, up), rest);
    RunCons(st, NotBetween(Some(f), lo, up), rest);
    RaisesToTheEnd(next, rest, truth);
  }

  /** With both bounds null, `between`/`notBetween` do nothing. */
  lemma NullBoundsNoChange(st: State, f: Option<string>)
    ensures Step(st, Between(f, Null, Null)) == Ok(st)
    ensures Step(st, NotBetween(f, Null, Null)) == Ok(st)
  {
  }

  /** Varargs `in` compares the path with a one-element list: the array itself. */
  lemma ArrayInHasOneMember(st: State, f: string, items: seq<Value>)
    requires |items| > 0 && RootPath(f).Some?
    ensures Step(st, InArray(Some(f), items)) ==
            Ok(State(Combine(st.mode, Leaf(IN, RootPath(f).value, Members([Arr(items)])), st.spec), st.mode))
  {
  }

  // ---------------------------------------------------------------------
  // Properties of call sequences

  lemma {:induction false} RunAppend(st: State, a: seq<Call>, b: seq<Call>)
    ensures Run(st, a + b) ==
            (var t := Run(st, a); if t.outcome.Fail? then t else Run(t.state, b))
    decreases |a|
  {
    if a == [] {
      assert a + b == b;
    } else {
      assert (a + b)[0] == a[0];
      assert (a + b)[1..] == a[1..] + b;
      match Step(st, a[0])
      case Err(m) =>
      case Ok(next) => RunAppend(next, a[1..], b);
    }
  }

  /** `or()` or `and()` at the end of the chain is ignored. */
  lemma TrailingSwitchIgnored(st: State, calls: seq<Call>)
    ensures Run(st, calls + [SetOr]).state.spec == Run(st, calls).state.spec
    ensures Run(st, calls + [SetAnd]).state.spec == Run(st, calls).state.spec
    ensures Run(st, calls + [SetOr]).outcome == Run(st, calls).outcome
    ensures Run(st, calls + [SetAnd]).outcome == Run(st, calls).outcome
  {
    RunAppend(st, calls, [SetOr]);
    RunAppend(st, calls, [SetAnd]);
  }

  /**
   * The example of the `and(consumer)` documentation,
   * `eq("a", v).eq("b", v).and(i -> i.eq("c", v).eq("d", v))`: every new term
   * goes in front, so the tree reads right to left.
   */
  lemma NestedAndTree(v: Value)
    requires v != Null
    ensures var l := (f: string) => Leaf(EQUAL, [f], Scalar(v));
            Run(Fresh, [Eq(Some("a"), v), Eq(Some("b"), v), NestAnd([Eq(Some("c"), v), Eq(Some("d"), v)])]) ==
            Trace(State(And(And(l("d"), And(l("c"), Empty)), And(l("b"), And(l("a"), Empty))), AND), Pass)
  {
    var la, lb, lc, ld := Leaf(EQUAL, ["a"], Scalar(v)), Leaf(EQUAL, ["b"], Scalar(v)),
                          Leaf(EQUAL, ["c"], Scalar(v)), Leaf(EQUAL, ["d"], Scalar(v));
    var ca, cb, cc, cd := Eq(Some("a"), v), Eq(Some("b"), v), Eq(Some("c"), v), Eq(Some("d"), v);
    var c1 := State(And(lc, Empty), AND);
    var c2 := State(And(ld, c1.spec), AND);
    SpecificationFactory.ComparisonLeaves(EQUAL, "c", v);
    SpecificationFactory.ComparisonLeaves(EQUAL, "d", v);
    LeafMergesInFront(Fresh, cc, lc);
    LeafMergesInFront(c1, cd, ld);
    RunCons(c1, cd, []);
    assert [cd] + [] == [cd];
    RunCons(Fresh, cc, [cd]);
    assert [cc] + [cd] == [cc, cd];
    var s1 := State(And(la, Empty), AND);
    var s2 := State(And(lb, s1.spec), AND);
    var s3 := State(And(c2.spec, s2.spec), AND);
    LeafMergesInFront(Fresh, ca, la);
    LeafMergesInFront(s1, cb, lb);
    assert Step(s2, NestAnd([cc, cd])) == Ok(s3);
    RunCons(s2, NestAnd([cc, cd]), []);
    assert [NestAnd([cc, cd])] + [] == [NestAnd([cc, cd])];
    RunCons(s1, cb, [NestAnd([cc, cd])]);
    assert [cb] + [NestAnd([cc, cd])] == [cb, NestAnd([cc, cd])];
    RunCons(Fresh, ca, [cb, NestAnd([cc, cd])]);
    assert [ca] + [cb, NestAnd([cc, cd])] == [ca, cb, NestAnd([cc, cd])];
  }

  /** ... which selects the rows that pass all four tests, as documented. */
  lemma NestedAndMeaning(v: Value, truth: LeafTruth)
    ensures var l := (f: string) => Leaf(EQUAL, [f], Scalar(v));
            Eval(And(And(l("d"), And(l("c"), Empty)), And(l("b"), And(l("a"), Empty))), truth) ==
            Holds(truth(EQUAL, ["a"], Scalar(v)) && truth(EQUAL, ["b"], Scalar(v)) &&
                  truth(EQUAL, ["c"], Scalar(v)) && truth(EQUAL, ["d"], Scalar(v)))
  {
    var la, lb, lc, ld := Leaf(EQUAL, ["a"], Scalar(v)), Leaf(EQUAL, ["b"], Scalar(v)),
                          Leaf(EQUAL, ["c"], Scalar(v)), Leaf(EQUAL, ["d"], Scalar(v));
    assert Eval(And(lc, Empty), truth) == Holds(truth(EQUAL, ["c"], Scalar(v)));
    assert Eval(And(la, Empty), truth) == Holds(truth(EQUAL, ["a"], Scalar(v)));
    assert Eval(And(ld, And(lc, Empty)), truth) == Holds(truth(EQUAL, ["d"], Scalar(v)) && truth(EQUAL, ["c"], Scalar(v)));
    assert Eval(And(lb, And(la, Empty)), truth) == Holds(truth(EQUAL, ["b"], Scalar(v)) && truth(EQUAL, ["a"], Scalar(v)));
  }

  /**
   * The example of the `or(consumer)` documentation,
   * `eq("a", v).eq("b", v).or(i -> i.eq("c", v).eq("d", v)).or(i -> i.eq("f", v))`:
   * each group goes in front, OR-ed with everything before it.
   */
  lemma NestedOrTree(v: Value)
    requires v != Null
    ensures var l := (f: string) => Leaf(EQUAL, [f], Scalar(v));
            Run(Fresh, [Eq(Some("a"), v), Eq(Some("b"), v), NestOr([Eq(Some("c"), v), Eq(Some("d"), v)]), NestOr([Eq(Some("f"), v)])]) ==
            Trace(State(Or(And(l("f"), Empty), Or(And(l("d"), And(l("c"), Empty)), And(l("b"), And(l("a"), Empty)))), AND), Pass)
  {
    var la, lb, lc, ld, lf := Leaf(EQUAL, ["a"], Scalar(v)), Leaf(EQUAL, ["b"], Scalar(v)),
                              Leaf(EQUAL, ["c"], Scalar(v)), Leaf(EQUAL, ["d"], Scalar(v)), Leaf(EQUAL, ["f"], Scalar(v));
    var ca, cb, cc, cd, cf := Eq(Some("a"), v), Eq(Some("b"), v), Eq(Some("c"), v), Eq(Some("d"), v), Eq(Some("f"), v);
    var g1, g2 := [cc, cd], [cf];
    // the two groups, each on a fresh child
    var c1 := State(And(lc, Empty), AND);
    SpecificationFactory.ComparisonLeaves(EQUAL, "c", v);
    SpecificationFactory.ComparisonLeaves(EQUAL, "d", v);
    SpecificationFactory.ComparisonLeaves(EQUAL, "f", v);
    LeafMergesInFront(Fresh, cc, lc);
    LeafMergesInFront(c1, cd, ld);
    LeafMergesInFront(Fresh, cf, lf);
    RunCons(c1, cd, []);
    assert [cd] + [] == [cd];
    RunCons(Fresh, cc, [cd]);
    assert [cc] + [cd] == g1;
    RunCons(Fresh, cf, []);
    assert [cf] + [] == g2;
    // the parent
    var s1 := State(And(la, Empty), AND);
    var s2 := State(And(lb, s1.spec), AND);
    var s3 := State(Or(And(ld, c1.spec), s2.spec), AND);
    SpecificationFactory.ComparisonLeaves(EQUAL, "a", v);
    SpecificationFactory.ComparisonLeaves(EQUAL, "b", v);
    LeafMergesInFront(Fresh, ca, la);
    LeafMergesInFront(s1, cb, lb);
    NestedMergeIsFixed(s2, g1);
    NestedMergeIsFixed(s3, g2);
    RunCons(s3, NestOr(g2), []);
    assert [NestOr(g2)] + [] == [NestOr(g2)];
    RunCons(s2, NestOr(g1), [NestOr(g2)]);
    assert [NestOr(g1)] + [NestOr(g2)] == [NestOr(g1), NestOr(g2)];
    RunCons(s1, cb, [NestOr(g1), NestOr(g2)]);
    assert [cb] + [NestOr(g1), NestOr(g2)] == [cb, NestOr(g1), NestOr(g2)];
    RunCons(Fresh, ca, [cb, NestOr(g1), NestOr(g2)]);
    assert [ca] + [cb, NestOr(g1), NestOr(g2)] == [ca, cb, NestOr(g1), NestOr(g2)];
  }

  /**
   * ... which selects the rows passing `f`, or `c` and `d`, or `a` and `b`:
   * the last group is OR-ed on, so the "and f = 1" of that documentation is
   * not what the builder does.
   */
  lemma NestedOrMeaning(v: Value, truth: LeafTruth)
    ensures var l := (f: string) => Leaf(EQUAL, [f], Scalar(v));
            Eval(Or(And(l("f"), Empty), Or(And(l("d"), And(l("c"), Empty)), And(l("b"), And(l("a"), Empty)))), truth) ==
            Holds(truth(EQUAL, ["f"], Scalar(v)) ||
                  (truth(EQUAL, ["d"], Scalar(v)) && truth(EQUAL, ["c"], Scalar(v))) ||
                  (truth(EQUAL, ["b"], Scalar(v)) && truth(EQUAL, ["a"], Scalar(v))))
  {
    var l := (f: string) => Leaf(EQUAL, [f], Scalar(v));
    var t := (f: string) => truth(EQUAL, [f], Scalar(v));
    var ab := And(l("b"), And(l("a"), Empty));
    var cd := And(l("d"), And(l("c"), Empty));
    assert Eval(And(l("a"), Empty), truth) == Holds(t("a"));
    assert Eval(ab, truth) == Holds(t("b") && t("a"));
    assert Eval(And(l("c"), Empty), truth) == Holds(t("c"));
    assert Eval(cd, truth) == Holds(t("d") && t("c"));
    assert Eval(Or(cd, ab), truth) == Holds((t("d") && t("c")) || (t("b") && t("a")));
    assert Eval(And(l("f"), Empty), truth) == Holds(t("f"));
  }

  // ---------------------------------------------------------------------
  // The imperative builder

  class AbstractWrapper {
    var specification: Spec
    var operator: Mode

    function Current(): State
      reads this
    {
      State(specification, operator)
    }

    constructor ()
      ensures specification == Empty && operator == AND
      ensures Current() == Fresh
    {
      operator := AND;
      specification := Empty;
    }

    /** `get`: the accumulated specification; nothing changes. */
    method Get() returns (s: Spec)
      ensures s == specification
    {
      s := specification;
    }

    method MergeSpecification(s: Option<Spec>, m: Mode)
      modifies this
      ensures specification == Merge(old(specification), s, m)
      ensures s.Some? ==> specification == Combine(m, s.value, old(specification))
      ensures operator == old(operator)
    {
      if s.Some? {
        specification := if m == AND then Spec.And(s.value, specification) else Spec.Or(s.value, specification);
      }
    }

    /** `getSpecification`: the merge with the current operator, returned without storing it. */
    method GetSpecification(s: Option<Spec>) returns (r: Spec)
      ensures r == Merge(specification, s, operator)
      ensures s.None? ==> r == specification
    {
      if s.None? {
        r := specification;
      } else {
        r := if operator == AND then Spec.And(s.value, specification) else Spec.Or(s.value, specification);
      }
    }

    /** `this.specification = getSpecification(createSpec(h, field, val))`. */
    method Chain(h: Handler, field: Option<string>, v: Value) returns (o: Outcome)
      modifies this
      ensures Trace(Current(), o) == Finish(old(Current()), LeafStep(old(Current()), CreateSpec(h, field, v)))
    {
      var created := CreateSpec(h, field, v);
      if created.Err? {
        return Fail(created.msg);
      }
      specification := GetSpecification(created.value);
      o := Pass;
    }

    method Ge(field: Option<string>, v: Value) returns (o: Outcome)
      modifies this
      ensures Trace(Current(), o) == Run(old(Current()), [Calls.Ge(field, v)])
    {
      RunLeaf(Current(), Calls.Ge(field, v));
      o := Chain(GE, field, v);
    }

    method Eq(field: Option<string>, v: Value) returns (o: Outcome)
      modifies this
      ensures Trace(Current(), o) == Run(old(Current()), [Calls.Eq(field, v)])
    {
      RunLeaf(Current(), Calls.Eq(field, v));
      o := Chain(EQUAL, field, v);
    }

    method NotEq(field: Option<string>, v: Value) returns (o: Outcome)
      modifies this
      ensures Trace(Current(), o) == Run(old(Current()), [Calls.NotEq(field, v)])
    {
      RunLeaf(Current(), Calls.NotEq(field, v));
      o := Chain(NOT_EQUAL, field, v);
    }

    method Gt(field: Option<string>, v: Value) returns (o: Outcome)
      modifies this
      ensures Trace(Current(), o) == Run(old(Current()), [Calls.Gt(field, v)])
    {
      RunLeaf(Current(), Calls.Gt(field, v));
      o := Chain(GT, field, v);
    }

    method Lt(field: Option<string>, v: Value) returns (o: Outcome)
      modifies this
      ensures Trace(Current(), o) == Run(old(Current()), [Calls.Lt(field, v)])
    {
      RunLeaf(Current(), Calls.Lt(field, v));
      o := Chain(LT, field, v);
    }

    method Le(field: Option<string>, v: Value) returns (o: Outcome)
      modifies this
      ensures Trace(Current(), o) == Run(old(Current()), [Calls.Le(field, v)])
    {
      RunLeaf(Current(), Calls.Le(field, v));
      o := Chain(LE, field, v);
    }

    method AllLike(field: Option<string>, s: Option<string>) returns (o: Outcome)
      modifies this
      ensures Trace(Current(), o) == Run(old(Current()), [Calls.AllLike(field, s)])
    {
      RunLeaf(Current(), Calls.AllLike(field, s));
      o := Chain(ALL_LIKE, field, StrValue(s));
    }

    method RightLike(field: Option<string>, s: Option<string>) returns (o: Outcome)
      modifies this
      ensures Trace(Current(), o) == Run(old(Current()), [Calls.RightLike(field, s)])
    {
      RunLeaf(Current(), Calls.RightLike(field, s));
      o := Chain(RIGHT_LIKE, field, StrValue(s));
    }

    method LeftLike(field: Option<string>, s: Option<string>) returns (o: Outcome)
      modifies this
      ensures Trace(Current(), o) == Run(old(Current()), [Calls.LeftLike(field, s)])
    {
      RunLeaf(Current(), Calls.LeftLike(field, s));
      o := Chain(LEFT_LIKE, field, StrValue(s));
    }

    method IsNull(field: Option<string>) returns (o: Outcome)
      modifies this
      ensures Trace(Current(), o) == Run(old(Current()), [Calls.IsNull(field)])
    {
      RunLeaf(Current(), Calls.IsNull(field));
      o := Chain(IS_NULL, field, Null);
    }

    method IsNotNull(field: Option<string>) returns (o: Outcome)
      modifies this
      ensures Trace(Current(), o) == Run(old(Current()), [Calls.IsNotNull(field)])
    {
      RunLeaf(Current(), Calls.IsNotNull(field));
      o := Chain(IS_NOT_NULL, field, Null);
    }

    method In(field: Option<string>, c: Option<seq<Value>>) returns (o: Outcome)
      modifies this
      ensures Trace(Current(), o) == Run(old(Current()), [Calls.In(field, c)])
    {
      RunLeaf(Current(), Calls.In(field, c));
      o := Chain(IN, field, CollValue(c));
    }

    method NotIn(field: Option<string>, c: Option<seq<Value>>) returns (o: Outcome)
      modifies this
      ensures Trace(Current(), o) == Run(old(Current()), [Calls.NotIn(field, c)])
    {
      RunLeaf(Current(), Calls.NotIn(field, c));
      o := Chain(NOT_IN, field, CollValue(c));
    }

    method InArray(field: Option<string>, items: seq<Value>) returns (o: Outcome)
      modifies this
      ensures Trace(Current(), o) == Run(old(Current()), [Calls.InArray(field, items)])
    {
      RunLeaf(Current(), Calls.InArray(field, items));
      if |items| == 0 {
        return Fail(EMPTY_ARRAY);
      }
      o := Chain(IN, field, Arr(items));
    }

    method NotInArray(field: Option<string>, items: seq<Value>) returns (o: Outcome)
      modifies this
      ensures Trace(Current(), o) == Run(old(Current()), [Calls.NotInArray(field, items)])
    {
      RunLeaf(Current(), Calls.NotInArray(field, items));
      if |items| == 0 {
        return Fail(EMPTY_ARRAY);
      }
      o := Chain(NOT_IN, field, Arr(items));
    }

    method Between(field: Option<string>, low: Value, up: Value) returns (o: Outcome)
      modifies this
      ensures Trace(Current(), o) == Run(old(Current()), [Calls.Between(field, low, up)])
    {
      RunLeaf(Current(), Calls.Between(field, low, up));
      o := Pass;
      if low != Null || up != Null {
        o := Chain(BETWEEN, field, Arr([low, up]));
      }
    }

    method NotBetween(field: Option<string>, low: Value, up: Value) returns (o: Outcome)
      modifies this
      ensures Trace(Current(), o) == Run(old(Current()), [Calls.NotBetween(field, low, up)])
    {
      RunLeaf(Current(), Calls.NotBetween(field, low, up));
      o := Pass;
      if low != Null || up != Null {
        o := Chain(NOT_BETWEEN, field, Arr([low, up]));
      }
    }

    /** `and()`: switch the operator to AND. */
    method And()
      modifies this
      ensures Trace(Current(), Pass) == Run(old(Current()), [SetAnd])
    {
      MergeSpecification(None, AND);
      operator := AND;
    }

    /** `or()`: switch the operator to OR. */
    method Or()
      modifies this
      ensures Trace(Current(), Pass) == Run(old(Current()), [SetOr])
    {
      MergeSpecification(None, OR);
      operator := OR;
    }

    /** `and(consumer)`: a fresh child runs the group; it is AND-ed in front. */
    method AndGroup(group: seq<Call>) returns (o: Outcome)
      modifies this
      ensures Trace(Current(), o) == Run(old(Current()), [NestAnd(group)])
      decreases CallsSize(group) + 1, 0
    {
      var child := new AbstractWrapper();
      o := child.Apply(group);
      if o.Fail? {
        return;
      }
      var s := child.Get();
      MergeSpecification(Some(s), AND);
    }

    /** `or(consumer)`: a fresh child runs the group; it is OR-ed in front. */
    method OrGroup(group: seq<Call>) returns (o: Outcome)
      modifies this
      ensures Trace(Current(), o) == Run(old(Current()), [NestOr(group)])
      decreases CallsSize(group) + 1, 0
    {
      var child := new AbstractWrapper();
      o := child.Apply(group);
      if o.Fail? {
        return;
      }
      var s := child.Get();
      MergeSpecification(Some(s), OR);
    }

    /** One chain call of a consumer, dispatched to the method it names. */
    method Perform(c: Call) returns (o: Outcome)
      modifies this
      ensures Trace(Current(), o) == Run(old(Current()), [c])
      decreases CallSize(c), 1
    {
      match c
      case Ge(f, v) => o := Ge(f, v);
      case Eq(f, v) => o := Eq(f, v);
      case NotEq(f, v) => o := NotEq(f, v);
      case Gt(f, v) => o := Gt(f, v);
      case Lt(f, v) => o := Lt(f, v);
      case Le(f, v) => o := Le(f, v);
      case AllLike(f, s) => o := AllLike(f, s);
      case RightLike(f, s) => o := RightLike(f, s);
      case LeftLike(f, s) => o := LeftLike(f, s);
      case IsNull(f) => o := IsNull(f);
      case IsNotNull(f) => o := IsNotNull(f);
      case In(f, col) => o := In(f, col);
      case NotIn(f, col) => o := NotIn(f, col);
      case InArray(f, items) => o := InArray(f, items);
      case NotInArray(f, items) => o := NotInArray(f, items);
      case Between(f, lo, up) => o := Between(f, lo, up);
      case NotBetween(f, lo, up) => o := NotBetween(f, lo, up);
      case SetAnd => And(); o := Pass;
      case SetOr => Or(); o := Pass;
      case NestAnd(g) => o := AndGroup(g);
      case NestOr(g) => o := OrGroup(g);
    }

    /** The body of a consumer: its chain calls in order, until one throws. */
    method Apply(calls: seq<Call>) returns (o: Outcome)
      modifies this
      ensures Trace(Current(), o) == Run(old(Current()), calls)
      decreases CallsSize(calls), 2
    {
      var i := 0;
      o := Pass;
      while i < |calls|
        invariant 0 <= i <= |calls|
        invariant o == Pass
        invariant Run(old(Current()), calls) == Run(Current(), calls[i..])
        decreases |calls| - i
      {
        CallSizeBound(calls, i);
        var before := Current();
        assert calls[i..] == [calls[i]] + calls[i + 1..];
        assert [calls[i]] + [] == [calls[i]];
        RunCons(before, calls[i], calls[i + 1..]);
        RunCons(before, calls[i], []);
        o := Perform(calls[i]);
        if o.Fail? {
          return;
        }
        i := i + 1;
      }
    }
  }
}
