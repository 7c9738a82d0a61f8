/**
 * com.ct.condition.core.AbstractCondition: the fluent condition builder.
 *
 * The builder holds the accumulated specification and the sticky AND/OR
 * operator. Every leaf call asks SpecificationFactory for a leaf and merges
 * it as `accumulated OP leaf` with the current operator; `and()`/`or()` only
 * switch the operator; `and(consumer)`/`or(consumer)` build a fresh child and
 * merge its specification with a fixed AND/OR.
 *
 * `Step`/`Run` are the functional meaning of one call and of a call
 * sequence; the class `AbstractCondition` below is the imperative builder,
 * and each of its methods is proved to do what `Run` says of that call.
 */
module Condition {
  import opened Common
  import opened Specs
  import opened Calls
  import SpecificationFactory

  /** `mergeSpecification(s, operator)`: a null `s` changes nothing; otherwise `spec OP s`. */
  function Merge(spec: Spec, s: Option<Spec>, m: Mode): (r: Spec)
    ensures s.None? ==> r == spec
    ensures s.Some? ==> forall truth :: Eval(r, truth) == Compose(m, Eval(spec, truth), Eval(s.value, truth))
  {
    match s
    case None => spec
    case Some(x) => Combine(m, spec, x)
  }

  /** The leaf a leaf call contributes: the pre-checks of the chain method, then createSpec. */
  function LeafOf(c: Call): Result<Option<Spec>>
    requires IsLeafCall(c)
  {
    match RequestOf(c)
    case Skip => Ok(None)
    case Reject(m) => Err(m)
    case Create(h, f, v) => SpecificationFactory.CreateSpec(h, f, v)
  }

  /** A leaf call: the factory's exception, or the merge of what it built. */
  function LeafStep(st: State, r: Result<Option<Spec>>): Result<State>
  {
    match r
    case Err(m) => Err(m)
    case Ok(s) => Ok(State(Merge(st.spec, s, st.mode), st.mode))
  }

  /** One chain call; an exception leaves the builder as it was. */
  function Step(st: State, c: Call): (r: Result<State>)
    ensures (c == SetAnd || c == SetOr) ==> r.Ok? && r.value.spec == st.spec
    ensures c != SetAnd && c != SetOr && r.Ok? ==> r.value.mode == st.mode
    decreases CallSize(c), 0
  {
    match c
    case SetAnd => Ok(State(st.spec, AND))
    case SetOr => Ok(State(st.spec, OR))
    case NestAnd(g) =>
      var child := Run(Fresh, g);
      if child.outcome.Fail? then Err(child.outcome.msg)
      else Ok(State(Merge(st.spec, Some(child.state.spec), AND), st.mode))
    case NestOr(g) =>
      var child := Run(Fresh, g);
      if child.outcome.Fail? then Err(child.outcome.msg)
      else Ok(State(Merge(st.spec, Some(child.state.spec), OR), st.mode))
    case _ => LeafStep(st, LeafOf(c))
  }

  /** A call sequence, left to right, stopping at the first exception. */
  function Run(st: State, calls: seq<Call>): Trace
    decreases CallsSize(calls), 1
  {
    if calls == [] then Trace(st, Pass)
    else match Step(st, calls[0])
      case Err(m) => Trace(st, Fail(m))
      case Ok(next) => Run(next, calls[1..])
  }

  // ---------------------------------------------------------------------
  // Properties of one call

  /** A leaf call whose factory result is none leaves both fields unchanged. */
  lemma NoLeafNoChange(st: State, c: Call)
    requires IsLeafCall(c) && LeafOf(c) == Ok(None)
    ensures Step(st, c) == Ok(st)
  {
  }

  /** A null value (or a null collection) is a no-op for every handler but the null tests. */
  lemma NullValueNoChange(st: State, c: Call)
    requires IsLeafCall(c) && c.field.Some?
    requires RequestOf(c).Create? && RequestOf(c).v == Null && !SpecificationFactory.IsNullTest(RequestOf(c).h)
    ensures Step(st, c) == Ok(st)
  {
  }

  /** A real leaf is merged as `spec OP leaf` with the current operator, which stays. */
  lemma LeafMergesWithMode(st: State, c: Call, leaf: Spec)
    requires IsLeafCall(c) && LeafOf(c) == Ok(Some(leaf))
    ensures Step(st, c) == Ok(State(Combine(st.mode, st.spec, leaf), st.mode))
  {
  }

  /** `eq(f, v)` with a non-null value merges `f = v` with the current operator. */
  lemma EqMerges(st: State, f: string, v: Value)
    requires v != Null
    ensures Step(st, Eq(Some(f), v)) == Ok(State(Combine(st.mode, st.spec, Leaf(EQUAL, [f], Scalar(v))), st.mode))
  {
    SpecificationFactory.ComparisonLeaves(EQUAL, f, v);
  }

  /** A factory error is thrown and the builder is left as it was. */
  lemma LeafErrorThrows(st: State, c: Call)
    requires IsLeafCall(c) && LeafOf(c).Err?
    ensures Step(st, c) == Err(LeafOf(c).msg)
  {
  }

  /** A null field name is rejected by the factory before anything changes. */
  lemma NullFieldThrows(st: State, v: Value)
    requires v != Null
    ensures Step(st, Eq(None, v)) == Err(SpecificationFactory.FIELD_NAME_NULL)
    ensures Step(st, IsNull(None)) == Err(SpecificationFactory.FIELD_NAME_NULL)
  {
  }

  /** `and()` / `or()` set only the operator. */
  lemma SwitchSetsOnlyMode(st: State)
    ensures Step(st, SetAnd) == Ok(State(st.spec, AND))
    ensures Step(st, SetOr) == Ok(State(st.spec, OR))
  {
  }

  /**
   * `and(c)` / `or(c)` merge the child's specification (a child that starts
   * fresh, whatever the parent's operator) with a fixed AND / OR, and leave
   * the parent's operator as it was. An exception inside the group leaves
   * the parent unchanged.
   */
  lemma NestedMergeIsFixed(st: State, g: seq<Call>)
    ensures var child := Run(Fresh, g);
            child.outcome.Pass? ==>
              Step(st, NestAnd(g)) == Ok(State(And(st.spec, child.state.spec), st.mode)) &&
              Step(st, NestOr(g)) == Ok(State(Or(st.spec, child.state.spec), st.mode))
    ensures var child := Run(Fresh, g);
            child.outcome.Fail? ==>
              Step(st, NestAnd(g)) == Err(child.outcome.msg) &&
              Step(st, NestOr(g)) == Err(child.outcome.msg)
  {
  }

  /** Varargs `in`/`notIn` with no element throw before any state change. */
  lemma EmptyArrayThrows(st: State, f: Option<string>)
    ensures Step(st, InArray(f, [])) == Err(EMPTY_ARRAY)
    ensures Step(st, NotInArray(f, [])) == Err(EMPTY_ARRAY)
  {
  }

  /**
   * `between`/`notBetween` never change the builder here: with both bounds
   * null the method does nothing, and otherwise this factory has no case
   * for BETWEEN / NOT_BETWEEN and yields no specification.
   */
  lemma BetweenNoChange(st: State, f: Option<string>, lo: Value, up: Value)
    requires f.Some? || (lo == Null && up == Null)
    ensures Step(st, Between(f, lo, up)) == Ok(st)
    ensures Step(st, NotBetween(f, lo, up)) == Ok(st)
  {
  }

  // ---------------------------------------------------------------------
  // Properties of call sequences

  /** Running two sequences one after the other is running their concatenation. */
  lemma {:induction false} RunAppend(st: State, a: seq<Call>, b: seq<Call>)
    ensures Run(st, a + b) ==
            (var t := Run(st, a); if t.outcome.Fail? then t else Run(t.state, b))
    decreases |a|
  {
    if a == [] {
      assert a + b == b;
    } else {
      assert (a + b)[0] == a[0];
      assert (a + b)[1..] == a[1..] + b;
      match Step(st, a[0])
      case Err(m) =>
      case Ok(next) => RunAppend(next, a[1..], b);
    }
  }

  /** A trailing `or()` / `and()` changes neither the specification nor the outcome. */
  lemma TrailingSwitchIgnored(st: State, calls: seq<Call>)
    ensures Run(st, calls + [SetOr]).state.spec == Run(st, calls).state.spec
    ensures Run(st, calls + [SetAnd]).state.spec == Run(st, calls).state.spec
    ensures Run(st, calls + [SetOr]).outcome == Run(st, calls).outcome
    ensures Run(st, calls + [SetAnd]).outcome == Run(st, calls).outcome
  {
    RunAppend(st, calls, [SetOr]);
    RunAppend(st, calls, [SetAnd]);
  }

  predicate NoSwitch(calls: seq<Call>)
  {
    forall i :: 0 <= i < |calls| ==> calls[i] != SetAnd && calls[i] != SetOr
  }

  /** Without `and()` / `or()` the operator never changes, nested groups included. */
  lemma {:induction false} ModeSticky(st: State, calls: seq<Call>)
    requires NoSwitch(calls)
    ensures Run(st, calls).state.mode == st.mode
    decreases |calls|
  {
    if calls != [] {
      match Step(st, calls[0])
      case Err(m) =>
      case Ok(next) =>
        assert next.mode == st.mode;
        assert NoSwitch(calls[1..]) by {
          forall i | 0 <= i < |calls[1..]| ensures calls[1..][i] != SetAnd && calls[1..][i] != SetOr {
            assert calls[1..][i] == calls[i + 1];
          }
        }
        ModeSticky(next, calls[1..]);
    }
  }

  /**
   * Reference meaning of a run of leaf calls under a fixed operator: every
   * leaf that exists is combined on the right with that operator.
   */
  function FoldLeaves(m: Mode, acc: Spec, calls: seq<Call>): Spec
    requires forall i :: 0 <= i < |calls| ==> IsLeafCall(calls[i]) && LeafOf(calls[i]).Ok?
    decreases |calls|
  {
    if calls == [] then acc
    else
      var leaf := LeafOf(calls[0]).value;
      FoldLeaves(m, if leaf.Some? then Combine(m, acc, leaf.value) else acc, calls[1..])
  }

  /** After `or()`, every later leaf merges with OR (and likewise for `and()`). */
  lemma {:induction false} StickyModeFold(st: State, calls: seq<Call>)
    requires forall i :: 0 <= i < |calls| ==> IsLeafCall(calls[i]) && LeafOf(calls[i]).Ok?
    ensures Run(st, calls) == Trace(State(FoldLeaves(st.mode, st.spec, calls), st.mode), Pass)
    decreases |calls|
  {
    if calls != [] {
      assert IsLeafCall(calls[0]) && LeafOf(calls[0]).Ok?;
      var next := Step(st, calls[0]).value;
      assert next.mode == st.mode;
      StickyModeFold(next, calls[1..]);
    }
  }

  /** A run of one leaf call is the leaf step of what the factory returns. */
  lemma RunLeaf(st: State, c: Call)
    requires IsLeafCall(c)
    ensures Run(st, [c]) == Finish(st, LeafStep(st, LeafOf(c)))
  {
    assert [c][1..] == [];
  }

  /** Unfolding a run whose first call is `c`. */
  lemma RunCons(st: State, c: Call, rest: seq<Call>)
    ensures Step(st, c).Err? ==> Run(st, [c] + rest) == Trace(st, Fail(Step(st, c).msg))
    ensures Step(st, c).Ok? ==> Run(st, [c] + rest) == Run(Step(st, c).value, rest)
  {
    assert ([c] + rest)[0] == c;
    assert ([c] + rest)[1..] == rest;
  }

  /**
   * The chain of the jpa-plus-core module's testOr, run on this builder:
   * `or().eq("id", x).or(c -> c.eq("username", y))
   * .or().eq("realname", z).or()`: it starts with `or()`, so the first leaf is
   * OR-ed onto the initial specification, which yields no predicate; the
   * child group starts with AND of its own; the trailing `or()` is ignored.
   */
  lemma LeadingOrTree(x: Value, y: Value, z: Value)
    requires x != Null && y != Null && z != Null
    ensures Run(Fresh, [SetOr, Eq(Some("id"), x), NestOr([Eq(Some("username"), y)]), SetOr, Eq(Some("realname"), z), SetOr]) ==
            Trace(State(Or(Or(Or(Empty, Leaf(EQUAL, ["id"], Scalar(x))), And(Empty, Leaf(EQUAL, ["username"], Scalar(y)))),
                           Leaf(EQUAL, ["realname"], Scalar(z))), OR), Pass)
  {
    var cid, cuser, creal := Eq(Some("id"), x), Eq(Some("username"), y), Eq(Some("realname"), z);
    var s1 := State(Empty, OR);
    var s2 := State(Or(Empty, Leaf(EQUAL, ["id"], Scalar(x))), OR);
    var s3 := State(Or(s2.spec, And(Empty, Leaf(EQUAL, ["username"], Scalar(y)))), OR);
    var s4 := State(Or(s3.spec, Leaf(EQUAL, ["realname"], Scalar(z))), OR);
    SingleEq(Fresh, "username", y);
    NestedMergeIsFixed(s2, [cuser]);
    EqMerges(s1, "id", x);
    EqMerges(s3, "realname", z);
    var t5 := [SetOr];
    var t4 := [creal] + t5;
    var t3 := [SetOr] + t4;
    var t2 := [NestOr([cuser])] + t3;
    var t1 := [cid] + t2;
    assert [SetOr, cid, NestOr([cuser]), SetOr, creal, SetOr] == [SetOr] + t1;
    RunCons(s4, SetOr, []);
    assert t5 == [SetOr] + [];
    RunCons(s3, creal, t5);
    RunCons(s3, SetOr, t4);
    RunCons(s2, NestOr([cuser]), t3);
    RunCons(s1, cid, t2);
    RunCons(Fresh, SetOr, t1);
  }

  /** A run of one `eq` with a non-null value. */
  lemma SingleEq(st: State, f: string, v: Value)
    requires v != Null
    ensures Run(st, [Eq(Some(f), v)]) == Trace(State(Combine(st.mode, st.spec, Leaf(EQUAL, [f], Scalar(v))), st.mode), Pass)
  {
    RunLeaf(st, Eq(Some(f), v));
    SpecificationFactory.ComparisonLeaves(EQUAL, f, v);
  }

  /** The tree testOr builds selects exactly the rows that pass one of its three tests. */
  lemma LeadingOrMeaning(x: Value, y: Value, z: Value, truth: LeafTruth)
    ensures var lx, ly, lz := Leaf(EQUAL, ["id"], Scalar(x)), Leaf(EQUAL, ["username"], Scalar(y)), Leaf(EQUAL, ["realname"], Scalar(z));
            Eval(Or(Or(Or(Empty, lx), And(Empty, ly)), lz), truth) ==
            Holds(truth(EQUAL, ["id"], Scalar(x)) || truth(EQUAL, ["username"], Scalar(y)) || truth(EQUAL, ["realname"], Scalar(z)))
  {
    var lx, ly, lz := Leaf(EQUAL, ["id"], Scalar(x)), Leaf(EQUAL, ["username"], Scalar(y)), Leaf(EQUAL, ["realname"], Scalar(z));
    assert Eval(Or(Empty, lx), truth) == Holds(truth(EQUAL, ["id"], Scalar(x)));
    assert Eval(And(Empty, ly), truth) == Holds(truth(EQUAL, ["username"], Scalar(y)));
    assert Eval(Or(Or(Empty, lx), And(Empty, ly)), truth) == Holds(truth(EQUAL, ["id"], Scalar(x)) || truth(EQUAL, ["username"], Scalar(y)));
  }

  /**
   * The chains of the core module's testAnd and testOr,
   * `eq("id", x).and(c -> c.eq("username", y)).and().eq("realname", z)` and
   * its `or` counterpart: the group is merged with the fixed operator, and
   * the operator set by `and()` / `or()` applies to the last leaf.
   */
  lemma GroupThenSwitchTree(x: Value, y: Value, z: Value)
    requires x != Null && y != Null && z != Null
    ensures var lx, ly, lz := Leaf(EQUAL, ["id"], Scalar(x)), Leaf(EQUAL, ["username"], Scalar(y)), Leaf(EQUAL, ["realname"], Scalar(z));
            Run(Fresh, [Eq(Some("id"), x), NestAnd([Eq(Some("username"), y)]), SetAnd, Eq(Some("realname"), z)]) ==
              Trace(State(And(And(And(Empty, lx), And(Empty, ly)), lz), AND), Pass) &&
            Run(Fresh, [Eq(Some("id"), x), NestOr([Eq(Some("username"), y)]), SetOr, Eq(Some("realname"), z)]) ==
              Trace(State(Or(Or(And(Empty, lx), And(Empty, ly)), lz), OR), Pass)
  {
    var ly := Leaf(EQUAL, ["username"], Scalar(y));
    var s1 := State(And(Empty, Leaf(EQUAL, ["id"], Scalar(x))), AND);
    EqMerges(Fresh, "id", x);
    RunCons(Fresh, Eq(Some("id"), x), [NestAnd([Eq(Some("username"), y)]), SetAnd, Eq(Some("realname"), z)]);
    RunCons(Fresh, Eq(Some("id"), x), [NestOr([Eq(Some("username"), y)]), SetOr, Eq(Some("realname"), z)]);
    SingleEq(Fresh, "username", y);
    NestedMergeIsFixed(s1, [Eq(Some("username"), y)]);
    GroupTail(State(And(s1.spec, And(Empty, ly)), AND), NestAnd([Eq(Some("username"), y)]), SetAnd, AND, s1, z);
    GroupTail(State(Or(s1.spec, And(Empty, ly)), AND), NestOr([Eq(Some("username"), y)]), SetOr, OR, s1, z);
  }

  /** The last three calls of those chains: the group, the switch to `m`, and `eq("realname", z)`. */
  lemma GroupTail(g: State, group: Call, switch: Call, m: Mode, st: State, z: Value)
    requires z != Null && Step(st, group) == Ok(g)
    requires switch == (if m == AND then SetAnd else SetOr)
    ensures Run(st, [group, switch, Eq(Some("realname"), z)]) ==
            Trace(State(Combine(m, g.spec, Leaf(EQUAL, ["realname"], Scalar(z))), m), Pass)
  {
    var creal := Eq(Some("realname"), z);
    EqMerges(State(g.spec, m), "realname", z);
    RunCons(State(g.spec, m), creal, []);
    assert [creal] + [] == [creal];
    RunCons(g, switch, [creal]);
    assert [switch] + [creal] == [switch, creal];
    RunCons(st, group, [switch, creal]);
    assert [group] + [switch, creal] == [group, switch, creal];
  }

  /** ... so testAnd selects the rows passing all three tests, and testOr those passing one. */
  lemma GroupThenSwitchMeaning(x: Value, y: Value, z: Value, truth: LeafTruth)
    ensures var lx, ly, lz := Leaf(EQUAL, ["id"], Scalar(x)), Leaf(EQUAL, ["username"], Scalar(y)), Leaf(EQUAL, ["realname"], Scalar(z));
            Eval(And(And(And(Empty, lx), And(Empty, ly)), lz), truth) ==
              Holds(truth(EQUAL, ["id"], Scalar(x)) && truth(EQUAL, ["username"], Scalar(y)) && truth(EQUAL, ["realname"], Scalar(z))) &&
            Eval(Or(Or(And(Empty, lx), And(Empty, ly)), lz), truth) ==
              Holds(truth(EQUAL, ["id"], Scalar(x)) || truth(EQUAL, ["username"], Scalar(y)) || truth(EQUAL, ["realname"], Scalar(z)))
  {
    var lx, ly := Leaf(EQUAL, ["id"], Scalar(x)), Leaf(EQUAL, ["username"], Scalar(y));
    assert Eval(And(Empty, lx), truth) == Holds(truth(EQUAL, ["id"], Scalar(x)));
    assert Eval(And(Empty, ly), truth) == Holds(truth(EQUAL, ["username"], Scalar(y)));
  }

  /**
   * A non-empty varargs `in(field, x...)` / `notIn(field, x...)` completes,
   * but hands the factory an `Object[]`, which is not a Collection: the term
   * it merges throws "Value Must be Collection Instance!" when the query is
   * built.
   */
  lemma InArrayMerges(st: State, f: string, items: seq<Value>)
    requires |items| > 0
    ensures Step(st, InArray(Some(f), items)) == Ok(State(Combine(st.mode, st.spec, Throws(SpecificationFactory.NOT_COLLECTION)), st.mode))
  {
    SpecificationFactory.InNeedsCollection(f, Arr(items));
    LeafMergesWithMode(st, InArray(Some(f), items), Throws(SpecificationFactory.NOT_COLLECTION));
  }

  lemma NotInArrayMerges(st: State, f: string, items: seq<Value>)
    requires |items| > 0
    ensures Step(st, NotInArray(Some(f), items)) == Ok(State(Combine(st.mode, st.spec, Throws(SpecificationFactory.NOT_COLLECTION)), st.mode))
  {
    SpecificationFactory.InNeedsCollection(f, Arr(items));
    LeafMergesWithMode(st, NotInArray(Some(f), items), Throws(SpecificationFactory.NOT_COLLECTION));
  }

  /** ... so the whole accumulated specification throws, whatever it held before. */
  lemma ArrayInRaises(st: State, f: string, items: seq<Value>, truth: LeafTruth)
    requires |items| > 0
    ensures Step(st, InArray(Some(f), items)).Ok? && Eval(Step(st, InArray(Some(f), items)).value.spec, truth) == Raises
    ensures Step(st, NotInArray(Some(f), items)).Ok? && Eval(Step(st, NotInArray(Some(f), items)).value.spec, truth) == Raises
  {
    InArrayMerges(st, f, items);
    NotInArrayMerges(st, f, items);
    ThrowsPropagates(st.mode, SpecificationFactory.NOT_COLLECTION, st.spec, truth);
  }

  /** Once the accumulated specification raises, every later call keeps it raising. */
  lemma RaisesSticks(st: State, c: Call, truth: LeafTruth)
    requires Eval(st.spec, truth) == Raises && Step(st, c).Ok?
    ensures Eval(Step(st, c).value.spec, truth) == Raises
  {
  }

  lemma {:induction false} RaisesToTheEnd(st: State, calls: seq<Call>, truth: LeafTruth)
    requires Eval(st.spec, truth) == Raises
    ensures Eval(Run(st, calls).state.spec, truth) == Raises
    decreases |calls|
  {
    if calls != [] {
      match Step(st, calls[0])
      case Err(_) =>
      case Ok(next) =>
        RaisesSticks(st, calls[0], truth);
        RaisesToTheEnd(next, calls[1..], truth);
    }
  }

  /** A run whose first call leaves a raising specification ends with one. */
  lemma RaisingStepSpoils(st: State, c: Call, rest: seq<Call>, truth: LeafTruth)
    requires Step(st, c).Ok? && Eval(Step(st, c).value.spec, truth) == Raises
    ensures Eval(Run(st, [c] + rest).state.spec, truth) == Raises
  {
    RunCons(st, c, rest);
    RaisesToTheEnd(Step(st, c).value, rest, truth);
  }

  /** So after a non-empty varargs `in`/`notIn`, whatever follows, the chain's specification raises. */
  lemma ArrayInSpoilsChain(st: State, f: string, items: seq<Value>, rest: seq<Call>, truth: LeafTruth)
    requires |items| > 0
    ensures Eval(Run(st, [InArray(Some(f), items)] + rest).state.spec, truth) == Raises
    ensures Eval(Run(st, [NotInArray(Some(f), items)] + rest).state.spec, truth) == Raises
  {
    ArrayInRaises(st, f, items, truth);
    RaisingStepSpoils(st, InArray(Some(f), items), rest, truth);
    RaisingStepSpoils(st, NotInArray(Some(f), items), rest, truth);
  }

  /**
   * The example of the `or(consumer)` documentation,
   * `eq("a", v).eq("b", v).or(i -> i.eq("c", v).eq("d", v)).or(i -> i.eq("f", v))`:
   * each group is OR-ed on after what came before.
   */
  lemma NestedOrTree(v: Value)
    requires v != Null
    ensures var l := (f: string) => Leaf(EQUAL, [f], Scalar(v));
            Run(Fresh, [Eq(Some("a"), v), Eq(Some("b"), v), NestOr([Eq(Some("c"), v), Eq(Some("d"), v)]), NestOr([Eq(Some("f"), v)])]) ==
            Trace(State(Or(Or(And(And(Empty, l("a")), l("b")), And(And(Empty, l("c")), l("d"))), And(Empty, l("f"))), AND), Pass)
  {
    var la, lb, lc, ld, lf := Leaf(EQUAL, ["a"], Scalar(v)), Leaf(EQUAL, ["b"], Scalar(v)),
                              Leaf(EQUAL, ["c"], Scalar(v)), Leaf(EQUAL, ["d"], Scalar(v)), Leaf(EQUAL, ["f"], Scalar(v));
    var ca, cb, cc, cd, cf := Eq(Some("a"), v), Eq(Some("b"), v), Eq(Some("c"), v), Eq(Some("d"), v), Eq(Some("f"), v);
    var g1, g2 := [cc, cd], [cf];
    // the two groups, each on a fresh child
    EqMerges(Fresh, "c", v);
    RunCons(Fresh, cc, [cd]);
    assert [cc] + [cd] == g1;
    SingleEq(State(And(Empty, lc), AND), "d", v);
    SingleEq(Fresh, "f", v);
    // the parent
    var s1 := State(And(Empty, la), AND);
    var s2 := State(And(s1.spec, lb), AND);
    var s3 := State(Or(s2.spec, And(And(Empty, lc), ld)), AND);
    var s4 := State(Or(s3.spec, And(Empty, lf)), AND);
    EqMerges(Fresh, "a", v);
    EqMerges(s1, "b", v);
    NestedMergeIsFixed(s2, g1);
    NestedMergeIsFixed(s3, g2);
    RunCons(s3, NestOr(g2), []);
    assert [NestOr(g2)] + [] == [NestOr(g2)];
    RunCons(s2, NestOr(g1), [NestOr(g2)]);
    assert [NestOr(g1)] + [NestOr(g2)] == [NestOr(g1), NestOr(g2)];
    RunCons(s1, cb, [NestOr(g1), NestOr(g2)]);
    assert [cb] + [NestOr(g1), NestOr(g2)] == [cb, NestOr(g1), NestOr(g2)];
    RunCons(Fresh, ca, [cb, NestOr(g1), NestOr(g2)]);
    assert [ca] + [cb, NestOr(g1), NestOr(g2)] == [ca, cb, NestOr(g1), NestOr(g2)];
  }

  /**
   * ... which selects the rows passing `a` and `b`, or `c` and `d`, or `f`:
   * the last group is OR-ed on, so the "and f = 1" of that documentation is
   * not what the builder does.
   */
  lemma NestedOrMeaning(v: Value, truth: LeafTruth)
    ensures var l := (f: string) => Leaf(EQUAL, [f], Scalar(v));
            Eval(Or(Or(And(And(Empty, l("a")), l("b")), And(And(Empty, l("c")), l("d"))), And(Empty, l("f"))), truth) ==
            Holds((truth(EQUAL, ["a"], Scalar(v)) && truth(EQUAL, ["b"], Scalar(v))) ||
                  (truth(EQUAL, ["c"], Scalar(v)) && truth(EQUAL, ["d"], Scalar(v))) ||
                  truth(EQUAL, ["f"], Scalar(v)))
  {
    var l := (f: string) => Leaf(EQUAL, [f], Scalar(v));
    var t := (f: string) => truth(EQUAL, [f], Scalar(v));
    var ab := And(And(Empty, l("a")), l("b"));
    var cd := And(And(Empty, l("c")), l("d"));
    assert Eval(And(Empty, l("a")), truth) == Holds(t("a"));
    assert Eval(ab, truth) == Holds(t("a") && t("b"));
    assert Eval(And(Empty, l("c")), truth) == Holds(t("c"));
    assert Eval(cd, truth) == Holds(t("c") && t("d"));
    assert Eval(Or(ab, cd), truth) == Holds((t("a") && t("b")) || (t("c") && t("d")));
    assert Eval(And(Empty, l("f")), truth) == Holds(t("f"));
  }

  // ---------------------------------------------------------------------
  // The imperative builder

  class AbstractCondition {
    var specification: Spec
    var operator: Mode

    function Current(): State
      reads this
    {
      State(specification, operator)
    }

    constructor ()
      ensures specification == Empty && operator == AND
      ensures Current() == Fresh
    {
      operator := AND;
      specification := Empty;
    }

    /** `toSpec`: the accumulated specification; nothing changes. */
    method ToSpec() returns (s: Spec)
      ensures s == specification
    {
      s := specification;
    }

    method MergeSpecification(s: Option<Spec>, m: Mode)
      modifies this
      ensures specification == Merge(old(specification), s, m)
      ensures s.Some? ==> specification == Combine(m, old(specification), s.value)
      ensures operator == old(operator)
    {
      if s.Some? {
        specification := if m == AND then Spec.And(specification, s.value) else Spec.Or(specification, s.value);
      }
    }

    /** `getSpecification`: merge with the current operator and return the result. */
    method GetSpecification(s: Option<Spec>) returns (r: Spec)
      modifies this
      ensures r == specification == Merge(old(specification), s, old(operator))
      ensures operator == old(operator)
    {
      MergeSpecification(s, operator);
      r := specification;
    }

    /** `this.specification = getSpecification(createSpec(h, field, val))`. */
    method Chain(h: Handler, field: Option<string>, v: Value) returns (o: Outcome)
      modifies this
      ensures Trace(Current(), o) == Finish(old(Current()), LeafStep(old(Current()), SpecificationFactory.CreateSpec(h, field, v)))
    {
      var created := SpecificationFactory.CreateSpec(h, field, v);
      if created.Err? {
        return Fail(created.msg);
      }
      specification := GetSpecification(created.value);
      o := Pass;
    }

    method Ge(field: Option<string>, v: Value) returns (o: Outcome)
      modifies this
      ensures Trace(Current(), o) == Run(old(Current()), [Calls.Ge(field, v)])
    {
      RunLeaf(Current(), Calls.Ge(field, v));
      o := Chain(GE, field, v);
    }

    method Eq(field: Option<string>, v: Value) returns (o: Outcome)
      modifies this
      ensures Trace(Current(), o) == Run(old(Current()), [Calls.Eq(field, v)])
    {
      RunLeaf(Current(), Calls.Eq(field, v));
      o := Chain(EQUAL, field, v);
    }

    method NotEq(field: Option<string>, v: Value) returns (o: Outcome)
      modifies this
      ensures Trace(Current(), o) == Run(old(Current()), [Calls.NotEq(field, v)])
    {
      RunLeaf(Current(), Calls.NotEq(field, v));
      o := Chain(NOT_EQUAL, field, v);
    }

    method Gt(field: Option<string>, v: Value) returns (o: Outcome)
      modifies this
      ensures Trace(Current(), o) == Run(old(Current()), [Calls.Gt(field, v)])
    {
      RunLeaf(Current(), Calls.Gt(field, v));
      o := Chain(GT, field, v);
    }

    method Lt(field: Option<string>, v: Value) returns (o: Outcome)
      modifies this
      ensures Trace(Current(), o) == Run(old(Current()), [Calls.Lt(field, v)])
    {
      RunLeaf(Current(), Calls.Lt(field, v));
      o := Chain(LT, field, v);
    }

    method Le(field: Option<string>, v: Value) returns (o: Outcome)
      modifies this
      ensures Trace(Current(), o) == Run(old(Current()), [Calls.Le(field, v)])
    {
      RunLeaf(Current(), Calls.Le(field, v));
      o := Chain(LE, field, v);
    }

    method AllLike(field: Option<string>, s: Option<string>) returns (o: Outcome)
      modifies this
      ensures Trace(Current(), o) == Run(old(Current()), [Calls.AllLike(field, s)])
    {
      RunLeaf(Current(), Calls.AllLike(field, s));
      o := Chain(ALL_LIKE, field, StrValue(s));
    }

    method RightLike(field: Option<string>, s: Option<string>) returns (o: Outcome)
      modifies this
      ensures Trace(Current(), o) == Run(old(Current()), [Calls.RightLike(field, s)])
    {
      RunLeaf(Current(), Calls.RightLike(field, s));
      o := Chain(RIGHT_LIKE, field, StrValue(s));
    }

    method LeftLike(field: Option<string>, s: Option<string>) returns (o: Outcome)
      modifies this
      ensures Trace(Current(), o) == Run(old(Current()), [Calls.LeftLike(field, s)])
    {
      RunLeaf(Current(), Calls.LeftLike(field, s));
      o := Chain(LEFT_LIKE, field, StrValue(s));
    }

    method IsNull(field: Option<string>) returns (o: Outcome)
      modifies this
      ensures Trace(Current(), o) == Run(old(Current()), [Calls.IsNull(field)])
    {
      RunLeaf(Current(), Calls.IsNull(field));
      o := Chain(IS_NULL, field, Null);
    }

    method IsNotNull(field: Option<string>) returns (o: Outcome)
      modifies this
      ensures Trace(Current(), o) == Run(old(Current()), [Calls.IsNotNull(field)])
    {
      RunLeaf(Current(), Calls.IsNotNull(field));
      o := Chain(IS_NOT_NULL, field, Null);
    }

    method In(field: Option<string>, c: Option<seq<Value>>) returns (o: Outcome)
      modifies this
      ensures Trace(Current(), o) == Run(old(Current()), [Calls.In(field, c)])
    {
      RunLeaf(Current(), Calls.In(field, c));
      o := Chain(IN, field, CollValue(c));
    }

    method NotIn(field: Option<string>, c: Option<seq<Value>>) returns (o: Outcome)
      modifies this
      ensures Trace(Current(), o) == Run(old(Current()), [Calls.NotIn(field, c)])
    {
      RunLeaf(Current(), Calls.NotIn(field, c));
      o := Chain(NOT_IN, field, CollValue(c));
    }

    method InArray(field: Option<string>, items: seq<Value>) returns (o: Outcome)
      modifies this
      ensures Trace(Current(), o) == Run(old(Current()), [Calls.InArray(field, items)])
    {
      RunLeaf(Current(), Calls.InArray(field, items));
      if |items| == 0 {
        return Fail(EMPTY_ARRAY);
      }
      o := Chain(IN, field, Arr(items));
    }

    method NotInArray(field: Option<string>, items: seq<Value>) returns (o: Outcome)
      modifies this
      ensures Trace(Current(), o) == Run(old(Current()), [Calls.NotInArray(field, items)])
    {
      RunLeaf(Current(), Calls.NotInArray(field, items));
      if |items| == 0 {
        return Fail(EMPTY_ARRAY);
      }
      o := Chain(NOT_IN, field, Arr(items));
    }

    method Between(field: Option<string>, low: Value, up: Value) returns (o: Outcome)
      modifies this
      ensures Trace(Current(), o) == Run(old(Current()), [Calls.Between(field, low, up)])
    {
      RunLeaf(Current(), Calls.Between(field, low, up));
      o := Pass;
      if low != Null || up != Null {
        o := Chain(BETWEEN, field, Arr([low, up]));
      }
    }

    method NotBetween(field: Option<string>, low: Value, up: Value) returns (o: Outcome)
      modifies this
      ensures Trace(Current(), o) == Run(old(Current()), [Calls.NotBetween(field, low, up)])
    {
      RunLeaf(Current(), Calls.NotBetween(field, low, up));
      o := Pass;
      if low != Null || up != Null {
        assert LeafOf(Calls.NotBetween(field, low, up)) == SpecificationFactory.CreateSpec(NOT_BETWEEN, field, Arr([low, up]));
        o := Chain(NOT_BETWEEN, field, Arr([low, up]));
      }
    }

    /** `and()`: switch the operator to AND. */
    method And()
      modifies this
      ensures Trace(Current(), Pass) == Run(old(Current()), [SetAnd])
    {
      MergeSpecification(None, AND);
      operator := AND;
    }

    /** `or()`: switch the operator to OR. */
    method Or()
      modifies this
      ensures Trace(Current(), Pass) == Run(old(Current()), [SetOr])
    {
      MergeSpecification(None, OR);
      operator := OR;
    }

    /** `and(consumer)`: a fresh child runs the group; its specification is AND-ed on. */
    method AndGroup(group: seq<Call>) returns (o: Outcome)
      modifies this
      ensures Trace(Current(), o) == Run(old(Current()), [NestAnd(group)])
      decreases CallsSize(group) + 1, 0
    {
      var child := new AbstractCondition();
      o := child.Apply(group);
      if o.Fail? {
        return;
      }
      var s := child.ToSpec();
      MergeSpecification(Some(s), AND);
    }

    /** `or(consumer)`: a fresh child runs the group; its specification is OR-ed on. */
    method OrGroup(group: seq<Call>) returns (o: Outcome)
      modifies this
      ensures Trace(Current(), o) == Run(old(Current()), [NestOr(group)])
      decreases CallsSize(group) + 1, 0
    {
      var child := new AbstractCondition();
      o := child.Apply(group);
      if o.Fail? {
        return;
      }
      var s := child.ToSpec();
      MergeSpecification(Some(s), OR);
    }

    /** One chain call of a consumer, dispatched to the method it names. */
    method Perform(c: Call) returns (o: Outcome)
      modifies this
      ensures Trace(Current(), o) == Run(old(Current()), [c])
      decreases CallSize(c), 1
    {
      match c
      case Ge(f, v) => o := Ge(f, v);
      case Eq(f, v) => o := Eq(f, v);
      case NotEq(f, v) => o := NotEq(f, v);
      case Gt(f, v) => o := Gt(f, v);
      case Lt(f, v) => o := Lt(f, v);
      case Le(f, v) => o := Le(f, v);
      case AllLike(f, s) => o := AllLike(f, s);
      case RightLike(f, s) => o := RightLike(f, s);
      case LeftLike(f, s) => o := LeftLike(f, s);
      case IsNull(f) => o := IsNull(f);
      case IsNotNull(f) => o := IsNotNull(f);
      case In(f, col) => o := In(f, col);
      case NotIn(f, col) => o := NotIn(f, col);
      case InArray(f, items) => o := InArray(f, items);
      case NotInArray(f, items) => o := NotInArray(f, items);
      case Between(f, lo, up) => o := Between(f, lo, up);
      case NotBetween(f, lo, up) => o := NotBetween(f, lo, up);
      case SetAnd => And(); o := Pass;
      case SetOr => Or(); o := Pass;
      case NestAnd(g) => o := AndGroup(g);
      case NestOr(g) => o := OrGroup(g);
    }

    /** The body of a consumer: its chain calls in order, until one throws. */
    method Apply(calls: seq<Call>) returns (o: Outcome)
      modifies this
      ensures Trace(Current(), o) == Run(old(Current()), calls)
      decreases CallsSize(calls), 2
    {
      var i := 0;
      o := Pass;
      while i < |calls|
        invariant 0 <= i <= |calls|
        invariant o == Pass
        invariant Run(old(Current()), calls) == Run(Current(), calls[i..])
        decreases |calls| - i
      {
        CallSizeBound(calls, i);
        var before := Current();
        assert calls[i..] == [calls[i]] + calls[i + 1..];
        assert [calls[i]] + [] == [calls[i]];
        RunCons(before, calls[i], calls[i + 1..]);
        RunCons(before, calls[i], []);
        o := Perform(calls[i]);
        if o.Fail? {
          return;
        }
        i := i + 1;
      }
    }
  }

}
