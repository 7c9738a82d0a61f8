/**
 * AbstractCondition and AbstractWrapper expose the same chain methods. They
 * merge on opposite sides (`spec OP leaf` against `leaf OP spec`), so for
 * the calls both factories treat alike the wrapper builds the mirror image
 * of the condition's tree; since composition is commutative, both select
 * the same rows. The calls on which they really differ are left out of the
 * agreement: varargs `in`/`notIn` (the condition factory rejects an array,
 * the wrapper's compares with `[array]`) and `between`/`notBetween` (a
 * no-op in the condition, a term that always throws in the wrapper).
 */
module Agreement {
  import opened Common
  import opened Specs
  import opened Calls
  import SpecificationFactory
  import Condition
  import Wrapper

  /** A call (and, in a group, every call inside it) on which the two factories agree. */
  predicate Portable(c: Call)
    decreases CallSize(c), 0
  {
    match c
    case InArray(_, _) => false
    case NotInArray(_, _) => false
    case Between(_, _, _) => false
    case NotBetween(_, _, _) => false
    case NestAnd(g) => AllPortable(g)
    case NestOr(g) => AllPortable(g)
    case _ => true
  }

  predicate AllPortable(cs: seq<Call>)
    decreases CallsSize(cs), 1
  {
    cs == [] || (Portable(cs[0]) && AllPortable(cs[1..]))
  }

  function MirrorState(st: State): State
  {
    State(Mirror(st.spec), st.mode)
  }

  /** On a portable leaf call both builders get the same leaf, which its mirror leaves unchanged. */
  lemma LeafAgrees(c: Call)
    requires IsLeafCall(c) && Portable(c)
    ensures Condition.LeafOf(c).Err? <==> Wrapper.LeafOf(c).Err?
    ensures Condition.LeafOf(c).Ok? ==> Wrapper.LeafOf(c) == Condition.LeafOf(c)
    ensures Condition.LeafOf(c).Ok? && Condition.LeafOf(c).value.Some? ==>
              Mirror(Condition.LeafOf(c).value.value) == Condition.LeafOf(c).value.value
  {
    var r := RequestOf(c);
    Wrapper.FactoriesAgree(r.h, r.field, r.v);
  }

  /** One portable call keeps the wrapper's state the mirror of the condition's. */
  lemma {:induction false} StepMirror(st: State, c: Call)
    requires Portable(c)
    ensures Condition.Step(st, c).Ok? <==> Wrapper.Step(MirrorState(st), c).Ok?
    ensures Condition.Step(st, c).Ok? ==>
              Wrapper.Step(MirrorState(st), c).value == MirrorState(Condition.Step(st, c).value)
    decreases CallSize(c), 0
  {
    if c.NestAnd? || c.NestOr? {
      RunMirror(Fresh, c.group);
    } else if IsLeafCall(c) {
      LeafStepMirror(st, c);
    }
  }

  lemma LeafStepMirror(st: State, c: Call)
    requires IsLeafCall(c) && Portable(c)
    ensures Condition.Step(st, c).Ok? <==> Wrapper.Step(MirrorState(st), c).Ok?
    ensures Condition.Step(st, c).Ok? ==>
              Wrapper.Step(MirrorState(st), c).value == MirrorState(Condition.Step(st, c).value)
  {
    LeafAgrees(c);
    assert Condition.Step(st, c) == Condition.LeafStep(st, Condition.LeafOf(c));
    assert Wrapper.Step(MirrorState(st), c) == Wrapper.LeafStep(MirrorState(st), Wrapper.LeafOf(c));
  }

  /**
   * Over portable call sequences (groups included) the wrapper's tree is the
   * mirror of the condition's, the operators are equal, and one throws
   * exactly when the other does.
   */
  lemma {:induction false} RunMirror(st: State, calls: seq<Call>)
    requires AllPortable(calls)
    ensures Wrapper.Run(MirrorState(st), calls).state == MirrorState(Condition.Run(st, calls).state)
    ensures Wrapper.Run(MirrorState(st), calls).outcome.Pass? <==> Condition.Run(st, calls).outcome.Pass?
    decreases CallsSize(calls), 1
  {
    if calls != [] {
      StepMirror(st, calls[0]);
      var r := Condition.Step(st, calls[0]);
      if r.Ok? {
        RunMirror(r.value, calls[1..]);
      }
    }
  }

  /** Both builders, from a fresh start, select the same rows for the same portable chain. */
  lemma SameRows(calls: seq<Call>, truth: LeafTruth)
    requires AllPortable(calls)
    ensures Eval(Wrapper.Run(Fresh, calls).state.spec, truth) == Eval(Condition.Run(Fresh, calls).state.spec, truth)
    ensures Wrapper.Run(Fresh, calls).state.mode == Condition.Run(Fresh, calls).state.mode
  {
    RunMirror(Fresh, calls);
    EvalMirror(Condition.Run(Fresh, calls).state.spec, truth);
  }
}
