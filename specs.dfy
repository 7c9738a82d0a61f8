/**
 * The predicate a builder accumulates. In the Java code this is a Spring Data
 * `Specification<T>`, a lambda composed with `Specification.and`/`or`; here it
 * is the syntax tree of that composition, so that its shape can be stated.
 */
module Specs {
  import opened Common

  /** The comparison a leaf predicate performs (the Handler enum of each builder). */
  datatype Handler =
    | EQUAL | NOT_EQUAL | LT | LE | GT | GE
    | ALL_LIKE | LEFT_LIKE | RIGHT_LIKE
    | IN | NOT_IN | IS_NULL | IS_NOT_NULL
    | BETWEEN | NOT_BETWEEN

  /** `Predicate.BooleanOperator`: the mode a builder merges with. */
  datatype Mode = AND | OR

  /** What a leaf lambda hands to the `CriteriaBuilder` besides the path. */
  datatype Operand =
    | NoOperand                                      // cb.isNull / cb.isNotNull
    | Scalar(v: Value)                               // cb.equal, cb.greaterThan, ...
    | Pattern(lead: string, v: Value, trail: string) // cb.like(path, lead + v + trail)
    | Members(vs: seq<Value>)                        // path.in(list)

  /**
   * A composed specification.
   * - Empty: the initial `(root, query, cb) -> null`, which yields no predicate;
   * - Leaf: one comparison on the attribute path `path` (root.get(a).get(b)...);
   * - And/Or: `left.and(right)` / `left.or(right)`;
   * - Not: `.not()` applied to the predicate of `inner`;
   * - Throws: a lambda whose `toPredicate` throws with message `msg`.
   */
  datatype Spec =
    | Empty
    | Leaf(h: Handler, path: seq<string>, arg: Operand)
    | And(left: Spec, right: Spec)
    | Or(left: Spec, right: Spec)
    | Not(inner: Spec)
    | Throws(msg: string)

  /** `left OP right` for the mode OP. */
  function Combine(m: Mode, left: Spec, right: Spec): (r: Spec)
    ensures m == AND ==> r == And(left, right)
    ensures m == OR ==> r == Or(left, right)
  {
    match m
    case AND => And(left, right)
    case OR => Or(left, right)
  }

  /** The same tree with the two operands of every And/Or swapped. */
  function Mirror(s: Spec): Spec
  {
    match s
    case And(l, r) => And(Mirror(r), Mirror(l))
    case Or(l, r) => Or(Mirror(r), Mirror(l))
    case Not(p) => Not(Mirror(p))
    case _ => s
  }

  lemma {:induction false} MirrorInvolutive(s: Spec)
    ensures Mirror(Mirror(s)) == s
  {
    match s
    case And(l, r) => MirrorInvolutive(l); MirrorInvolutive(r);
    case Or(l, r) => MirrorInvolutive(l); MirrorInvolutive(r);
    case Not(p) => MirrorInvolutive(p);
    case _ =>
  }

  /**
   * What `toPredicate` yields for a tree: no predicate (null), a predicate
   * of the given truth, or an exception. The truth of each leaf comparison
   * is a parameter: the persistence layer decides it.
   */
  datatype Denotation = Absent | Holds(b: bool) | Raises

  type LeafTruth = (Handler, seq<string>, Operand) -> bool

  /**
   * Spring's `SpecificationComposition.composed`: both sides are turned into
   * predicates (an exception on either side propagates), a side that yields
   * null is dropped, and two present predicates are combined by the mode.
   */
  function Compose(m: Mode, a: Denotation, b: Denotation): (r: Denotation)
    ensures (a == Raises || b == Raises) <==> r == Raises
    ensures a == Absent && b != Raises ==> r == b
    ensures b == Absent && a != Raises ==> r == a
    ensures a.Holds? && b.Holds? && m == AND ==> r == Holds(a.b && b.b)
    ensures a.Holds? && b.Holds? && m == OR ==> r == Holds(a.b || b.b)
  {
    if a == Raises || b == Raises then Raises
    else if a == Absent then b
    else if b == Absent then a
    else if m == AND then Holds(a.b && b.b)
    else Holds(a.b || b.b)
  }

  function Eval(s: Spec, truth: LeafTruth): Denotation
  {
    match s
    case Empty => Absent
    case Leaf(h, p, a) => Holds(truth(h, p, a))
    case And(l, r) => Compose(AND, Eval(l, truth), Eval(r, truth))
    case Or(l, r) => Compose(OR, Eval(l, truth), Eval(r, truth))
    case Not(p) => (match Eval(p, truth) case Holds(b) => Holds(!b) case d => d)
    case Throws(_) => Raises
  }

  /** Composition is commutative, whichever side a builder puts the new term on. */
  lemma ComposeCommutes(m: Mode, a: Denotation, b: Denotation)
    ensures Compose(m, a, b) == Compose(m, b, a)
  {
  }

  /** A mirrored tree denotes the same predicate as the original. */
  lemma {:induction false} EvalMirror(s: Spec, truth: LeafTruth)
    ensures Eval(Mirror(s), truth) == Eval(s, truth)
  {
    match s
    case And(l, r) =>
      EvalMirror(l, truth); EvalMirror(r, truth);
      ComposeCommutes(AND, Eval(l, truth), Eval(r, truth));
    case Or(l, r) =>
      EvalMirror(l, truth); EvalMirror(r, truth);
      ComposeCommutes(OR, Eval(l, truth), Eval(r, truth));
    case Not(p) => EvalMirror(p, truth);
    case _ =>
  }

  /** The initial specification is the identity of both compositions. */
  lemma EmptyIsIdentity(m: Mode, s: Spec, truth: LeafTruth)
    ensures Eval(Combine(m, Empty, s), truth) == Eval(s, truth)
    ensures Eval(Combine(m, s, Empty), truth) == Eval(s, truth)
  {
  }

  /** A term whose lambda throws makes every composition with it throw. */
  lemma ThrowsPropagates(m: Mode, msg: string, s: Spec, truth: LeafTruth)
    ensures Eval(Combine(m, Throws(msg), s), truth) == Raises
    ensures Eval(Combine(m, s, Throws(msg)), truth) == Raises
  {
  }
}
