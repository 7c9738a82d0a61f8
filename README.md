# jpa-plus: condition builders and batch service, modelled in Dafny

jpa-plus is a layer over Spring Data JPA. Its core is the fluent condition
builder. A chain such as `eq("id", 2).or().like(...).and(c -> ...)` is turned
into one composed `Specification`, which the persistence layer later turns
into a query predicate. The repository has two builders:

- `AbstractCondition`, with its `SpecificationFactory`;
- the older `AbstractWrapper`, with a private copy of the factory.

This project models:

- **Specifications as trees** (module `Specs`). A Spring `Specification`
  lambda becomes the syntax tree of its composition: `Empty` (the initial
  lambda that yields no predicate), `Leaf`, `And`, `Or`, `Not`, and
  `Throws` (a lambda whose `toPredicate` throws). `Eval` gives a tree its
  meaning as Spring composes it. A side that yields no predicate is dropped,
  an exception propagates, and the truth of each leaf is a parameter.
- **The factories** (modules `SpecificationFactory`, `Wrapper`, `Paths`).
  `createSpec` is modelled case by case, including:
  - the null-field exception;
  - the null-value skip;
  - the IN filter of null members;
  - `parseRootPath` with Java's `split("\\.")`, which drops trailing empty
    strings. A name made only of dots gives a null path.
- **The builders as state machines** (modules `Calls`, `Condition`,
  `Wrapper`). The builder's state is the accumulated specification plus the
  sticky AND/OR operator. `Step` and `Run` give the meaning of one chain call
  and of a chain. The classes `AbstractCondition` and `AbstractWrapper` hold
  those two fields and have one method per chain method. Each method is
  proved to leave exactly the state `Run` gives for that call. A
  `Consumer<Child>` passed to `and(c)` or `or(c)` is modelled as the
  sequence of chain calls it makes on the fresh child builder.
- **Agreement of the two builders** (module `Agreement`). The condition
  merges `spec OP leaf`; the wrapper merges `leaf OP spec`. On the calls both
  factories treat alike, the wrapper's tree is the mirror image of the
  condition's, so both select the same rows.
- **Small utilities**:
  - `StringUtil.lowerFirst` / `isEmpty`;
  - the lambda column-name resolvers;
  - `ArrayUtil.toArray`, on a Dafny `array`;
  - `SuperBean`'s `equals` / `hashCode`, as a class with a mutable `id`.
- **BaseService** (modules `ServiceUnique`, `ServiceSql`):
  - the decision `isUnique` makes from the repository's answer;
  - the in-batch duplicate scan of `validateUniqueBeforeSave(Iterable)`,
    proved against a reference definition of the first throwing visit;
  - the `StringBuilder` construction of the batch INSERT and INSERT ... ON
    DUPLICATE KEY UPDATE statements, proved equal to closed-form strings;
  - the parameter indexes `setPreparedStatement` binds;
  - the empty-input guards of `update`, `batchInsert` and
    `batchInsertOnDuplicateKeyUpdate`.

The model follows the code, also where the code departs from what the
core module's tests expect (`testBetween` in
core/src/test/java/com/ct/condition/ConditionTest.java, lines 121-135) or
from what a reader of the API would assume:

- **`between` / `notBetween` on an `AbstractCondition` never add a range
  test.** Its `SpecificationFactory` has no BETWEEN or NOT_BETWEEN case and
  returns null, so the call changes nothing (`Condition.BetweenNoChange`).
  The core `testBetween` expects 3 and 2 rows.
- **`between` / `notBetween` on an `AbstractWrapper` yield a specification
  that always throws.** Its private factory has the two cases, but their
  lambdas call `Arrays.asList(val)` on an `Object val`, which is the
  one-element list holding the bounds array. Casting that array to
  `Comparable` throws a ClassCastException before `cb.between` is reached
  (`Wrapper.BetweenSpec`, `Wrapper.RangeAlwaysRaises`). Every later term is
  composed with it, so the whole chain's specification throws when the
  query is built (`Wrapper.BetweenSpoilsChain`).
- **`and(consumer)` / `or(consumer)` merge with a fixed AND or OR.** They do
  not use the builder's current operator, and they leave that operator
  unchanged (`Condition.NestedMergeIsFixed`, `Wrapper.NestedMergeIsFixed`).
- **Only varargs `in` / `notIn` reject an empty input.** An empty
  `Collection` goes on to the factory and becomes a membership test over the
  empty list. (jpa-plus-core's `testEmptyCollection` expects an exception
  here, but that test runs jpa-plus-core's own builder, which is not part
  of this model.)
- **Non-empty varargs `in` / `notIn` on an `AbstractCondition` always
  throw when the query is built.** The documentation of both methods says
  `in("a", 1, 2)` means `a in (1,2)`, and the core `testIn`
  (core/src/test/java/com/ct/condition/ConditionTest.java, lines 87-118)
  expects two rows from `in("id", 1, 2)` and from `notIn("username",
  "lisi", "zhangsan")`. But the array goes on to `SpecificationFactory`, whose
  IN and NOT_IN cases accept only a `Collection`: for anything else they build
  a lambda that throws "Value Must be Collection Instance!"
  (`Condition.ArrayInRaises`). Every later term is composed with it, so the
  whole chain's specification throws (`Condition.ArrayInSpoilsChain`).
- **The `or(consumer)` documentation's "and f = 1" is not what either
  builder does.** Its example ends `.or(i -> i.eq("f", 1))`, and both builders
  OR that group onto the rest. The chain selects the rows passing `a` and
  `b`, or `c` and `d`, or `f` (`Condition.NestedOrMeaning`,
  `Wrapper.NestedOrMeaning`).
- **Varargs `in` / `notIn` on the wrapper do not compare against the
  array's elements.** The array passes through `Arrays.asList(Object)`, so
  the path is compared with a one-element list whose only member is the
  array itself (`Wrapper.ArrayInHasOneMember`). The model records that list
  and does not claim what the persistence layer makes of it.

## Model

| member | source | states |
|---|---|---|
| Common.NonNulls | core/src/main/java/com/ct/condition/core/SpecificationFactory.java:84-85 | the `filter(Objects::nonNull)` result holds exactly the non-null members and is no longer than its input |
| Specs.Combine | core/src/main/java/com/ct/condition/core/AbstractCondition.java:313 | `a.and(b)` is the And node and `a.or(b)` the Or node, left operand first |
| Specs.Eval | core/src/main/java/com/ct/condition/core/AbstractCondition.java:313 | the meaning Spring's composition gives a tree: an Empty side is dropped, an exception propagates, `.not()` negates a predicate, and a leaf's truth is the oracle's |
| Specs.Compose | core/src/main/java/com/ct/condition/core/AbstractCondition.java:313 | `and`/`or` of two specifications: an exception on either side propagates, a side with no predicate is dropped, two predicates are conjoined or disjoined |
| Specs.ComposeCommutes | core/src/main/java/com/ct/wrapper/AbstractWrapper.java:318-322 | composition gives the same result whichever side the new term is put on |
| Specs.EvalMirror | core/src/main/java/com/ct/wrapper/AbstractWrapper.java:318-322 | swapping the operands of every and/or in a tree does not change what it selects |
| Specs.EmptyIsIdentity | core/src/main/java/com/ct/condition/core/AbstractCondition.java:27-30 | the initial specification, which yields no predicate, is the identity of both compositions |
| Specs.ThrowsPropagates | core/src/main/java/com/ct/condition/core/SpecificationFactory.java:87-89 | a term whose lambda throws makes every composition containing it throw |
| Paths.SplitDot | core/src/main/java/com/ct/condition/core/SpecificationFactory.java:123 | `attrName.split("\\.")`: the pieces between dots, trailing empty pieces dropped |
| Paths.RootPath | core/src/main/java/com/ct/condition/core/SpecificationFactory.java:120-135 | no dot gives `root.get(attrName)`; otherwise the path along every piece of the split, or null when the split leaves none |
| Paths.DropTrailingEmpty | core/src/main/java/com/ct/condition/core/SpecificationFactory.java:123 | `split` keeps a prefix of the pieces, ends on a non-empty piece, and drops only empty pieces |
| Paths.ParseRootPath | core/src/main/java/com/ct/condition/core/SpecificationFactory.java:120-135 | the segment loop resolves exactly the path `RootPath` defines, null included |
| Paths.RootPathSegments | core/src/main/java/com/ct/condition/core/SpecificationFactory.java:122-130 | a dotted name that does not end in a dot resolves to all its pieces; none of them contains a dot and they join back to the name |
| Paths.OnlyDots | core/src/main/java/com/ct/condition/core/SpecificationFactory.java:122-134 | a name made only of dots leaves no segment, so the path is null |
| SpecificationFactory.CreateSpec | core/src/main/java/com/ct/condition/core/SpecificationFactory.java:27-33 | a null field name throws "fieldName cannot null" and nothing else does; a null value gives no specification except for the null tests |
| SpecificationFactory.InSpec | core/src/main/java/com/ct/condition/core/SpecificationFactory.java:80-91 | the IN lambda throws "Value Must be Collection Instance!" for a non-collection, and otherwise tests membership in the collection's non-null members on the resolved path |
| SpecificationFactory.Negate | core/src/main/java/com/ct/condition/core/SpecificationFactory.java:98 | `.not()` negates a leaf predicate; a lambda that throws still throws |
| SpecificationFactory.ComparisonLeaves | core/src/main/java/com/ct/condition/core/SpecificationFactory.java:35-64 | eq/lt/le/gt/ge build one comparison on the field itself; notEq is the negated equality |
| SpecificationFactory.NullTestLeaves | core/src/main/java/com/ct/condition/core/SpecificationFactory.java:104-113 | isNull/isNotNull build their test whatever the value, null included |
| SpecificationFactory.NoRangeCase | core/src/main/java/com/ct/condition/core/SpecificationFactory.java:114-117 | BETWEEN and NOT_BETWEEN fall to the default case: no specification |
| SpecificationFactory.InNeedsCollection | core/src/main/java/com/ct/condition/core/SpecificationFactory.java:80-103 | IN/NOT_IN given anything but a collection, an array included, build a specification that throws "Value Must be Collection Instance!" |
| SpecificationFactory.BuiltOnlyForKnownHandlers | core/src/main/java/com/ct/condition/core/SpecificationFactory.java:27-117 | a specification is built only for a non-null field and a handler the switch has a case for |
| SpecificationFactory.LikePatterns | core/src/main/java/com/ct/condition/core/SpecificationFactory.java:65-79 | allLike, leftLike and rightLike match `%v%`, `%v` and `v%` |
| SpecificationFactory.NotInNegatesIn | core/src/main/java/com/ct/condition/core/SpecificationFactory.java:92-103 | NOT_IN throws exactly when IN throws, and otherwise holds exactly when IN does not |
| SpecificationFactory.InDropsNulls | core/src/main/java/com/ct/condition/core/SpecificationFactory.java:83-86 | the IN list holds no null and holds every non-null member of the collection |
| Calls.RequestOf | core/src/main/java/com/ct/condition/core/AbstractCondition.java:272-309 | a leaf call throws before the factory exactly for an empty varargs array, and does nothing exactly for between/notBetween with both bounds null |
| Condition.Merge | core/src/main/java/com/ct/condition/core/AbstractCondition.java:311-315 | a null `s` changes nothing; otherwise the result means `spec OP s` for every row |
| Condition.Step | core/src/main/java/com/ct/condition/core/AbstractCondition.java:107-321 | one chain call: and()/or() never throw and keep the specification; every other call that completes keeps the operator |
| Condition.Run | core/src/main/java/com/ct/condition/core/AbstractCondition.java:16-17 | a chain of calls in order, each from the state the previous left, stopping with the first exception and the state before it |
| Condition.NoLeafNoChange | core/src/main/java/com/ct/condition/core/AbstractCondition.java:311-321 | a call for which the factory returns null leaves specification and operator unchanged |
| Condition.NullValueNoChange | core/src/main/java/com/ct/condition/core/SpecificationFactory.java:31-33 | a null value is a no-op for every handler but the null tests |
| Condition.LeafMergesWithMode | core/src/main/java/com/ct/condition/core/AbstractCondition.java:311-321 | a built leaf is merged as `spec OP leaf` with the current operator, which stays |
| Condition.EqMerges | core/src/main/java/com/ct/condition/core/AbstractCondition.java:148-152 | `eq(f, v)` with a non-null value merges the equality test of `f` with `v` using the current operator |
| Condition.LeafErrorThrows | core/src/main/java/com/ct/condition/core/AbstractCondition.java:133-137 | a factory exception propagates and leaves the builder as it was |
| Condition.NullFieldThrows | core/src/main/java/com/ct/condition/core/SpecificationFactory.java:28-30 | a null field name throws "fieldName cannot null", even for isNull |
| Condition.SwitchSetsOnlyMode | core/src/main/java/com/ct/condition/core/AbstractCondition.java:107-123 | `and()`/`or()` set the operator and leave the specification as it was |
| Condition.NestedMergeIsFixed | core/src/main/java/com/ct/condition/core/AbstractCondition.java:52-87 | `and(c)`/`or(c)` merge a fresh child's specification as `spec AND child` / `spec OR child` whatever the operator, which stays; an exception in the group propagates and leaves the parent unchanged |
| Condition.EmptyArrayThrows | core/src/main/java/com/ct/condition/core/AbstractCondition.java:272-291 | varargs `in`/`notIn` with no element throw "Array should not be empty" |
| Condition.BetweenNoChange | core/src/main/java/com/ct/condition/core/AbstractCondition.java:293-309 | `between`/`notBetween` never change the builder: the bounds check skips, or the factory returns null |
| Condition.RunAppend | core/src/main/java/com/ct/condition/core/AbstractCondition.java:16-17 | running two chains one after the other is running their concatenation, stopping at the first exception |
| Condition.TrailingSwitchIgnored | core/src/main/java/com/ct/condition/core/AbstractCondition.java:107-123 | an `or()`/`and()` at the end of a chain changes neither the specification nor whether the chain throws |
| Condition.ModeSticky | core/src/main/java/com/ct/condition/core/AbstractCondition.java:311-321 | without `and()`/`or()`, no call changes the operator, nested groups included |
| Condition.StickyModeFold | core/src/main/java/com/ct/condition/core/AbstractCondition.java:318-321 | a run of leaf calls is the left fold that combines every built leaf on the right with the operator in force |
| Condition.LeadingOrTree | jpa-plus-core/src/test/java/com/ct/condition/ConditionTest.java:86-97 | the chain of jpa-plus-core's testOr, run on core's builder, builds `((Empty or id) or (Empty and username)) or realname`, operator OR, without an exception |
| Condition.LeadingOrMeaning | jpa-plus-core/src/test/java/com/ct/condition/ConditionTest.java:86-97 | that tree selects exactly the rows passing one of the three equality tests |
| Condition.GroupThenSwitchTree | core/src/test/java/com/ct/condition/ConditionTest.java:42-64 | the core testAnd and testOr chains, `eq id`, `and(c)`/`or(c)` with `eq username`, `and()`/`or()`, `eq realname`, build `((Empty and id) OP (Empty and username)) OP realname` with operator OP and no exception |
| Condition.GroupThenSwitchMeaning | core/src/test/java/com/ct/condition/ConditionTest.java:42-64 | those trees select the rows passing all three tests for testAnd, and one of them for testOr |
| Condition.InArrayMerges | core/src/main/java/com/ct/condition/core/AbstractCondition.java:272-277 | a non-empty varargs `in` merges, with the current operator, the specification the factory builds for an array: one that throws "Value Must be Collection Instance!" |
| Condition.NotInArrayMerges | core/src/main/java/com/ct/condition/core/AbstractCondition.java:285-290 | a non-empty varargs `notIn` merges the same throwing specification with the current operator |
| Condition.ArrayInRaises | core/src/main/java/com/ct/condition/core/AbstractCondition.java:268-290 | contrary to the documented `in("a", 1, 2)` meaning `a in (1,2)`, after a non-empty varargs `in` or `notIn` the accumulated specification throws when the query is built, whatever the rest of the tree |
| Condition.RaisesSticks | core/src/main/java/com/ct/condition/core/AbstractCondition.java:311-321 | once the accumulated specification raises, every call that completes leaves one that raises |
| Condition.RaisesToTheEnd | core/src/main/java/com/ct/condition/core/AbstractCondition.java:311-321 | a raising specification stays raising through any later chain |
| Condition.RaisingStepSpoils | core/src/main/java/com/ct/condition/core/AbstractCondition.java:311-321 | a chain whose first call leaves a raising specification ends with one |
| Condition.ArrayInSpoilsChain | core/src/main/java/com/ct/condition/core/AbstractCondition.java:268-290 | after a non-empty varargs `in`/`notIn`, whatever follows, the chain's specification throws when the query is built |
| Condition.NestedOrTree | core/src/main/java/com/ct/condition/core/AbstractCondition.java:68-87 | the documented `eq a, eq b, or(eq c, eq d), or(eq f)` chain builds `((a AND b) OR (c AND d)) OR f`, each group on a fresh child |
| Condition.NestedOrMeaning | core/src/main/java/com/ct/condition/core/AbstractCondition.java:68-87 | that tree selects the rows passing `a` and `b`, or `c` and `d`, or `f`, not the "and f = 1" the documentation gives |
| Condition.AbstractCondition.constructor | core/src/main/java/com/ct/condition/core/AbstractCondition.java:23-30 | a new builder has operator AND and the specification that yields no predicate |
| Condition.AbstractCondition.ToSpec | core/src/main/java/com/ct/condition/core/AbstractCondition.java:35-38 | returns the accumulated specification |
| Condition.AbstractCondition.MergeSpecification | core/src/main/java/com/ct/condition/core/AbstractCondition.java:311-315 | a null specification changes nothing; otherwise the field becomes `spec OP s`; the operator is untouched |
| Condition.AbstractCondition.GetSpecification | core/src/main/java/com/ct/condition/core/AbstractCondition.java:318-321 | merges with the current operator and returns the merged specification it stored |
| Condition.AbstractCondition.Chain | core/src/main/java/com/ct/condition/core/AbstractCondition.java:134-136 | the shape of every leaf method: a factory exception propagates and changes nothing; otherwise the built specification is merged with the current operator |
| Condition.AbstractCondition.Ge | core/src/main/java/com/ct/condition/core/AbstractCondition.java:133-137 | the new fields and the outcome are those `Run` gives for `ge` |
| Condition.AbstractCondition.Eq | core/src/main/java/com/ct/condition/core/AbstractCondition.java:148-152 | the new fields and the outcome are those `Run` gives for `eq` |
| Condition.AbstractCondition.NotEq | core/src/main/java/com/ct/condition/core/AbstractCondition.java:159-163 | the new fields and the outcome are those `Run` gives for `notEq` |
| Condition.AbstractCondition.Gt | core/src/main/java/com/ct/condition/core/AbstractCondition.java:169-173 | the new fields and the outcome are those `Run` gives for `gt` |
| Condition.AbstractCondition.Lt | core/src/main/java/com/ct/condition/core/AbstractCondition.java:179-183 | the new fields and the outcome are those `Run` gives for `lt` |
| Condition.AbstractCondition.Le | core/src/main/java/com/ct/condition/core/AbstractCondition.java:189-193 | the new fields and the outcome are those `Run` gives for `le` |
| Condition.AbstractCondition.AllLike | core/src/main/java/com/ct/condition/core/AbstractCondition.java:199-203 | the new fields and the outcome are those `Run` gives for `allLike` |
| Condition.AbstractCondition.RightLike | core/src/main/java/com/ct/condition/core/AbstractCondition.java:209-213 | the new fields and the outcome are those `Run` gives for `rightLike` |
| Condition.AbstractCondition.LeftLike | core/src/main/java/com/ct/condition/core/AbstractCondition.java:219-223 | the new fields and the outcome are those `Run` gives for `leftLike` |
| Condition.AbstractCondition.IsNull | core/src/main/java/com/ct/condition/core/AbstractCondition.java:229-233 | the new fields and the outcome are those `Run` gives for `isNull` |
| Condition.AbstractCondition.IsNotNull | core/src/main/java/com/ct/condition/core/AbstractCondition.java:239-243 | the new fields and the outcome are those `Run` gives for `isNotNull` |
| Condition.AbstractCondition.In | core/src/main/java/com/ct/condition/core/AbstractCondition.java:250-254 | the new fields and the outcome are those `Run` gives for `in(field, collection)` |
| Condition.AbstractCondition.NotIn | core/src/main/java/com/ct/condition/core/AbstractCondition.java:261-265 | the new fields and the outcome are those `Run` gives for `notIn(field, collection)` |
| Condition.AbstractCondition.InArray | core/src/main/java/com/ct/condition/core/AbstractCondition.java:271-278 | the new fields and the outcome are those `Run` gives for varargs `in`, the empty-array exception included |
| Condition.AbstractCondition.NotInArray | core/src/main/java/com/ct/condition/core/AbstractCondition.java:284-291 | the new fields and the outcome are those `Run` gives for varargs `notIn`, the empty-array exception included |
| Condition.AbstractCondition.Between | core/src/main/java/com/ct/condition/core/AbstractCondition.java:293-300 | the new fields and the outcome are those `Run` gives for `between` |
| Condition.AbstractCondition.NotBetween | core/src/main/java/com/ct/condition/core/AbstractCondition.java:302-309 | the new fields and the outcome are those `Run` gives for `notBetween` |
| Condition.AbstractCondition.And | core/src/main/java/com/ct/condition/core/AbstractCondition.java:118-123 | the new fields are those `Run` gives for `and()` |
| Condition.AbstractCondition.Or | core/src/main/java/com/ct/condition/core/AbstractCondition.java:107-112 | the new fields are those `Run` gives for `or()` |
| Condition.AbstractCondition.AndGroup | core/src/main/java/com/ct/condition/core/AbstractCondition.java:52-58 | a fresh child runs the group; the new fields and the outcome are those `Run` gives for `and(consumer)` |
| Condition.AbstractCondition.OrGroup | core/src/main/java/com/ct/condition/core/AbstractCondition.java:81-87 | a fresh child runs the group; the new fields and the outcome are those `Run` gives for `or(consumer)` |
| Condition.AbstractCondition.Perform | core/src/main/java/com/ct/condition/core/AbstractCondition.java:16-17 | any single chain call leaves the fields and outcome `Run` gives for it |
| Condition.AbstractCondition.Apply | core/src/main/java/com/ct/condition/core/AbstractCondition.java:54-55 | `consumer.accept(child)`: the calls in order, stopping at the first exception, leave the fields `Run` gives for the whole chain |
| Wrapper.InSpec | core/src/main/java/com/ct/wrapper/AbstractWrapper.java:388-403 | the IN lambda: a collection gives its non-null members, an array gives the one-element list holding the array, a null path fails, anything else throws "Value Must be Collection Instance!" |
| Wrapper.BetweenSpec | core/src/main/java/com/ct/wrapper/AbstractWrapper.java:429-440 | the range lambdas never reach `cb.between`: casting the only element of `Arrays.asList(val)` to `Comparable` throws ClassCastException for the bounds array (or a collection); a comparable object passes the cast and `bound.get(1)` is out of range; either way it raises on every row, and `.not()` is never reached |
| Wrapper.CreateSpec | core/src/main/java/com/ct/wrapper/AbstractWrapper.java:335-345 | a null field name throws "filedName cannot null" and nothing else does; a null value gives no specification except for the null tests; otherwise a specification is always built |
| Wrapper.RangeSpecs | core/src/main/java/com/ct/wrapper/AbstractWrapper.java:429-440 | for a non-null value both range handlers build a specification, NOT_BETWEEN the same throwing one as BETWEEN; for the bounds array it throws ClassCastException |
| Wrapper.RangeAlwaysRaises | core/src/main/java/com/ct/wrapper/AbstractWrapper.java:429-440 | neither range lambda yields a predicate: both raise whatever the row |
| Wrapper.FactoriesAgree | core/src/main/java/com/ct/wrapper/AbstractWrapper.java:334-445 | away from arrays given to IN/NOT_IN and from the range handlers, the private factory throws exactly when SpecificationFactory does and otherwise builds the same specification |
| Wrapper.Merge | core/src/main/java/com/ct/wrapper/AbstractWrapper.java:318-322 | a null `s` changes nothing; otherwise the result means `s OP spec` for every row |
| Wrapper.Step | core/src/main/java/com/ct/wrapper/AbstractWrapper.java:59-331 | one chain call: and()/or() never throw and keep the specification; every other call that completes keeps the operator |
| Wrapper.Run | core/src/main/java/com/ct/wrapper/AbstractWrapper.java:23-24 | a chain of calls in order, each from the state the previous left, stopping with the first exception and the state before it |
| Wrapper.LeafMergesInFront | core/src/main/java/com/ct/wrapper/AbstractWrapper.java:325-331 | a built leaf is put in front, `leaf OP spec`, with the current operator, which stays |
| Wrapper.NoLeafNoChange | core/src/main/java/com/ct/wrapper/AbstractWrapper.java:325-328 | a call for which the factory returns null leaves both fields unchanged |
| Wrapper.NullFieldThrows | core/src/main/java/com/ct/wrapper/AbstractWrapper.java:336-338 | a null field name throws "filedName cannot null" |
| Wrapper.NestedMergeIsFixed | core/src/main/java/com/ct/wrapper/AbstractWrapper.java:59-94 | `and(c)`/`or(c)` merge `child AND spec` / `child OR spec` whatever the operator, which stays; an exception in the group propagates |
| Wrapper.EmptyArrayThrows | core/src/main/java/com/ct/wrapper/AbstractWrapper.java:279-298 | varargs `in`/`notIn` with no element throw "Array should not be empty" |
| Wrapper.BetweenMergesInFront | core/src/main/java/com/ct/wrapper/AbstractWrapper.java:300-316 | with a bound present, `between` and `notBetween` both put the ClassCastException lambda in front with the current operator |
| Wrapper.RaisesSticks | core/src/main/java/com/ct/wrapper/AbstractWrapper.java:318-331 | once the accumulated specification raises, every call that completes leaves one that raises |
| Wrapper.RaisesToTheEnd | core/src/main/java/com/ct/wrapper/AbstractWrapper.java:318-331 | a raising specification stays raising through any later chain |
| Wrapper.BetweenSpoilsChain | core/src/main/java/com/ct/wrapper/AbstractWrapper.java:300-316 | after a wrapper `between`/`notBetween` with a bound, whatever follows, the chain's specification raises when the query is built |
| Wrapper.NullBoundsNoChange | core/src/main/java/com/ct/wrapper/AbstractWrapper.java:302 | with both bounds null, `between`/`notBetween` do nothing |
| Wrapper.ArrayInHasOneMember | core/src/main/java/com/ct/wrapper/AbstractWrapper.java:395-398 | varargs `in` compares the path with a one-element list, the array itself |
| Wrapper.RunAppend | core/src/main/java/com/ct/wrapper/AbstractWrapper.java:23-24 | running two chains one after the other is running their concatenation |
| Wrapper.TrailingSwitchIgnored | core/src/main/java/com/ct/wrapper/AbstractWrapper.java:114-130 | a trailing `or()`/`and()` changes neither the specification nor the outcome |
| Wrapper.NestedAndTree | core/src/main/java/com/ct/wrapper/AbstractWrapper.java:48-55 | the documented `eq a, eq b, and(eq c, eq d)` chain builds the tree with every new term in front |
| Wrapper.NestedAndMeaning | core/src/main/java/com/ct/wrapper/AbstractWrapper.java:48-55 | that tree selects the rows passing all four tests, as the documentation says |
| Wrapper.NestedOrTree | core/src/main/java/com/ct/wrapper/AbstractWrapper.java:75-94 | the documented `eq a, eq b, or(eq c, eq d), or(eq f)` chain builds `f OR ((d AND c) OR (b AND a))`, each new term in front |
| Wrapper.NestedOrMeaning | core/src/main/java/com/ct/wrapper/AbstractWrapper.java:75-94 | that tree selects the rows passing `f`, or `c` and `d`, or `a` and `b`, not the "and f = 1" the documentation gives |
| Wrapper.AbstractWrapper.constructor | core/src/main/java/com/ct/wrapper/AbstractWrapper.java:30-37 | a new wrapper has operator AND and the specification that yields no predicate |
| Wrapper.AbstractWrapper.Get | core/src/main/java/com/ct/wrapper/AbstractWrapper.java:42-45 | returns the accumulated specification |
| Wrapper.AbstractWrapper.MergeSpecification | core/src/main/java/com/ct/wrapper/AbstractWrapper.java:318-322 | a null specification changes nothing; otherwise the field becomes `s OP spec`; the operator is untouched |
| Wrapper.AbstractWrapper.GetSpecification | core/src/main/java/com/ct/wrapper/AbstractWrapper.java:325-331 | returns the current specification for null, else `spec OP current` with the current operator, storing nothing |
| Wrapper.AbstractWrapper.Chain | core/src/main/java/com/ct/wrapper/AbstractWrapper.java:325-331 | the shape of every leaf method: a factory exception propagates and changes nothing; otherwise the built specification goes in front with the current operator |
| Wrapper.AbstractWrapper.Ge | core/src/main/java/com/ct/wrapper/AbstractWrapper.java:140-144 | the new fields and the outcome are those the wrapper's `Run` gives for `ge` |
| Wrapper.AbstractWrapper.Eq | core/src/main/java/com/ct/wrapper/AbstractWrapper.java:155-159 | the new fields and the outcome are those the wrapper's `Run` gives for `eq` |
| Wrapper.AbstractWrapper.NotEq | core/src/main/java/com/ct/wrapper/AbstractWrapper.java:166-170 | the new fields and the outcome are those the wrapper's `Run` gives for `notEq` |
| Wrapper.AbstractWrapper.Gt | core/src/main/java/com/ct/wrapper/AbstractWrapper.java:176-180 | the new fields and the outcome are those the wrapper's `Run` gives for `gt` |
| Wrapper.AbstractWrapper.Lt | core/src/main/java/com/ct/wrapper/AbstractWrapper.java:186-190 | the new fields and the outcome are those the wrapper's `Run` gives for `lt` |
| Wrapper.AbstractWrapper.Le | core/src/main/java/com/ct/wrapper/AbstractWrapper.java:196-200 | the new fields and the outcome are those the wrapper's `Run` gives for `le` |
| Wrapper.AbstractWrapper.AllLike | core/src/main/java/com/ct/wrapper/AbstractWrapper.java:206-210 | the new fields and the outcome are those the wrapper's `Run` gives for `allLike` |
| Wrapper.AbstractWrapper.RightLike | core/src/main/java/com/ct/wrapper/AbstractWrapper.java:216-220 | the new fields and the outcome are those the wrapper's `Run` gives for `rightLike` |
| Wrapper.AbstractWrapper.LeftLike | core/src/main/java/com/ct/wrapper/AbstractWrapper.java:226-230 | the new fields and the outcome are those the wrapper's `Run` gives for `leftLike` |
| Wrapper.AbstractWrapper.IsNull | core/src/main/java/com/ct/wrapper/AbstractWrapper.java:236-240 | the new fields and the outcome are those the wrapper's `Run` gives for `isNull` |
| Wrapper.AbstractWrapper.IsNotNull | core/src/main/java/com/ct/wrapper/AbstractWrapper.java:246-250 | the new fields and the outcome are those the wrapper's `Run` gives for `isNotNull` |
| Wrapper.AbstractWrapper.In | core/src/main/java/com/ct/wrapper/AbstractWrapper.java:257-261 | the new fields and the outcome are those the wrapper's `Run` gives for `in(field, collection)` |
| Wrapper.AbstractWrapper.NotIn | core/src/main/java/com/ct/wrapper/AbstractWrapper.java:268-272 | the new fields and the outcome are those the wrapper's `Run` gives for `notIn(field, collection)` |
| Wrapper.AbstractWrapper.InArray | core/src/main/java/com/ct/wrapper/AbstractWrapper.java:278-285 | the new fields and the outcome are those the wrapper's `Run` gives for varargs `in` |
| Wrapper.AbstractWrapper.NotInArray | core/src/main/java/com/ct/wrapper/AbstractWrapper.java:291-298 | the new fields and the outcome are those the wrapper's `Run` gives for varargs `notIn` |
| Wrapper.AbstractWrapper.Between | core/src/main/java/com/ct/wrapper/AbstractWrapper.java:300-307 | the new fields and the outcome are those the wrapper's `Run` gives for `between` |
| Wrapper.AbstractWrapper.NotBetween | core/src/main/java/com/ct/wrapper/AbstractWrapper.java:309-316 | the new fields and the outcome are those the wrapper's `Run` gives for `notBetween` |
| Wrapper.AbstractWrapper.And | core/src/main/java/com/ct/wrapper/AbstractWrapper.java:125-130 | the new fields are those the wrapper's `Run` gives for `and()` |
| Wrapper.AbstractWrapper.Or | core/src/main/java/com/ct/wrapper/AbstractWrapper.java:114-119 | the new fields are those the wrapper's `Run` gives for `or()` |
| Wrapper.AbstractWrapper.AndGroup | core/src/main/java/com/ct/wrapper/AbstractWrapper.java:59-65 | a fresh child runs the group; the new fields and the outcome are those `Run` gives for `and(consumer)` |
| Wrapper.AbstractWrapper.OrGroup | core/src/main/java/com/ct/wrapper/AbstractWrapper.java:88-94 | a fresh child runs the group; the new fields and the outcome are those `Run` gives for `or(consumer)` |
| Wrapper.AbstractWrapper.Perform | core/src/main/java/com/ct/wrapper/AbstractWrapper.java:23-24 | any single chain call leaves the fields and outcome `Run` gives for it |
| Wrapper.AbstractWrapper.Apply | core/src/main/java/com/ct/wrapper/AbstractWrapper.java:61-62 | `consumer.accept(child)`: the calls in order leave the fields `Run` gives for the whole chain |
| Agreement.LeafAgrees | core/src/main/java/com/ct/wrapper/AbstractWrapper.java:334-445 | on a portable leaf call both builders get the same leaf, or both throw |
| Agreement.StepMirror | core/src/main/java/com/ct/wrapper/AbstractWrapper.java:318-331 | one portable call keeps the wrapper's tree the mirror of the condition's, with equal operators |
| Agreement.RunMirror | core/src/main/java/com/ct/wrapper/AbstractWrapper.java:318-331 | over portable chains, groups included, the wrapper's tree is the mirror of the condition's, and one throws exactly when the other does |
| Agreement.SameRows | core/src/main/java/com/ct/condition/core/AbstractCondition.java:311-321 | from a fresh start both builders select the same rows for the same portable chain and end with the same operator |
| StringUtil.IsUpperCase | jpa-plus-core/src/main/java/com/ct/condition/core/StringUtil.java:17 | `Character.isUpperCase`, over ASCII letters |
| StringUtil.IsEmpty | jpa-plus-core/src/main/java/com/ct/condition/core/StringUtil.java:30-32 | `isEmpty`: null or of length 0 |
| StringUtil.ToLowerCase | jpa-plus-core/src/main/java/com/ct/condition/core/StringUtil.java:18 | an upper-case letter is mapped to its lower-case letter; any other character is kept |
| StringUtil.LowerFirst | jpa-plus-core/src/main/java/com/ct/condition/core/StringUtil.java:11-22 | null stays null; the length and every character after the first are kept; the first is lower-cased |
| StringUtil.LowerFirstKeepsLowered | core/src/main/java/com/ct/condition/core/StringUtil.java:15-21 | a string whose first character is not upper-case is returned as it is |
| StringUtil.LowerFirstIdempotent | core/src/main/java/com/ct/condition/core/StringUtil.java:11-22 | applying `lowerFirst` twice is applying it once |
| StringUtil.LowerFirstKeepsEmptiness | jpa-plus-core/src/main/java/com/ct/condition/core/StringUtil.java:30-32 | `isEmpty` holds after `lowerFirst` exactly when it held before |
| ColumnNames.ColumnNameWith | core/src/main/java/com/ct/wrapper/LambdaColumn.java:23-32 | `getX` and `isX` give `lowerFirst(X)`, with `get` tested first; any other name is kept |
| ColumnNames.FunctionToColumnName | core/src/main/java/com/ct/condition/core/LambdaColumnConverter.java:20-29 | the same three cases over StringUtil's `lowerFirst`; the result is never longer, and strictly shorter after a prefix |
| ColumnNames.ResolversAgree | core/src/main/java/com/ct/wrapper/LambdaColumn.java:25-31 | both resolvers give the same name once their `lowerFirst` agrees |
| ColumnNames.GetterRoundTrip | core/src/main/java/com/ct/condition/core/LambdaColumnConverter.java:22-25 | the getter name a field gets by the JavaBeans convention, `get` or `is`, resolves back to the field |
| ArrayUtil.ToArray | core/src/main/java/com/ct/wrapper/core/ArrayUtil.java:23-35 | null throws "Argument [arrayObj] is null !" and a non-array "Argument [arrayObj] is not array !"; an array gives a fresh array of the same length with the same elements, and the argument is unchanged |
| Bean.SuperBean.constructor | core/src/main/java/com/ct/bean/SuperBean.java:8-12 | a new bean has no key |
| Bean.SuperBean.GetId | core/src/main/java/com/ct/bean/SuperBean.java:14-16 | returns the key |
| Bean.SuperBean.SetId | core/src/main/java/com/ct/bean/SuperBean.java:18-20 | the key becomes the argument |
| Bean.SuperBean.HashCode | core/src/main/java/com/ct/bean/SuperBean.java:22-25 | 0 for a bean without key, otherwise the hash of the key |
| Bean.SuperBean.Equals | core/src/main/java/com/ct/bean/SuperBean.java:27-62 | a bean equals itself; never null or another class; never another bean when either key is null; otherwise exactly when the keys are equal |
| Bean.EqualsSymmetric | core/src/main/java/com/ct/bean/SuperBean.java:27-62 | `equals` is symmetric |
| Bean.EqualsTransitive | core/src/main/java/com/ct/bean/SuperBean.java:27-62 | `equals` is transitive |
| Bean.EqualBeansEqualHashes | core/src/main/java/com/ct/bean/SuperBean.java:22-62 | equal beans have equal hash codes, whatever the key type's hash |
| Bean.NoKeyNoPeer | core/src/main/java/com/ct/bean/SuperBean.java:41-45 | a bean whose key is null equals no other bean, even one of its class without a key |
| ServiceUnique.JavaWhitespace | core/src/main/java/com/ct/core/BaseService.java:370 | `Character.isWhitespace`: the ASCII controls tab to carriage return, the separators FS to US, and the space, line and paragraph separators other than the non-breaking ones |
| ServiceUnique.IsNotBlank | core/src/main/java/com/ct/core/BaseService.java:370 | `StringUtils.isNotBlank` of a non-null string: some character is not whitespace |
| ServiceUnique.NonNullIds | core/src/main/java/com/ct/core/BaseService.java:292 | the id set holds exactly the non-null excluded ids |
| ServiceUnique.Outside | core/src/main/java/com/ct/core/BaseService.java:293 | the filtered list holds exactly the records whose key is null or not excluded |
| ServiceUnique.IsUnique | core/src/main/java/com/ct/core/BaseService.java:272-300 | a null or empty value is unique; otherwise unique exactly when every matching record has a non-null key among the excluded ids |
| ServiceUnique.OnlySelfMatches | core/src/main/java/com/ct/core/BaseService.java:380 | excluding only the entity's own key, a non-empty value is unique exactly when every match is that entity; without a key, only when nothing matches |
| ServiceUnique.CheckBatchDuplicates | core/src/main/java/com/ct/core/BaseService.java:349-374 | without unique checking nothing is checked; otherwise the scan completes exactly when no visit reads a missing property or a value remembered earlier under the same field name, and it throws with the message of the first such visit |
| ServiceUnique.CheckEntity | core/src/main/java/com/ct/core/BaseService.java:356-373 | the loop over one entity's unique fields throws at the first of its visits that throws and otherwise keeps the remembered values exact |
| ServiceUnique.BadLast | core/src/main/java/com/ct/core/BaseService.java:358-368 | a visit throws exactly when its property is missing or its non-null value is already remembered under its name |
| ServiceUnique.SeenGrows | core/src/main/java/com/ct/core/BaseService.java:360-372 | a visit adds its field name to the map, and its value only when it is non-null and not blank |
| ServiceUnique.DuplicateThrows | core/src/main/java/com/ct/core/BaseService.java:355-368 | two entities holding the same non-null, non-blank value in a unique field make the scan throw |
| ServiceUnique.BlankNeverClashes | core/src/main/java/com/ct/core/BaseService.java:369-372 | a null or blank value never throws for being repeated |
| ServiceSql.InsertSql | core/src/main/java/com/ct/core/BaseService.java:425-449 | the closed form of the batch INSERT: table, the non-id columns, and one `?` per field but the first, comma-separated |
| ServiceSql.UpsertSql | core/src/main/java/com/ct/core/BaseService.java:451-491 | the closed form of the upsert: every column, one `?` per field, and `col=values(col)` for every field |
| ServiceSql.InsertOmitsId | core/src/main/java/com/ct/core/BaseService.java:430-438 | the insert lists exactly the quoted columns of the fields not named "id" |
| ServiceSql.AppendInsertColumns | core/src/main/java/com/ct/core/BaseService.java:430-438 | the loop appends each non-id column, quoted and followed by "," |
| ServiceSql.AppendMarks | core/src/main/java/com/ct/core/BaseService.java:441-446 | the loop from `from` to `size` appends the comma-separated "?" for each round |
| ServiceSql.DropTrailingComma | core/src/main/java/com/ct/core/BaseService.java:439 | `deleteCharAt` removes the last ","; with no column it removes the "(" |
| ServiceSql.GetBatchInsertSql | core/src/main/java/com/ct/core/BaseService.java:425-449 | the statement is `INSERT INTO t (cols) VALUES (?,...)`, with the non-id columns and one placeholder per field but the first |
| ServiceSql.InsertColumnsAlign | core/src/main/java/com/ct/core/BaseService.java:430-446 | with the id first and only there, there is one placeholder per column, and column `k-1` is that of field `k` |
| ServiceSql.InsertIsUpsertWithoutId | core/src/main/java/com/ct/core/BaseService.java:425-491 | with the id first and only there, the insert names the upsert's columns but the id's, in order, with one placeholder fewer |
| ServiceSql.AppendUpsertColumns | core/src/main/java/com/ct/core/BaseService.java:456-468 | a relationship field anywhere throws the "不支持字段..." message; otherwise each column is appended quoted and followed by "," |
| ServiceSql.AppendAssignments | core/src/main/java/com/ct/core/BaseService.java:479-489 | appends `col=values(col)` for every field, comma-separated |
| ServiceSql.GetBatchUpdateSql | core/src/main/java/com/ct/core/BaseService.java:451-491 | throws exactly when a field has a relationship annotation; otherwise every column, one placeholder per field and an update of every column from its inserted value |
| ServiceSql.SetPreparedStatement | core/src/main/java/com/ct/core/BaseService.java:404-422 | for `n` values, exactly parameters 1..n-1 are bound for an insert and 1..n for an upsert; an insert binds parameter `k` to field `k` (the id skipped), an upsert binds `k` to field `k-1` |
| ServiceSql.InsertMarks | core/src/main/java/com/ct/core/BaseService.java:425-449 | with no `?` in the table or column names, the INSERT text holds one `?` mark per field but the first |
| ServiceSql.UpsertMarks | core/src/main/java/com/ct/core/BaseService.java:451-491 | with no `?` in the table or column names, the upsert text holds one `?` mark per field |
| ServiceSql.InsertBindingsFill | core/src/main/java/com/ct/core/BaseService.java:404-491 | the `?` marks counted in each statement's text are exactly the parameters `setPreparedStatement` binds for a row of its fields |
| ServiceSql.Update | core/src/main/java/com/ct/core/BaseService.java:213-218 | a null or empty attribute map updates nothing and returns 0; otherwise the update count |
| ServiceSql.BatchInsert | core/src/main/java/com/ct/core/BaseService.java:397-402 | an empty list runs nothing; otherwise the insert statement for every entity |
| ServiceSql.BatchInsertOnDuplicateKeyUpdate | core/src/main/java/com/ct/core/BaseService.java:498-503 | an empty list runs nothing, even with relationship fields; otherwise the upsert for every entity, or the builder's exception |

## Left out

- Evaluation by JPA: leaf truth is a parameter (`LeafTruth`) of `Specs.Eval`. `cb.like`, `path.in` and the `(Comparable)` casts of the comparison lambdas are not modelled, nor is `root.get` failing for an unknown attribute. Nor is what the persistence layer does with the one-element list `Arrays.asList(Object)` builds for the wrapper's varargs IN. The cast in the wrapper's range lambdas is modelled: it throws (`Wrapper.BetweenSpec`).
- Exception classes: an `Outcome` or `Err` carries only the message. An IllegalArgumentException (AbstractCondition.java:274), a BaseRuntimeException (AbstractWrapper.java:281), a JpaMinusException and the JDK's NullPointerException or ClassCastException are told apart only by their text; `Specs.Eval`'s `Raises` carries no message at all.
- Lambda reflection: `LambdaUtils.extractLambdaFunctionName` and the serialized lambda. The accessor method name is an input of `ColumnNames`.
- com.ct.util.StringUtil (LambdaColumn's `lowerFirst` and `toFirstSplitWithUpperCase`) is not part of this model. They are the parameters `lowerFirst` and `toColumn`.
- `columnToString` and `instance()` are not modelled separately. They are the cast of the field argument and the fresh child the group methods create.
- `StringUtil.ToLowerCase`: `Character.isUpperCase` and `toLowerCase` are modelled over ASCII only.
- `Bean.SuperBean.Equals`: the key type's `equals` is Dafny equality. The reference test `id == objId` is merged with `equals`; for non-null keys this matches whenever the key type's `equals` is consistent with identity.
- `Bean.SuperBean.HashCode`: the key type's `hashCode` is the parameter `idHash`.
- `ArrayUtil.ToArray`: `getComponentType` and `Array.newInstance` are modelled by allocating an array of the same element type. Primitive arrays, which fail the `Object[]` cast, are not distinguished.
- BaseService's repository and JDBC calls: `findAll`, `executeNativeSql`, `updateBySpecification`, `batchExecute` and `jdbcTemplate.batchUpdate`. What they would return is an input. The repository's matches are given to `IsUnique` as their primary keys, and `updateBySpecification` is a parameter of `Update`.
- The single-entity `validateUniqueBeforeSave(T)` (BaseService.java:324-340) and the second phase of the batch check (BaseService.java:375-384) only call `isUnique` against the database. An entity's decision is `IsUnique` itself, so no loop of their own is modelled.
- `getUniqueMessage` and I18N messages: each unique field carries its resolved message.
- `PropertyUtils.getProperty`: its exceptions are modelled as one `NoSuchMethodException` message for a missing property. `IllegalAccessException` and `InvocationTargetException` from a getter are not modelled, and neither is `field.get` failing in `setPreparedStatement`.
- `BeanInfo`'s field discovery and annotations: table fields are a list of names with a relationship flag.
- `volatile` on the operator, and concurrency in general: each builder is used by one thread.
- A null varargs array or a null bound array throws a NullPointerException in Java. It is not modelled: the varargs argument is a sequence.
- `Agreement.SameRows`: it covers only chains without varargs `in`/`notIn` and `between`/`notBetween`. There the two builders really differ. The two factories' null-field messages also differ ("fieldName cannot null" against "filedName cannot null"), so agreement is stated on whether they throw, not on the message.
