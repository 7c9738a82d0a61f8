/**
 * The uniqueness checks of com.ct.core.BaseService: the decision `isUnique`
 * takes once the repository has answered, and the in-batch duplicate scan
 * that `validateUniqueBeforeSave(Iterable)` runs before any query. Records
 * are seen through their primary keys (`RDBUtil.getPKVal`), entities through
 * their property values (`PropertyUtils.getProperty`).
 */
module ServiceUnique {
  import opened Common

  /** `Character.isWhitespace`. */
  predicate JavaWhitespace(c: char)
  {
    // the ASCII controls \t \n VT \f \r and the separators FS GS RS US
    ('\t' <= c <= '\r') || ('\U{1C}' <= c <= '\U{1F}') ||
    // the space separators other than the non-breaking ones, and the line and paragraph separators
    c == ' ' || c == '\U{1680}' || ('\U{2000}' <= c <= '\U{2006}') || ('\U{2008}' <= c <= '\U{200A}') ||
    c == '\U{2028}' || c == '\U{2029}' || c == '\U{205F}' || c == '\U{3000}'
  }

  /** commons-lang3 `StringUtils.isNotBlank` of a non-null string. */
  predicate IsNotBlank(s: string)
  {
    exists i :: 0 <= i < |s| && !JavaWhitespace(s[i])
  }

  // ---------------------------------------------------------------------
  // isUnique
  // ---------------------------------------------------------------------

  /** `Arrays.stream(excludeIds).filter(Objects::nonNull)`, order kept. */
  function NonNullIds<K(==,!new)>(ids: seq<Option<K>>): (r: seq<K>)
    ensures forall k :: k in r <==> Some(k) in ids
  {
    if ids == [] then []
    else (if ids[0].Some? then [ids[0].value] else []) + NonNullIds(ids[1..])
  }

  /** `resultList.stream().filter(e -> !idSet.contains(getPKVal(e)))`; a null key is never in the set. */
  function Outside<K(==,!new)>(keys: seq<Option<K>>, idSet: set<K>): (r: seq<Option<K>>)
    ensures forall x :: x in r <==> x in keys && (x.None? || x.value !in idSet)
  {
    if keys == [] then []
    else (if keys[0].None? || keys[0].value !in idSet then [keys[0]] else []) + Outside(keys[1..], idSet)
  }

  /**
   * `isUnique(fieldName, val, excludeIds...)`. `valText` is `val.toString()`
   * (None for a null `val`); `found` is the primary keys of the records the
   * repository returned for `fieldName = val` (None for a null list).
   * The answer is true exactly when the value is null or empty, or every
   * matching record is one of the excluded ids.
   */
  function IsUnique<K(==,!new)>(valText: Option<string>, found: Option<seq<Option<K>>>, excludeIds: Option<seq<Option<K>>>): (b: bool)
    ensures valText.None? || valText == Some("") ==> b
    ensures valText.Some? && valText != Some("") ==>
              (b <==> forall x :: x in Matches(found) ==> x.Some? && x in Excludes(excludeIds))
  {
    if valText.None? || |valText.value| == 0 then true
    else if found.None? || |found.value| == 0 then true
    else if excludeIds.None? || |excludeIds.value| == 0 || |NonNullIds(excludeIds.value)| == 0 then
      assert found.value[0] in Matches(found);
      false
    else
      var idSet := set k | k in NonNullIds(excludeIds.value);
      var filterList := Outside(found.value, idSet);
      assert forall x :: x in Matches(found) && x.Some? ==> (x in Excludes(excludeIds) <==> x.value in idSet);
      if |filterList| > 0 then
        assert filterList[0] in Matches(found);
        false
      else true
  }

  function Matches<K(==,!new)>(found: Option<seq<Option<K>>>): seq<Option<K>>
  {
    if found.None? then [] else found.value
  }

  function Excludes<K(==,!new)>(excludeIds: Option<seq<Option<K>>>): seq<Option<K>>
  {
    if excludeIds.None? then [] else excludeIds.value
  }

  /**
   * As `validateUniqueBeforeSave` calls it, excluding only the entity's own
   * key `pk`: a non-empty value is unique exactly when every record holding
   * it is that entity; an entity without a key clashes with any match.
   */
  lemma OnlySelfMatches<K(!new)>(valText: string, found: seq<Option<K>>, pk: Option<K>)
    requires valText != ""
    ensures IsUnique(Some(valText), Some(found), Some([pk])) <==> (forall x :: x in found ==> x.Some? && x == pk)
    ensures pk.None? ==> (IsUnique(Some(valText), Some(found), Some([pk])) <==> found == [])
  {
    if pk.None? && found != [] {
      assert found[0] in found;
    }
  }

  // ---------------------------------------------------------------------
  // validateUniqueBeforeSave(Iterable): the in-batch duplicate scan
  // ---------------------------------------------------------------------

  /** An `@Unique` field: its name and the message `getUniqueMessage` resolves for it. */
  datatype UniqueField = UniqueField(name: string, message: string)

  /** An entity as its readable properties; a property's value may be null. */
  type Entity<V> = map<string, Option<V>>

  /** `PropertyUtils.getProperty`: a value, or no such property (NoSuchMethodException). */
  datatype Prop<V> = Missing | Got(val: Option<V>)

  /** The message a `BaseRuntimeException` wrapping a reflection failure carries here. */
  const NO_SUCH_PROPERTY: string := "NoSuchMethodException"

  function PropOf<V(==,!new)>(e: Entity<V>, name: string): Prop<V>
  {
    if name in e then Got(e[name]) else Missing
  }

  /** One visit of the scan: a unique field of one entity and what reading it gave. */
  datatype Step<V> = Step(field: UniqueField, prop: Prop<V>)

  /** The visits for one entity, in the order of the unique fields. */
  function Row<V(==,!new)>(e: Entity<V>, fields: seq<UniqueField>): (r: seq<Step<V>>)
    ensures |r| == |fields|
    ensures forall j :: 0 <= j < |fields| ==> r[j] == Step(fields[j], PropOf(e, fields[j].name))
  {
    seq(|fields|, j requires 0 <= j < |fields| => Step(fields[j], PropOf(e, fields[j].name)))
  }

  /** All visits: entity by entity, each entity field by field. */
  function Steps<V(==,!new)>(entities: seq<Entity<V>>, fields: seq<UniqueField>): (r: seq<Step<V>>)
  {
    if entities == [] then []
    else Steps(entities[..|entities| - 1], fields) + Row(entities[|entities| - 1], fields)
  }

  /** Only non-null, non-blank values are remembered. */
  predicate Recorded<V(==,!new)>(s: Step<V>, text: V -> string)
  {
    s.prop.Got? && s.prop.val.Some? && IsNotBlank(text(s.prop.val.value))
  }

  /**
   * Visit `q` throws: its property cannot be read, or an earlier visit of a
   * field of the same name remembered the value it reads.
   */
  predicate Bad<V(==,!new)>(S: seq<Step<V>>, q: int, text: V -> string)
    requires 0 <= q < |S|
  {
    S[q].prop.Missing? ||
    exists p :: 0 <= p < q && S[p].field.name == S[q].field.name && Recorded(S[p], text) && S[p].prop == S[q].prop
  }

  predicate NoBad<V(==,!new)>(S: seq<Step<V>>, text: V -> string)
  {
    forall q :: 0 <= q < |S| ==> !Bad(S, q, text)
  }

  /** `q` is the first visit that throws. */
  predicate FirstBad<V(==,!new)>(S: seq<Step<V>>, q: int, text: V -> string)
  {
    0 <= q < |S| && Bad(S, q, text) && forall p :: 0 <= p < q ==> !Bad(S, p, text)
  }

  /** The exception a throwing visit raises. */
  function MessageOf<V(==,!new)>(s: Step<V>): string
  {
    if s.prop.Missing? then NO_SUCH_PROPERTY else s.field.message
  }

  /** The names the scan has put into `fieldValueSetMap` after the visits `S`. */
  function SeenNames<V(==,!new)>(S: seq<Step<V>>): set<string>
  {
    set p | 0 <= p < |S| :: S[p].field.name
  }

  /** The values remembered under `name` after the visits `S`. */
  function SeenValues<V(==,!new)>(S: seq<Step<V>>, name: string, text: V -> string): set<V>
  {
    set p | 0 <= p < |S| && S[p].field.name == name && Recorded(S[p], text) :: S[p].prop.val.value
  }

  /** `fieldValueSetMap` is exactly what the visits `S` put into it. */
  predicate Tracks<V(==,!new)>(seen: map<string, set<V>>, S: seq<Step<V>>, text: V -> string)
  {
    seen.Keys == SeenNames(S) &&
    forall n :: n in seen ==> seen[n] == SeenValues(S, n, text)
  }

  /** Remembering one more visit. */
  lemma SeenGrows<V(!new)>(S: seq<Step<V>>, s: Step<V>, text: V -> string)
    ensures SeenNames(S + [s]) == SeenNames(S) + {s.field.name}
    ensures forall n :: SeenValues(S + [s], n, text) ==
              SeenValues(S, n, text) + (if s.field.name == n && Recorded(s, text) then {s.prop.val.value} else {})
  {
    var T := S + [s];
    assert forall p :: 0 <= p < |S| ==> T[p] == S[p];
    assert T[|S|] == s;
    forall n
      ensures SeenValues(T, n, text) ==
              SeenValues(S, n, text) + (if s.field.name == n && Recorded(s, text) then {s.prop.val.value} else {})
    {
    }
  }

  /** A visit throws exactly when its property is missing or its value is already remembered under its name. */
  lemma BadLast<V(!new)>(S: seq<Step<V>>, s: Step<V>, text: V -> string)
    ensures Bad(S + [s], |S|, text) <==>
              s.prop.Missing? || (s.prop.val.Some? && s.prop.val.value in SeenValues(S, s.field.name, text))
  {
    var T := S + [s];
    assert forall p :: 0 <= p < |S| ==> T[p] == S[p];
    if s.prop.Got? && s.prop.val.Some? && s.prop.val.value in SeenValues(S, s.field.name, text) {
      var p :| 0 <= p < |S| && S[p].field.name == s.field.name && Recorded(S[p], text) && S[p].prop.val.value == s.prop.val.value;
      assert T[p].prop == s.prop;
    }
  }

  /** Whether a visit throws depends only on the visits up to it. */
  lemma BadPrefix<V(!new)>(S: seq<Step<V>>, T: seq<Step<V>>, q: int, text: V -> string)
    requires 0 <= q < |S| && |S| <= |T| && S == T[..|S|]
    ensures Bad(S, q, text) <==> Bad(T, q, text)
  {
    assert forall p :: 0 <= p <= q ==> S[p] == T[p];
  }

  /** One more entity adds its row. */
  lemma StepsExtend<V(!new)>(entities: seq<Entity<V>>, fields: seq<UniqueField>, i: nat)
    requires i < |entities|
    ensures Steps(entities[..i + 1], fields) == Steps(entities[..i], fields) + Row(entities[i], fields)
  {
    assert entities[..i + 1][..i] == entities[..i];
  }

  /** The visits of the first `i` entities start all visits. */
  lemma {:induction false} StepsStart<V(!new)>(entities: seq<Entity<V>>, fields: seq<UniqueField>, i: nat)
    requires i <= |entities|
    ensures |Steps(entities[..i], fields)| <= |Steps(entities, fields)|
    ensures Steps(entities[..i], fields) == Steps(entities, fields)[..|Steps(entities[..i], fields)|]
    decreases |entities| - i
  {
    if i < |entities| {
      StepsStart(entities, fields, i + 1);
      StepsExtend(entities, fields, i);
    } else {
      assert entities[..i] == entities;
    }
  }

  /**
   * The first loop of `validateUniqueBeforeSave(Iterable)`. Without unique
   * fields nothing is checked. Otherwise the scan throws at the first visit
   * that reads a missing property or a value already remembered for that field
   * name (with that field's message), and completes when there is none.
   */
  method CheckBatchDuplicates<V(==,!new)>(isCheckUnique: bool, entities: seq<Entity<V>>, fields: seq<UniqueField>, text: V -> string)
    returns (o: Outcome)
    ensures !isCheckUnique ==> o == Pass
    ensures isCheckUnique ==> (o == Pass <==> NoBad(Steps(entities, fields), text))
    ensures isCheckUnique && o.Fail? ==>
              exists q :: FirstBad(Steps(entities, fields), q, text) && o.msg == MessageOf(Steps(entities, fields)[q])
  {
    if !isCheckUnique {
      return Pass;
    }
    var fieldValueSetMap: map<string, set<V>> := map[];
    ghost var done: seq<Step<V>> := [];
    var i := 0;
    while i < |entities|
      invariant 0 <= i <= |entities|
      invariant done == Steps(entities[..i], fields)
      invariant NoBad(done, text)
      invariant Tracks(fieldValueSetMap, done, text)
    {
      StepsExtend(entities, fields, i);
      StepsStart(entities, fields, i + 1);
      var r, after := CheckEntity(entities[i], fields, text, fieldValueSetMap, done);
      if r.Fail? {
        ghost var upto := done + Row(entities[i], fields);
        ghost var q :| FirstBad(upto, q, text) && r.msg == MessageOf(upto[q]);
        FirstBadExtends(upto, Steps(entities, fields), q, text);
        return r;
      }
      fieldValueSetMap := after;
      done := done + Row(entities[i], fields);
      i := i + 1;
    }
    assert entities[..i] == entities;
    return Pass;
  }

  /**
   * The inner loop, over the unique fields of one entity `t`, after the
   * visits `done`: it throws at the first of its visits that throws, and
   * otherwise leaves the map tracking all visits so far.
   */
  method CheckEntity<V(==,!new)>(t: Entity<V>, fields: seq<UniqueField>, text: V -> string,
                                 seen: map<string, set<V>>, ghost done: seq<Step<V>>)
    returns (o: Outcome, after: map<string, set<V>>)
    requires NoBad(done, text) && Tracks(seen, done, text)
    ensures o.Pass? ==> NoBad(done + Row(t, fields), text) && Tracks(after, done + Row(t, fields), text)
    ensures o.Fail? ==>
              exists q :: FirstBad(done + Row(t, fields), q, text) && o.msg == MessageOf((done + Row(t, fields))[q])
  {
    after := seen;
    ghost var whole := done + Row(t, fields);
    ghost var cur := done;
    var j := 0;
    assert fields[..0] == [];
    while j < |fields|
      invariant 0 <= j <= |fields|
      invariant cur == done + Row(t, fields[..j])
      invariant NoBad(cur, text)
      invariant Tracks(after, cur, text)
    {
      var f := fields[j];
      ghost var s := Step(f, PropOf(t, f.name));
      ghost var before := after;
      assert Row(t, fields[..j + 1]) == Row(t, fields[..j]) + [s];
      RowPrefix(done, t, fields, j + 1);
      BadLast(cur, s, text);
      if f.name !in t {
        Stop(cur, s, whole, text, NO_SUCH_PROPERTY);
        return Fail(NO_SUCH_PROPERTY), after;
      }
      var val := t[f.name];
      if f.name !in after {
        after := after[f.name := {}];
      } else if val.Some? && val.value in after[f.name] {
        // `valueSet.contains(val)`: a null is never remembered
        Stop(cur, s, whole, text, f.message);
        return Fail(f.message), after;
      }
      if val.Some? && IsNotBlank(text(val.value)) {
        after := after[f.name := after[f.name] + {val.value}];
      }
      assert after == Remember(before, s, text);
      Continue(before, cur, s, text);
      cur := cur + [s];
      j := j + 1;
    }
    assert fields[..j] == fields;
    return Pass, after;
  }

  /** The visits `done` and then the first `j` fields of `t` start the visits `done` and all of `t`. */
  lemma RowPrefix<V(!new)>(done: seq<Step<V>>, t: Entity<V>, fields: seq<UniqueField>, j: nat)
    requires j <= |fields|
    ensures var D := done + Row(t, fields[..j]);
            |D| <= |done + Row(t, fields)| && D == (done + Row(t, fields))[..|D|]
  {
    assert Row(t, fields[..j]) == Row(t, fields)[..j];
  }

  /** The first throwing visit of a prefix is the first throwing visit of the whole. */
  lemma FirstBadExtends<V(!new)>(D: seq<Step<V>>, S: seq<Step<V>>, q: int, text: V -> string)
    requires FirstBad(D, q, text) && |D| <= |S| && D == S[..|D|]
    ensures FirstBad(S, q, text) && S[q] == D[q]
  {
    BadPrefix(D, S, q, text);
    forall p | 0 <= p < q
      ensures !Bad(S, p, text)
    {
      BadPrefix(D, S, p, text);
    }
  }

  /** `fieldValueSetMap` after a visit that does not throw. */
  function Remember<V(==,!new)>(seen: map<string, set<V>>, s: Step<V>, text: V -> string): map<string, set<V>>
    requires s.prop.Got?
  {
    var base := if s.field.name in seen then seen else seen[s.field.name := {}];
    if Recorded(s, text) then base[s.field.name := base[s.field.name] + {s.prop.val.value}] else base
  }

  /** A visit that does not throw keeps the map tracking the visits and adds no throwing visit. */
  lemma Continue<V(!new)>(seen: map<string, set<V>>, done: seq<Step<V>>, s: Step<V>, text: V -> string)
    requires Tracks(seen, done, text) && NoBad(done, text)
    requires s.prop.Got? && !Bad(done + [s], |done|, text)
    ensures Tracks(Remember(seen, s, text), done + [s], text)
    ensures NoBad(done + [s], text)
  {
    SeenGrows(done, s, text);
    forall q | 0 <= q < |done| {
      BadPrefix(done, done + [s], q, text);
    }
  }

  /** A throwing next visit is the first one of all visits `T` that throws, and raises `msg`. */
  lemma Stop<V(!new)>(done: seq<Step<V>>, s: Step<V>, T: seq<Step<V>>, text: V -> string, msg: string)
    requires NoBad(done, text) && Bad(done + [s], |done|, text) && msg == MessageOf(s)
    requires |done + [s]| <= |T| && done + [s] == T[..|done| + 1]
    ensures FirstBad(T, |done|, text) && msg == MessageOf(T[|done|])
  {
    var D := done + [s];
    assert D[|done|] == s;
    BadPrefix(D, T, |done|, text);
    forall p | 0 <= p < |done|
      ensures !Bad(T, p, text)
    {
      BadPrefix(done, D, p, text);
      BadPrefix(D, T, p, text);
    }
  }

  /** Visit `(i, j)` comes right after the visits of the first `i` entities and `j` earlier fields of entity `i`. */
  lemma StepAt<V(!new)>(entities: seq<Entity<V>>, fields: seq<UniqueField>, i: nat, j: nat)
    requires i < |entities| && j < |fields|
    ensures |Steps(entities[..i], fields)| + j < |Steps(entities[..i + 1], fields)| <= |Steps(entities, fields)|
    ensures Steps(entities, fields)[|Steps(entities[..i], fields)| + j] == Step(fields[j], PropOf(entities[i], fields[j].name))
  {
    StepsStart(entities, fields, i + 1);
    StepsExtend(entities, fields, i);
  }

  /**
   * Two entities holding the same non-null, non-blank value in a unique
   * field make the scan throw.
   */
  lemma DuplicateThrows<V(!new)>(entities: seq<Entity<V>>, fields: seq<UniqueField>, i1: nat, i2: nat, j: nat, text: V -> string)
    requires i1 < i2 < |entities| && j < |fields|
    requires fields[j].name in entities[i1] && fields[j].name in entities[i2]
    requires entities[i1][fields[j].name] == entities[i2][fields[j].name]
    requires entities[i1][fields[j].name].Some? && IsNotBlank(text(entities[i1][fields[j].name].value))
    ensures exists q :: 0 <= q < |Steps(entities, fields)| && Bad(Steps(entities, fields), q, text)
  {
    StepAt(entities, fields, i1, j);
    StepAt(entities, fields, i2, j);
    var prefix := entities[..i2];
    StepsStart(prefix, fields, i1 + 1);
    assert prefix[..i1 + 1] == entities[..i1 + 1];
    var S := Steps(entities, fields);
    var p := |Steps(entities[..i1], fields)| + j;
    assert Recorded(S[p], text);
    assert Bad(S, |Steps(entities[..i2], fields)| + j, text);
  }

  /** A null or blank value never throws for being repeated. */
  lemma BlankNeverClashes<V(!new)>(S: seq<Step<V>>, q: int, text: V -> string)
    requires 0 <= q < |S| && S[q].prop.Got? && !(S[q].prop.val.Some? && IsNotBlank(text(S[q].prop.val.value)))
    ensures !Bad(S, q, text)
  {
  }
}
