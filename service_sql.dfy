/**
 * The JDBC batch statements of com.ct.core.BaseService: the INSERT and
 * INSERT ... ON DUPLICATE KEY UPDATE strings built in a `StringBuilder`,
 * the parameter indexes `setPreparedStatement` binds, and the guards that
 * skip the work for empty input. `toColumn` stands for
 * `StringUtil.toFirstSplitWithUpperCase(name, '_')`, whose definition is
 * not part of this model.
 */
module ServiceSql {
  import opened Common

  /** A table field of `BeanInfo.tableFields`; `relation` marks @OneToMany, @ManyToMany, @OneToOne or @ManyToOne. */
  datatype TableField = TableField(name: string, relation: bool)

  const RELATION_UNSUPPORTED: string := "不支持字段上存在注解@OneToMany、@ManyToMany、@OneToOne、@ManyToOne的批量插入"

  // ---------------------------------------------------------------------
  // Text helpers
  // ---------------------------------------------------------------------

  /** The items, `sep` between each two. */
  function Join(items: seq<string>, sep: string): string
  {
    if |items| == 0 then ""
    else if |items| == 1 then items[0]
    else items[0] + sep + Join(items[1..], sep)
  }

  lemma {:induction false} JoinSnoc(items: seq<string>, x: string, sep: string)
    ensures Join(items + [x], sep) == if items == [] then x else Join(items, sep) + sep + x
    decreases |items|
  {
    if |items| == 1 {
      assert items + [x] == [items[0], x];
      assert [items[0], x][1..] == [x];
    } else if |items| > 1 {
      assert (items + [x])[1..] == items[1..] + [x];
      JoinSnoc(items[1..], x, sep);
    }
  }

  /** Each item followed by a ",", as the column loops append them. */
  function Suffixed(items: seq<string>): string
  {
    if items == [] then "" else Suffixed(items[..|items| - 1]) + items[|items| - 1] + ","
  }

  /** Dropping the last "," of the suffixed columns leaves them comma-separated. */
  lemma {:induction false} SuffixedJoin(items: seq<string>)
    requires items != []
    ensures Suffixed(items) == Join(items, ",") + ","
    decreases |items|
  {
    var init := items[..|items| - 1];
    var last := items[|items| - 1];
    assert items == init + [last];
    assert Suffixed(items) == Suffixed(init) + last + ",";
    JoinSnoc(init, last, ",");
    if init != [] {
      SuffixedJoin(init);
      assert Join(items, ",") == Join(init, ",") + "," + last;
      Assoc4(Join(init, ","), ",", last, ",", "");
    } else {
      assert Join(items, ",") == last;
    }
  }

  /** What a `for` loop that appends item `i` and then "," unless `i` is the last has emitted after `c` items. */
  function Emitted(items: seq<string>, c: nat): string
    requires c <= |items|
  {
    Join(items[..c], ",") + (if 0 < c < |items| then "," else "")
  }

  lemma EmittedStep(items: seq<string>, c: nat)
    requires c < |items|
    ensures Emitted(items, c + 1) == Emitted(items, c) + items[c] + (if c + 1 != |items| then "," else "")
  {
    assert items[..c + 1] == items[..c] + [items[c]];
    JoinSnoc(items[..c], items[c], ",");
  }

  lemma EmittedAll(items: seq<string>)
    ensures Emitted(items, |items|) == Join(items, ",")
  {
    assert items[..|items|] == items;
  }

  function Quote(column: string): string
  {
    "`" + column + "`"
  }

  /** `n` placeholders. */
  function Marks(n: nat): (r: seq<string>)
    ensures |r| == n && forall i :: 0 <= i < n ==> r[i] == "?"
  {
    seq(n, _ => "?")
  }

  /**
   * The column list: ` (` and the columns, or, with no column at all, the
   * ` (` whose `(` `deleteCharAt` removes in place of the missing trailing ",".
   */
  function ColumnList(columns: seq<string>): string
  {
    if columns == [] then " " else " (" + Join(columns, ",")
  }

  // ---------------------------------------------------------------------
  // getBatchInsertSql
  // ---------------------------------------------------------------------

  /** The insert columns: every field not named "id", quoted, in order. */
  function InsertColumns(fields: seq<TableField>, toColumn: string -> string): (r: seq<string>)
    ensures |r| <= |fields|
  {
    if fields == [] then []
    else
      var init := fields[..|fields| - 1];
      var last := fields[|fields| - 1];
      assert fields == init + [last];
      InsertColumns(init, toColumn) + (if last.name != "id" then [Quote(toColumn(last.name))] else [])
  }

  /** The insert lists exactly the columns of the fields not named "id". */
  lemma {:induction false} InsertOmitsId(fields: seq<TableField>, toColumn: string -> string)
    ensures forall c :: c in InsertColumns(fields, toColumn) <==>
              exists f :: f in fields && f.name != "id" && c == Quote(toColumn(f.name))
    decreases |fields|
  {
    if fields != [] {
      var init := fields[..|fields| - 1];
      assert fields == init + [fields[|fields| - 1]];
      InsertOmitsId(init, toColumn);
    }
  }

  /** The placeholders of the insert: one per table field but the first (the id). */
  function InsertPlaceholders(fields: seq<TableField>): nat
  {
    if |fields| == 0 then 0 else |fields| - 1
  }

  function InsertSql(tableName: string, fields: seq<TableField>, toColumn: string -> string): string
  {
    "INSERT INTO " + tableName + ColumnList(InsertColumns(fields, toColumn)) +
    ") VALUES (" + Join(Marks(InsertPlaceholders(fields)), ",") + ")"
  }

  lemma Assoc(a: string, b: string, c: string)
    ensures (a + b) + c == a + (b + c)
  {
  }

  lemma Assoc4(a: string, w: string, x: string, y: string, z: string)
    ensures a + w + x + y + z == a + (w + x + y + z)
  {
  }

  lemma Assoc5(a: string, v: string, w: string, x: string, y: string, z: string)
    ensures a + v + w + x + y + z == a + (v + w + x + y + z)
  {
  }

  lemma SuffixedSnoc(items: seq<string>, x: string)
    ensures Suffixed(items + [x]) == Suffixed(items) + (x + ",")
  {
    assert (items + [x])[..|items|] == items;
  }

  lemma InsertColumnsStep(fields: seq<TableField>, j: nat, toColumn: string -> string)
    requires j < |fields|
    ensures InsertColumns(fields[..j + 1], toColumn) ==
              InsertColumns(fields[..j], toColumn) + (if fields[j].name != "id" then [Quote(toColumn(fields[j].name))] else [])
  {
    assert fields[..j + 1][..j] == fields[..j];
  }

  /** Appending one quoted column and its ",". */
  lemma ColumnStep(b: string, head: string, columns: seq<string>, column: string)
    requires b == head + Suffixed(columns)
    ensures b + "`" + column + "`" + "," == head + Suffixed(columns + [Quote(column)])
  {
    Assoc4(b, "`", column, "`", ",");
    SuffixedSnoc(columns, Quote(column));
    Assoc(head, Suffixed(columns), Quote(column) + ",");
  }

  /** Appending item `c` of a comma-separated list, and the "," unless it is the last. */
  lemma CommaStep(b: string, mid: string, items: seq<string>, c: nat)
    requires c < |items| && b == mid + Emitted(items, c)
    ensures c + 1 != |items| ==> b + items[c] + "," == mid + Emitted(items, c + 1)
    ensures c + 1 == |items| ==> b + items[c] == mid + Emitted(items, c + 1)
  {
    EmittedStep(items, c);
    if c + 1 != |items| {
      Assoc4(mid, Emitted(items, c), items[c], ",", "");
      assert Emitted(items, c) + items[c] + "," + "" == Emitted(items, c) + items[c] + ",";
      assert b + items[c] + "," == mid + Emitted(items, c) + items[c] + "," + "";
    } else {
      Assoc(mid, Emitted(items, c), items[c]);
      assert Emitted(items, c + 1) == Emitted(items, c) + items[c];
    }
  }

  /** After the column loop, `deleteCharAt(length - 1)` leaves the column list. */
  lemma DropTrailingComma(b: string, prefix: string, columns: seq<string>)
    requires b == prefix + " (" + Suffixed(columns)
    ensures |b| > 0 && b[..|b| - 1] == prefix + ColumnList(columns)
  {
    if columns == [] {
      assert b == (prefix + " ") + "(";
    } else {
      SuffixedJoin(columns);
      assert b == (prefix + " (" + Join(columns, ",")) + ",";
    }
  }

  /** The first loop of `getBatchInsertSql`: each non-id column, quoted and followed by ",". */
  method AppendInsertColumns(builder: string, tableFields: seq<TableField>, toColumn: string -> string) returns (b: string)
    ensures b == builder + Suffixed(InsertColumns(tableFields, toColumn))
  {
    b := builder;
    var j := 0;
    while j < |tableFields|
      invariant 0 <= j <= |tableFields|
      invariant b == builder + Suffixed(InsertColumns(tableFields[..j], toColumn))
    {
      var field := tableFields[j];
      InsertColumnsStep(tableFields, j, toColumn);
      if field.name != "id" {
        ColumnStep(b, builder, InsertColumns(tableFields[..j], toColumn), toColumn(field.name));
        b := b + "`" + toColumn(field.name) + "`" + ",";
      } else {
        assert InsertColumns(tableFields[..j + 1], toColumn) == InsertColumns(tableFields[..j], toColumn);
      }
      j := j + 1;
    }
    assert tableFields[..j] == tableFields;
  }

  /**
   * A placeholder loop `for (i = from; i < size; i++)`: a "?" per round and
   * a "," after each but the round `size - 1`.
   */
  method AppendMarks(builder: string, from: nat, size: nat) returns (b: string)
    requires from <= 1
    ensures b == builder + Join(Marks(if size > from then size - from else 0), ",")
  {
    b := builder;
    ghost var marks := Marks(if size > from then size - from else 0);
    var i := from;
    while i < size
      invariant from <= i && i - from <= |marks|
      invariant size > from ==> i <= size
      invariant b == builder + Emitted(marks, i - from)
    {
      CommaStep(b, builder, marks, i - from);
      b := b + "?";
      if i != size - 1 {
        b := b + ",";
      }
      i := i + 1;
    }
    EmittedAll(marks);
  }

  /**
   * `getBatchInsertSql`: the table's non-id columns, then one placeholder
   * per field but the first.
   */
  method GetBatchInsertSql(tableName: string, tableFields: seq<TableField>, toColumn: string -> string) returns (sql: string)
    ensures sql == InsertSql(tableName, tableFields, toColumn)
  {
    var builder := "INSERT INTO " + tableName + " (";
    builder := AppendInsertColumns(builder, tableFields, toColumn);
    DropTrailingComma(builder, "INSERT INTO " + tableName, InsertColumns(tableFields, toColumn));
    builder := builder[..|builder| - 1];
    builder := builder + ") VALUES (";
    builder := AppendMarks(builder, 1, |tableFields|);
    builder := builder + ")";
    return builder;
  }

  /**
   * With the id first and only there (as `BeanInfo` lays the fields out,
   * SuperBean's `id` ahead of the rest), there is one placeholder per column
   * and the `k`-th column is that of field `k`, the one bound to parameter `k`.
   */
  lemma {:induction false} InsertColumnsAlign(fields: seq<TableField>, toColumn: string -> string)
    requires |fields| > 0 && fields[0].name == "id"
    requires forall j :: 1 <= j < |fields| ==> fields[j].name != "id"
    ensures |InsertColumns(fields, toColumn)| == InsertPlaceholders(fields)
    ensures forall k :: 1 <= k < |fields| ==> InsertColumns(fields, toColumn)[k - 1] == Quote(toColumn(fields[k].name))
    decreases |fields|
  {
    if |fields| > 1 {
      var init := fields[..|fields| - 1];
      assert init[0] == fields[0];
      InsertColumnsAlign(init, toColumn);
    } else {
      assert fields[..0] == [];
    }
  }

  // ---------------------------------------------------------------------
  // getBatchUpdateSql
  // ---------------------------------------------------------------------

  /** Every field's column, quoted, in order. */
  function AllColumns(fields: seq<TableField>, toColumn: string -> string): (r: seq<string>)
    ensures |r| == |fields| && forall i :: 0 <= i < |fields| ==> r[i] == Quote(toColumn(fields[i].name))
  {
    seq(|fields|, i requires 0 <= i < |fields| => Quote(toColumn(fields[i].name)))
  }

  /** `col=values(col)` for every field, the column unquoted. */
  function Assignments(fields: seq<TableField>, toColumn: string -> string): (r: seq<string>)
    ensures |r| == |fields|
    ensures forall i :: 0 <= i < |fields| ==> r[i] == toColumn(fields[i].name) + "=" + "values(" + toColumn(fields[i].name) + ")"
  {
    seq(|fields|, i requires 0 <= i < |fields| => toColumn(fields[i].name) + "=" + "values(" + toColumn(fields[i].name) + ")")
  }

  function UpsertSql(tableName: string, fields: seq<TableField>, toColumn: string -> string): string
  {
    "INSERT INTO " + tableName + ColumnList(AllColumns(fields, toColumn)) +
    ") VALUES (" + Join(Marks(|fields|), ",") + ")" +
    " ON DUPLICATE KEY UPDATE " + Join(Assignments(fields, toColumn), ",")
  }

  /**
   * With the id first and only there, the insert names the columns of the
   * upsert but the id's, in the same order, and binds one value fewer.
   */
  lemma InsertIsUpsertWithoutId(fields: seq<TableField>, toColumn: string -> string)
    requires |fields| > 0 && fields[0].name == "id"
    requires forall j :: 1 <= j < |fields| ==> fields[j].name != "id"
    ensures InsertColumns(fields, toColumn) == AllColumns(fields[1..], toColumn)
    ensures InsertPlaceholders(fields) + 1 == |Marks(|fields|)|
  {
    InsertColumnsAlign(fields, toColumn);
    var ins, all := InsertColumns(fields, toColumn), AllColumns(fields[1..], toColumn);
    forall k | 0 <= k < |all|
      ensures ins[k] == all[k]
    {
      assert fields[1..][k] == fields[k + 1];
    }
  }

  predicate HasRelation(fields: seq<TableField>)
  {
    exists j :: 0 <= j < |fields| && fields[j].relation
  }

  /** The first loop of `getBatchUpdateSql`: each column, quoted and followed by ","; a relationship field throws. */
  method AppendUpsertColumns(builder: string, tableFields: seq<TableField>, toColumn: string -> string) returns (r: Result<string>)
    ensures HasRelation(tableFields) <==> r.Err?
    ensures r.Err? ==> r.msg == RELATION_UNSUPPORTED
    ensures r.Ok? ==> r.value == builder + Suffixed(AllColumns(tableFields, toColumn))
  {
    var b := builder;
    var j := 0;
    while j < |tableFields|
      invariant 0 <= j <= |tableFields|
      invariant forall k :: 0 <= k < j ==> !tableFields[k].relation
      invariant b == builder + Suffixed(AllColumns(tableFields[..j], toColumn))
    {
      var field := tableFields[j];
      if field.relation {
        return Err(RELATION_UNSUPPORTED);
      }
      assert AllColumns(tableFields[..j + 1], toColumn) == AllColumns(tableFields[..j], toColumn) + [Quote(toColumn(field.name))];
      ColumnStep(b, builder, AllColumns(tableFields[..j], toColumn), toColumn(field.name));
      b := b + "`" + toColumn(field.name) + "`" + ",";
      j := j + 1;
    }
    assert tableFields[..j] == tableFields;
    return Ok(b);
  }

  /** The last loop of `getBatchUpdateSql`: `col=values(col)` per field, comma-separated. */
  method AppendAssignments(builder: string, tableFields: seq<TableField>, toColumn: string -> string) returns (b: string)
    ensures b == builder + Join(Assignments(tableFields, toColumn), ",")
  {
    b := builder;
    ghost var sets := Assignments(tableFields, toColumn);
    var i := 0;
    while i < |tableFields|
      invariant 0 <= i <= |tableFields|
      invariant b == builder + Emitted(sets, i)
    {
      CommaStep(b, builder, sets, i);
      var fieldName := toColumn(tableFields[i].name);
      Assoc5(b, fieldName, "=", "values(", fieldName, ")");
      b := b + fieldName + "=" + "values(" + fieldName + ")";
      if i != |tableFields| - 1 {
        b := b + ",";
      }
      i := i + 1;
    }
    EmittedAll(sets);
  }

  /**
   * `getBatchUpdateSql`: a relationship field anywhere throws; otherwise
   * every column, one placeholder per field, and an update of every column
   * from its inserted value.
   */
  method GetBatchUpdateSql(tableName: string, tableFields: seq<TableField>, toColumn: string -> string) returns (r: Result<string>)
    ensures HasRelation(tableFields) <==> r.Err?
    ensures r.Err? ==> r.msg == RELATION_UNSUPPORTED
    ensures r.Ok? ==> r.value == UpsertSql(tableName, tableFields, toColumn)
  {
    var builder := "INSERT INTO " + tableName + " (";
    var columns := AppendUpsertColumns(builder, tableFields, toColumn);
    if columns.Err? {
      return Err(columns.msg);
    }
    builder := columns.value;
    DropTrailingComma(builder, "INSERT INTO " + tableName, AllColumns(tableFields, toColumn));
    builder := builder[..|builder| - 1];
    builder := builder + ") VALUES (";
    builder := AppendMarks(builder, 0, |tableFields|);
    builder := builder + ")";
    builder := builder + " ON DUPLICATE KEY UPDATE ";
    builder := AppendAssignments(builder, tableFields, toColumn);
    return Ok(builder);
  }

  // ---------------------------------------------------------------------
  // setPreparedStatement
  // ---------------------------------------------------------------------

  /**
   * `setPreparedStatement`: `values[j]` is `field.get(t)` of table field `j`.
   * An insert binds parameter `j` to field `j`, skipping the id at 0; an
   * upsert binds parameter `j + 1` to field `j`. Either way each placeholder
   * of the statement gets exactly one value.
   */
  method SetPreparedStatement<V>(values: seq<V>, isAdd: bool) returns (params: map<int, V>)
    ensures isAdd ==> forall k :: k in params <==> 1 <= k < |values|
    ensures !isAdd ==> forall k :: k in params <==> 1 <= k <= |values|
    ensures isAdd ==> forall k :: 1 <= k < |values| ==> k in params && params[k] == values[k]
    ensures !isAdd ==> forall k :: 1 <= k <= |values| ==> k in params && params[k] == values[k - 1]
  {
    params := map[];
    var j := 0;
    while j < |values|
      invariant 0 <= j <= |values|
      invariant isAdd ==> forall k :: k in params <==> 1 <= k < j
      invariant isAdd ==> forall k :: 1 <= k < j ==> k in params && params[k] == values[k]
      invariant !isAdd ==> forall k :: k in params <==> 1 <= k <= j
      invariant !isAdd ==> forall k :: 1 <= k <= j ==> k in params && params[k] == values[k - 1]
    {
      if isAdd && j == 0 {
        j := j + 1;
        continue;
      }
      if isAdd {
        params := params[j := values[j]];
      } else {
        params := params[j + 1 := values[j]];
      }
      j := j + 1;
    }
  }

  /** The number of `?` in a statement. */
  function QMarks(s: string): nat
  {
    if s == [] then 0 else QMarks(s[..|s| - 1]) + (if s[|s| - 1] == '?' then 1 else 0)
  }

  lemma {:induction false} QMarksAppend(a: string, b: string)
    ensures QMarks(a + b) == QMarks(a) + QMarks(b)
    decreases |b|
  {
    if b != [] {
      assert (a + b)[..|a + b| - 1] == a + b[..|b| - 1];
      QMarksAppend(a, b[..|b| - 1]);
    } else {
      assert a + b == a;
    }
  }

  lemma {:induction false} QMarksNone(s: string)
    requires '?' !in s
    ensures QMarks(s) == 0
    decreases |s|
  {
    if s != [] {
      QMarksNone(s[..|s| - 1]);
    }
  }

  lemma {:induction false} JoinNoMark(items: seq<string>, sep: string)
    requires '?' !in sep && forall i :: 0 <= i < |items| ==> '?' !in items[i]
    ensures '?' !in Join(items, sep)
    decreases |items|
  {
    if |items| > 1 {
      JoinNoMark(items[1..], sep);
    }
  }

  lemma {:induction false} QMarksOfMarks(n: nat)
    ensures QMarks(Join(Marks(n), ",")) == n
    decreases n
  {
    if n == 1 {
      assert Join(Marks(1), ",") == "?";
      assert "?"[..0] == [];
    } else if n > 1 {
      assert Marks(n)[1..] == Marks(n - 1);
      QMarksOfMarks(n - 1);
      assert Join(Marks(n), ",") == "?" + "," + Join(Marks(n - 1), ",");
      QMarksAppend("?" + ",", Join(Marks(n - 1), ","));
      assert ("?" + ",")[..1] == "?";
      assert "?"[..0] == [];
    }
  }

  /** The marks of a statement made of a mark-free text, the marks, and a mark-free tail. */
  lemma QMarksAround(a: string, m: string, b: string)
    requires QMarks(a) == 0 && QMarks(b) == 0
    ensures QMarks(a + m + b) == QMarks(m)
  {
    QMarksAppend(a, m);
    QMarksAppend(a + m, b);
  }

  lemma InsertMarks(tableName: string, fields: seq<TableField>, toColumn: string -> string)
    requires '?' !in tableName
    requires forall f :: f in fields ==> '?' !in toColumn(f.name)
    ensures QMarks(InsertSql(tableName, fields, toColumn)) == InsertPlaceholders(fields)
  {
    var ic := InsertColumns(fields, toColumn);
    InsertOmitsId(fields, toColumn);
    forall i | 0 <= i < |ic|
      ensures '?' !in ic[i]
    {
      assert ic[i] in ic;
    }
    JoinNoMark(ic, ",");
    var front := "INSERT INTO " + tableName + ColumnList(ic) + ") VALUES (";
    QMarksNone(front);
    QMarksNone(")");
    var marks := Join(Marks(InsertPlaceholders(fields)), ",");
    QMarksOfMarks(InsertPlaceholders(fields));
    assert InsertSql(tableName, fields, toColumn) == front + marks + ")";
    QMarksAround(front, marks, ")");
  }

  /** `col=values(col)` holds a `?` only when the column does. */
  lemma AssignmentNoMark(c: string)
    requires '?' !in c
    ensures '?' !in c + "=" + "values(" + c + ")"
  {
  }

  lemma UpsertColumnsNoMark(fields: seq<TableField>, toColumn: string -> string)
    requires forall f :: f in fields ==> '?' !in toColumn(f.name)
    ensures '?' !in Join(AllColumns(fields, toColumn), ",")
    ensures '?' !in Join(Assignments(fields, toColumn), ",")
  {
    var ac := AllColumns(fields, toColumn);
    forall i | 0 <= i < |ac|
      ensures '?' !in ac[i]
    {
      assert fields[i] in fields;
    }
    JoinNoMark(ac, ",");
    var asg := Assignments(fields, toColumn);
    forall i | 0 <= i < |asg|
      ensures '?' !in asg[i]
    {
      assert fields[i] in fields;
      AssignmentNoMark(toColumn(fields[i].name));
    }
    JoinNoMark(asg, ",");
  }

  lemma UpsertMarks(tableName: string, fields: seq<TableField>, toColumn: string -> string)
    requires '?' !in tableName
    requires forall f :: f in fields ==> '?' !in toColumn(f.name)
    ensures QMarks(UpsertSql(tableName, fields, toColumn)) == |fields|
  {
    var ac := AllColumns(fields, toColumn);
    var asg := Assignments(fields, toColumn);
    UpsertColumnsNoMark(fields, toColumn);
    var front := "INSERT INTO " + tableName + ColumnList(ac) + ") VALUES (";
    var marks := Join(Marks(|fields|), ",");
    var tail := " ON DUPLICATE KEY UPDATE " + Join(asg, ",");
    QMarksNone(front);
    QMarksNone(")");
    QMarksNone(tail);
    QMarksOfMarks(|fields|);
    QMarksAround(front, marks, ")");
    QMarksAppend(front + marks + ")", tail);
    assert UpsertSql(tableName, fields, toColumn) == front + marks + ")" + tail;
  }

  /**
   * The `?` marks of each statement are exactly the parameters
   * `setPreparedStatement` binds for a row of `|fields|` values: 1 to
   * `|fields| - 1` for an insert, 1 to `|fields|` for an upsert, as long as
   * no table or column name holds a `?` itself.
   */
  lemma InsertBindingsFill(tableName: string, fields: seq<TableField>, toColumn: string -> string)
    requires '?' !in tableName
    requires forall f :: f in fields ==> '?' !in toColumn(f.name)
    ensures QMarks(InsertSql(tableName, fields, toColumn)) == InsertPlaceholders(fields)
    ensures QMarks(UpsertSql(tableName, fields, toColumn)) == |fields|
  {
    InsertMarks(tableName, fields, toColumn);
    UpsertMarks(tableName, fields, toColumn);
  }

  // ---------------------------------------------------------------------
  // update / batchInsert / batchInsertOnDuplicateKeyUpdate
  // ---------------------------------------------------------------------

  /** `update`: no attribute to set (a null or empty map) updates nothing and returns 0. */
  function Update<V>(attrMap: Option<map<string, V>>, updateBySpecification: map<string, V> -> int): (n: int)
    ensures attrMap.None? || |attrMap.value| == 0 ==> n == 0
    ensures attrMap.Some? && |attrMap.value| > 0 ==> n == updateBySpecification(attrMap.value)
  {
    if attrMap.None? || |attrMap.value| == 0 then 0 else updateBySpecification(attrMap.value)
  }

  /** A JDBC batch: the statement and how many entities it runs for. */
  datatype Batch = Batch(sql: string, size: nat)

  /** `batchInsert`: an empty list runs nothing; otherwise one insert per entity. */
  method BatchInsert<E>(collect: seq<E>, tableName: string, tableFields: seq<TableField>, toColumn: string -> string)
    returns (batch: Option<Batch>)
    ensures |collect| == 0 <==> batch.None?
    ensures batch.Some? ==> batch.value == Batch(InsertSql(tableName, tableFields, toColumn), |collect|)
  {
    if |collect| > 0 {
      var batchInsertSql := GetBatchInsertSql(tableName, tableFields, toColumn);
      return Some(Batch(batchInsertSql, |collect|));
    }
    return None;
  }

  /**
   * `batchInsertOnDuplicateKeyUpdate`: an empty list runs nothing, even for
   * an entity with relationship fields; otherwise the upsert, or the
   * exception its builder throws.
   */
  method BatchInsertOnDuplicateKeyUpdate<E>(entities: seq<E>, tableName: string, tableFields: seq<TableField>, toColumn: string -> string)
    returns (r: Result<Option<Batch>>)
    ensures |entities| == 0 ==> r == Ok(None)
    ensures |entities| > 0 ==> (r.Err? <==> HasRelation(tableFields))
    ensures r.Err? ==> r.msg == RELATION_UNSUPPORTED
    ensures |entities| > 0 && r.Ok? ==> r.value == Some(Batch(UpsertSql(tableName, tableFields, toColumn), |entities|))
  {
    if |entities| > 0 {
      var batchUpdateSql := GetBatchUpdateSql(tableName, tableFields, toColumn);
      if batchUpdateSql.Err? {
        return Err(batchUpdateSql.msg);
      }
      return Ok(Some(Batch(batchUpdateSql.value, |entities|)));
    }
    return Ok(None);
  }
}
