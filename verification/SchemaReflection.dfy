/** Assembling the schema graph from the catalogue queries
    (backend/src/services/schema_reflection.py, lines 42-105). */
module SchemaReflection {
  import opened Options

  /** What reflection copies of a column without looking at it. */
  datatype Attributes = Attributes(default: Option<string>, maxLength: Option<int>, precision: Option<int>,
                                   scale: Option<int>)

  datatype TableRow = TableRow(name: string, schema: string, rowEstimate: Option<int>, sizeBytes: Option<int>)
  datatype ColumnRow = ColumnRow(table: string, column: string, dataType: string, nullable: bool,
                                 attributes: Attributes)
  datatype KeyRow = KeyRow(table: string, column: string)
  datatype ForeignRow = ForeignRow(table: string, column: string, toTable: string, toColumn: string, constraint: string)
  datatype IndexRow = IndexRow(table: string, name: string, definition: string)

  /** The answers to the catalogue queries. */
  datatype Catalogue = Catalogue(tables: seq<TableRow>, columns: seq<ColumnRow>, primaryKeys: seq<KeyRow>,
                                 foreignKeys: seq<ForeignRow>, indexes: seq<IndexRow>, version: Option<string>)

  datatype Reference = Reference(table: string, column: string, constraint: string)
  datatype Column = Column(name: string, dataType: string, nullable: bool, attributes: Attributes,
                           isPrimaryKey: bool, foreignKey: Option<Reference>)
  datatype Index = Index(name: string, definition: string, unique: bool)
  datatype Table = Table(name: string, schema: string, columns: seq<Column>, indexes: seq<Index>,
                         rowEstimate: Option<int>, sizeBytes: Option<int>)
  datatype Relationship = Relationship(fromTable: string, fromColumn: string, toTable: string, toColumn: string,
                                       constraint: string)
  datatype SchemaGraph = SchemaGraph(version: string, tables: seq<Table>, relationships: seq<Relationship>)

  // ---- what the graph must say ----

  /** The reference of the last foreign-key row for a column. */
  function LastReference(fks: seq<ForeignRow>, table: string, column: string): Option<Reference> {
    if fks == [] then None
    else
      var last := fks[|fks| - 1];
      if last.table == table && last.column == column then Some(Reference(last.toTable, last.toColumn, last.constraint))
      else LastReference(fks[..|fks| - 1], table, column)
  }

  /** The columns of a table, in row order. `keys` and `fks` are the key rows taken into account. */
  function ColumnsOf(rows: seq<ColumnRow>, keys: set<KeyRow>, fks: seq<ForeignRow>, table: string): seq<Column> {
    if rows == [] then []
    else
      var last := rows[|rows| - 1];
      var front := ColumnsOf(rows[..|rows| - 1], keys, fks, table);
      if last.table == table then
        front + [Column(last.column, last.dataType, last.nullable, last.attributes, KeyRow(table, last.column) in keys,
                        LastReference(fks, table, last.column))]
      else front
  }

  function RelationshipOf(fk: ForeignRow): Relationship {
    Relationship(fk.table, fk.column, fk.toTable, fk.toColumn, fk.constraint)
  }

  function KeySet(pks: seq<KeyRow>): set<KeyRow> {
    set k | k in pks
  }

  // ---- the dictionary of columns, updated in place ----

  type ColumnTable = map<string, seq<Column>>

  function Get(m: ColumnTable, table: string): seq<Column> {
    if table in m then m[table] else []
  }

  /** The dictionary holds the columns of every table, for the rows and keys seen so far. */
  ghost predicate Holds(m: ColumnTable, rows: seq<ColumnRow>, keys: set<KeyRow>, fks: seq<ForeignRow>) {
    forall t :: Get(m, t) == ColumnsOf(rows, keys, fks, t)
  }

  function MarkKeys(cols: seq<Column>, keys: set<KeyRow>, table: string): seq<Column> {
    if cols == [] then []
    else
      var last := cols[|cols| - 1];
      MarkKeys(cols[..|cols| - 1], keys, table)
      + [if KeyRow(table, last.name) in keys then last.(isPrimaryKey := true) else last]
  }

  function SetForeign(cols: seq<Column>, fk: ForeignRow): seq<Column> {
    if cols == [] then []
    else
      var last := cols[|cols| - 1];
      SetForeign(cols[..|cols| - 1], fk)
      + [if last.name == fk.column
         then last.(foreignKey := Some(Reference(fk.toTable, fk.toColumn, fk.constraint)))
         else last]
  }

  lemma {:induction false} MarkingKeys(rows: seq<ColumnRow>, keys: set<KeyRow>, table: string)
    ensures MarkKeys(ColumnsOf(rows, {}, [], table), keys, table) == ColumnsOf(rows, keys, [], table)
  {
    if rows != [] {
      var front, last := rows[..|rows| - 1], rows[|rows| - 1];
      MarkingKeys(front, keys, table);
      if last.table == table {
        var cols := ColumnsOf(rows, {}, [], table);
        assert cols[..|cols| - 1] == ColumnsOf(front, {}, [], table);
      }
    }
  }

  lemma {:induction false} SettingForeign(rows: seq<ColumnRow>, keys: set<KeyRow>, fks: seq<ForeignRow>, fk: ForeignRow)
    ensures SetForeign(ColumnsOf(rows, keys, fks, fk.table), fk) == ColumnsOf(rows, keys, fks + [fk], fk.table)
  {
    if rows != [] {
      var front, last := rows[..|rows| - 1], rows[|rows| - 1];
      SettingForeign(front, keys, fks, fk);
      if last.table == fk.table {
        var cols := ColumnsOf(rows, keys, fks, fk.table);
        assert cols[..|cols| - 1] == ColumnsOf(front, keys, fks, fk.table);
        assert (fks + [fk])[..|fks|] == fks;
      }
    }
  }

  lemma {:induction false} OtherTableUnchanged(rows: seq<ColumnRow>, keys: set<KeyRow>, fks: seq<ForeignRow>,
                                               fk: ForeignRow, table: string)
    requires table != fk.table
    ensures ColumnsOf(rows, keys, fks + [fk], table) == ColumnsOf(rows, keys, fks, table)
  {
    if rows != [] {
      OtherTableUnchanged(rows[..|rows| - 1], keys, fks, fk, table);
      assert (fks + [fk])[..|fks|] == fks;
    }
  }

  /** Columns grouped by table, neither kind of key marked yet. */
  method GroupColumns(rows: seq<ColumnRow>) returns (columnsByTable: ColumnTable)
    ensures Holds(columnsByTable, rows, {}, [])
    ensures forall t :: t in columnsByTable <==> exists r :: r in rows && r.table == t
  {
    columnsByTable := map[];
    for k := 0 to |rows|
      invariant Holds(columnsByTable, rows[..k], {}, [])
      invariant forall t :: t in columnsByTable <==> exists r :: r in rows[..k] && r.table == t
    {
      var row := rows[k];
      assert rows[..k + 1] == rows[..k] + [row];
      assert rows[..k + 1][..k] == rows[..k];
      columnsByTable := columnsByTable[row.table :=
        Get(columnsByTable, row.table) + [Column(row.column, row.dataType, row.nullable, row.attributes, false, None)]];
    }
    assert rows[..|rows|] == rows;
  }

  method MarkTable(cols: seq<Column>, keys: set<KeyRow>, table: string) returns (r: seq<Column>)
    ensures r == MarkKeys(cols, keys, table)
  {
    r := cols;
    for i := 0 to |cols|
      invariant |r| == |cols| && r[..i] == MarkKeys(cols[..i], keys, table)
      invariant forall j | i <= j < |cols| :: r[j] == cols[j]
    {
      assert cols[..i + 1][..i] == cols[..i];
      ghost var done := r[..i];
      if KeyRow(table, r[i].name) in keys {
        r := r[i := r[i].(isPrimaryKey := true)];
      }
      assert r[..i + 1] == done + [r[i]];
    }
    assert cols[..|cols|] == cols && r[..|cols|] == r;
  }

  method LinkTable(cols: seq<Column>, fk: ForeignRow) returns (r: seq<Column>)
    ensures r == SetForeign(cols, fk)
  {
    r := cols;
    for i := 0 to |cols|
      invariant |r| == |cols| && r[..i] == SetForeign(cols[..i], fk)
      invariant forall j | i <= j < |cols| :: r[j] == cols[j]
    {
      assert cols[..i + 1][..i] == cols[..i];
      ghost var done := r[..i];
      if r[i].name == fk.column {
        r := r[i := r[i].(foreignKey := Some(Reference(fk.toTable, fk.toColumn, fk.constraint)))];
      }
      assert r[..i + 1] == done + [r[i]];
    }
    assert cols[..|cols|] == cols && r[..|cols|] == r;
  }

  method MarkPrimaryKeys(rows: seq<ColumnRow>, keys: set<KeyRow>, columnsByTable: ColumnTable) returns (r: ColumnTable)
    requires Holds(columnsByTable, rows, {}, [])
    ensures Holds(r, rows, keys, []) && r.Keys == columnsByTable.Keys
  {
    r := columnsByTable;
    var pending := columnsByTable.Keys;
    while pending != {}
      invariant r.Keys == columnsByTable.Keys && pending <= r.Keys
      invariant forall t | t !in pending :: Get(r, t) == MarkKeys(Get(columnsByTable, t), keys, t)
      invariant forall t | t in pending :: r[t] == columnsByTable[t]
      decreases pending
    {
      var t :| t in pending;
      var cols := MarkTable(r[t], keys, t);
      r := r[t := cols];
      pending := pending - {t};
    }
    forall t ensures Get(r, t) == ColumnsOf(rows, keys, [], t) {
      MarkingKeys(rows, keys, t);
    }
  }

  method LinkForeignKeys(rows: seq<ColumnRow>, keys: set<KeyRow>, fks: seq<ForeignRow>, columnsByTable: ColumnTable)
    returns (r: ColumnTable, relationships: seq<Relationship>)
    requires Holds(columnsByTable, rows, keys, [])
    ensures Holds(r, rows, keys, fks)
    ensures |relationships| == |fks| && forall i | 0 <= i < |fks| :: relationships[i] == RelationshipOf(fks[i])
  {
    r, relationships := columnsByTable, [];
    for k := 0 to |fks|
      invariant Holds(r, rows, keys, fks[..k])
      invariant |relationships| == k && forall i | 0 <= i < k :: relationships[i] == RelationshipOf(fks[i])
    {
      var fk := fks[k];
      relationships := relationships + [RelationshipOf(fk)];
      assert fks[..k + 1] == fks[..k] + [fk];
      SettingForeign(rows, keys, fks[..k], fk);
      ghost var before := r;
      if fk.table in r {
        var cols := LinkTable(r[fk.table], fk);
        r := r[fk.table := cols];
      }
      forall t ensures Get(r, t) == ColumnsOf(rows, keys, fks[..k + 1], t) {
        assert Get(before, t) == ColumnsOf(rows, keys, fks[..k], t);
        if t != fk.table {
          OtherTableUnchanged(rows, keys, fks[..k], fk, t);
        }
      }
    }
    assert fks[..|fks|] == fks;
  }

  /** The indexes of a table, in row order. The query does not ask whether they are unique. */
  function IndexesOf(rows: seq<IndexRow>, table: string): seq<Index> {
    if rows == [] then []
    else
      var last := rows[|rows| - 1];
      IndexesOf(rows[..|rows| - 1], table)
      + if last.table == table then [Index(last.name, last.definition, false)] else []
  }

  method CollectIndexes(rows: seq<IndexRow>, table: string) returns (indexes: seq<Index>)
    ensures indexes == IndexesOf(rows, table)
  {
    indexes := [];
    for k := 0 to |rows|
      invariant indexes == IndexesOf(rows[..k], table)
    {
      assert rows[..k + 1][..k] == rows[..k];
      if rows[k].table == table {
        indexes := indexes + [Index(rows[k].name, rows[k].definition, false)];
      }
    }
    assert rows[..|rows|] == rows;
  }

  function TableOf(c: Catalogue, row: TableRow): Table {
    Table(row.name, row.schema, ColumnsOf(c.columns, KeySet(c.primaryKeys), c.foreignKeys, row.name),
          IndexesOf(c.indexes, row.name), row.rowEstimate, row.sizeBytes)
  }

  /** The graph of the whole database. */
  function GraphOf(c: Catalogue): (g: SchemaGraph)
    ensures |g.tables| == |c.tables| && |g.relationships| == |c.foreignKeys|
    ensures forall i | 0 <= i < |c.tables| :: g.tables[i] == TableOf(c, c.tables[i])
    ensures forall i | 0 <= i < |c.foreignKeys| :: g.relationships[i] == RelationshipOf(c.foreignKeys[i])
  {
    SchemaGraph(
      if c.version.Some? then c.version.value else "unknown",
      seq(|c.tables|, i requires 0 <= i < |c.tables| => TableOf(c, c.tables[i])),
      seq(|c.foreignKeys|, i requires 0 <= i < |c.foreignKeys| => RelationshipOf(c.foreignKeys[i])))
  }

  method Reflect(c: Catalogue) returns (graph: SchemaGraph)
    ensures graph == GraphOf(c)
  {
    var columnsByTable := GroupColumns(c.columns);
    var keys: set<KeyRow> := {};
    for k := 0 to |c.primaryKeys|
      invariant keys == KeySet(c.primaryKeys[..k])
    {
      assert c.primaryKeys[..k + 1] == c.primaryKeys[..k] + [c.primaryKeys[k]];
      keys := keys + {c.primaryKeys[k]};
    }
    assert c.primaryKeys[..|c.primaryKeys|] == c.primaryKeys;
    columnsByTable := MarkPrimaryKeys(c.columns, keys, columnsByTable);
    var relationships;
    columnsByTable, relationships := LinkForeignKeys(c.columns, keys, c.foreignKeys, columnsByTable);
    var tableGraphs := BuildTables(c, columnsByTable);
    graph := SchemaGraph(if c.version.Some? then c.version.value else "unknown", tableGraphs, relationships);
    assert graph.tables == GraphOf(c).tables;
    assert graph.relationships == GraphOf(c).relationships;
  }

  /** The last loop: one graph for each table row. */
  method BuildTables(c: Catalogue, columnsByTable: ColumnTable) returns (tableGraphs: seq<Table>)
    requires Holds(columnsByTable, c.columns, KeySet(c.primaryKeys), c.foreignKeys)
    ensures |tableGraphs| == |c.tables| && forall i | 0 <= i < |c.tables| :: tableGraphs[i] == TableOf(c, c.tables[i])
  {
    tableGraphs := [];
    for k := 0 to |c.tables|
      invariant |tableGraphs| == k && forall i | 0 <= i < k :: tableGraphs[i] == TableOf(c, c.tables[i])
    {
      var row := c.tables[k];
      var indexes := CollectIndexes(c.indexes, row.name);
      tableGraphs := tableGraphs
        + [Table(row.name, row.schema, Get(columnsByTable, row.name), indexes, row.rowEstimate, row.sizeBytes)];
    }
  }

  // ---- what the columns say ----

  /** The positions of the rows a table's columns come from: in order, all of them, each with its key flag. */
  lemma {:induction false} ColumnSources(rows: seq<ColumnRow>, keys: set<KeyRow>, fks: seq<ForeignRow>, table: string)
    returns (src: seq<nat>)
    ensures var cols := ColumnsOf(rows, keys, fks, table);
            && |src| == |cols|
            && (forall i | 0 <= i < |src| :: src[i] < |rows| && rows[src[i]].table == table
                  && cols[i].name == rows[src[i]].column && cols[i].dataType == rows[src[i]].dataType
                  && cols[i].nullable == rows[src[i]].nullable && cols[i].attributes == rows[src[i]].attributes
                  && (cols[i].isPrimaryKey <==> KeyRow(table, cols[i].name) in keys)
                  && cols[i].foreignKey == LastReference(fks, table, cols[i].name))
            && (forall i, j | 0 <= i < j < |src| :: src[i] < src[j])
            && (forall r: nat | r < |rows| && rows[r].table == table :: r in src)
  {
    hide LastReference;
    if rows == [] {
      src := [];
    } else {
      var n := |rows| - 1;
      src := ColumnSources(rows[..n], keys, fks, table);
      if rows[n].table == table {
        src := src + [n];
        assert src[|src| - 1] == n;
      }
    }
  }

  /** The k-th row is the last one that names the column. */
  predicate LastNaming(fks: seq<ForeignRow>, table: string, column: string, k: nat) {
    && k < |fks| && fks[k].table == table && fks[k].column == column
    && forall j | k < j < |fks| :: !(fks[j].table == table && fks[j].column == column)
  }

  /** The reference is that of the last row that names the column, and there is none if no row does. */
  lemma {:induction false} LastReferenceMeaning(fks: seq<ForeignRow>, table: string, column: string)
    ensures LastReference(fks, table, column) == None <==>
            forall f | f in fks :: !(f.table == table && f.column == column)
    ensures forall r :: LastReference(fks, table, column) == Some(r) ==>
              exists k: nat :: LastNaming(fks, table, column, k)
                && r == Reference(fks[k].toTable, fks[k].toColumn, fks[k].constraint)
  {
    if fks != [] {
      var n := |fks| - 1;
      LastReferenceMeaning(fks[..n], table, column);
      assert fks == fks[..n] + [fks[n]];
      if fks[n].table == table && fks[n].column == column {
        assert LastNaming(fks, table, column, n);
      } else {
        forall k: nat | LastNaming(fks[..n], table, column, k)
          ensures LastNaming(fks, table, column, k) && fks[k] == fks[..n][k] {
        }
      }
    }
  }

  /** The positions of the rows a table's indexes come from: all of them, in order. */
  lemma {:induction false} IndexSources(rows: seq<IndexRow>, table: string) returns (src: seq<nat>)
    ensures |src| == |IndexesOf(rows, table)|
    ensures forall i | 0 <= i < |src| ::
              src[i] < |rows| && rows[src[i]].table == table
              && IndexesOf(rows, table)[i] == Index(rows[src[i]].name, rows[src[i]].definition, false)
    ensures forall i, j | 0 <= i < j < |src| :: src[i] < src[j]
    ensures forall r: nat | r < |rows| && rows[r].table == table :: r in src
  {
    if rows == [] {
      src := [];
    } else {
      var n := |rows| - 1;
      src := IndexSources(rows[..n], table);
      if rows[n].table == table {
        src := src + [n];
        assert src[|src| - 1] == n;
      }
    }
  }

  /** A reflected column is a row of its table; it is a key column exactly when a key row of the catalogue names it, and
      refers to what the last foreign-key row that names it says. */
  lemma {:induction false} ReflectedColumns(c: Catalogue, i: nat) returns (src: seq<nat>)
    requires i < |c.tables|
    ensures var cols, name := GraphOf(c).tables[i].columns, c.tables[i].name;
            && |src| == |cols|
            && (forall k | 0 <= k < |src| :: src[k] < |c.columns| && c.columns[src[k]].table == name
                  && cols[k].name == c.columns[src[k]].column && cols[k].dataType == c.columns[src[k]].dataType
                  && cols[k].nullable == c.columns[src[k]].nullable
                  && cols[k].attributes == c.columns[src[k]].attributes
                  && (cols[k].isPrimaryKey <==>
                        exists r :: r in c.primaryKeys && r.table == name && r.column == cols[k].name)
                  && cols[k].foreignKey == LastReference(c.foreignKeys, name, cols[k].name))
            && (forall j, k | 0 <= j < k < |src| :: src[j] < src[k])
            && (forall r: nat | r < |c.columns| && c.columns[r].table == name :: r in src)
  {
    hide LastReference, ColumnsOf, IndexesOf;
    src := ColumnSources(c.columns, KeySet(c.primaryKeys), c.foreignKeys, c.tables[i].name);
    forall column ensures KeyRow(c.tables[i].name, column) in KeySet(c.primaryKeys) <==>
                          exists r :: r in c.primaryKeys && r.table == c.tables[i].name && r.column == column {
      KeyNamed(c.primaryKeys, c.tables[i].name, column);
    }
  }

  lemma {:induction false} KeyNamed(pks: seq<KeyRow>, table: string, column: string)
    ensures KeyRow(table, column) in KeySet(pks) <==> exists r :: r in pks && r.table == table && r.column == column
  {
    if r :| r in pks && r.table == table && r.column == column {
      assert r == KeyRow(table, column);
    }
  }

  /** What the graph copies: the tables and the foreign keys in catalogue order, field by field, and the version. */
  lemma {:induction false} ReflectedFields(c: Catalogue)
    ensures var g := GraphOf(c);
            && g.version == (if c.version == None then "unknown" else c.version.value)
            && |g.tables| == |c.tables| && |g.relationships| == |c.foreignKeys|
            && (forall i | 0 <= i < |c.tables| ::
                  && g.tables[i].name == c.tables[i].name && g.tables[i].schema == c.tables[i].schema
                  && g.tables[i].indexes == IndexesOf(c.indexes, c.tables[i].name)
                  && g.tables[i].rowEstimate == c.tables[i].rowEstimate
                  && g.tables[i].sizeBytes == c.tables[i].sizeBytes)
            && (forall i | 0 <= i < |c.foreignKeys| ::
                  && g.relationships[i].fromTable == c.foreignKeys[i].table
                  && g.relationships[i].fromColumn == c.foreignKeys[i].column
                  && g.relationships[i].toTable == c.foreignKeys[i].toTable
                  && g.relationships[i].toColumn == c.foreignKeys[i].toColumn
                  && g.relationships[i].constraint == c.foreignKeys[i].constraint)
  {
    hide ColumnsOf, IndexesOf;
  }
}
