/** What the pipeline derives from one introspected table: the hash that decides whether to skip
    it, and the deterministic model written for it. */
module Mdl {
  import opened Wrappers
  import opened Sorting

  datatype ColumnInfo = ColumnInfo(
    name: string, sqlType: string, nullable: bool, default: Option<string>, description: Option<string>,
    isPrimaryKey: bool, referencesTable: Option<string>, referencesColumn: Option<string>)

  datatype TableInfo = TableInfo(
    schema: string, name: string, description: Option<string>, columns: seq<ColumnInfo>,
    primaryKey: seq<string>, isView: bool, viewDefinition: Option<string>, rowCountEstimate: Option<nat>)

  // ---------------------------------------------------------------- content_hash

  // The hashed part of a column: everything but its default.
  datatype ColumnKey = ColumnKey(
    name: string, sqlType: string, nullable: bool, description: Option<string>,
    isPrimaryKey: bool, referencesTable: Option<string>, referencesColumn: Option<string>)

  // The hash is taken to be free of collisions, so the payload stands for it.
  datatype Hash = Hash(
    schema: string, name: string, isView: bool, viewDefinition: Option<string>,
    description: Option<string>, primaryKey: seq<string>, columns: seq<ColumnKey>)

  function KeyOf(c: ColumnInfo): ColumnKey {
    ColumnKey(c.name, c.sqlType, c.nullable, c.description, c.isPrimaryKey, c.referencesTable, c.referencesColumn)
  }

  function Map<A, B>(xs: seq<A>, f: A -> B): seq<B> {
    if xs == [] then [] else [f(xs[0])] + Map(xs[1..], f)
  }

  predicate ByName(a: ColumnInfo, b: ColumnInfo) {
    StringLe(a.name, b.name)
  }

  function ContentHash(t: TableInfo): Hash {
    Hash(t.schema, t.name, t.isView, t.viewDefinition, t.description,
         Sort(t.primaryKey, StringLe), Map(Sort(t.columns, ByName), KeyOf))
  }

  // ---------------------------------------------------------------- build_mdl

  datatype MdlColumn = MdlColumn(
    name: string, sqlType: string, notNull: bool, rk: string, displayName: string,
    description: Option<string>, fromExtractor: bool, isPrimaryKey: bool, references: Option<string>)

  datatype Model = Model(
    sourceId: string, catalog: Option<string>, schema: string, name: string, rk: string,
    description: Option<string>, fromExtractor: bool, isView: bool, viewQuery: Option<string>,
    columns: seq<MdlColumn>)

  predicate Truthy(s: Option<string>) {
    s.Some? && s.value != ""
  }

  function AssetRk(sourceId: string, catalog: Option<string>, t: TableInfo): string {
    "postgres://" + sourceId + (if Truthy(catalog) then "." + catalog.value else "") + "/" + t.schema + "/" + t.name
  }

  function ColumnRk(tableRk: string, column: string): string {
    tableRk + "/" + column
  }

  function References(table: Option<string>, column: Option<string>): Option<string> {
    if !Truthy(table) then None
    else Some(if Truthy(column) then table.value + "." + column.value else table.value)
  }

  function Upper(c: char): char {
    if 'a' <= c <= 'z' then 'A' + (c - 'a') else c
  }

  function Lower(c: char): char {
    if 'A' <= c <= 'Z' then 'a' + (c - 'A') else c
  }

  // Words between underscores, capitalised and joined by spaces (ASCII letters).
  function Humanize(name: string, atStart: bool, started: bool): string {
    if name == "" then ""
    else if name[0] == '_' then Humanize(name[1..], true, started)
    else (if atStart && started then " " else "") +
         [if atStart then Upper(name[0]) else Lower(name[0])] + Humanize(name[1..], false, true)
  }

  function BuildColumn(tableRk: string, c: ColumnInfo): MdlColumn {
    MdlColumn(c.name, c.sqlType, !c.nullable, ColumnRk(tableRk, c.name), Humanize(c.name, true, false),
              c.description, Truthy(c.description), c.isPrimaryKey, References(c.referencesTable, c.referencesColumn))
  }

  function ColumnBuilder(tableRk: string): ColumnInfo -> MdlColumn {
    c => BuildColumn(tableRk, c)
  }

  function Build(sourceId: string, catalog: Option<string>, t: TableInfo): Model {
    var rk := AssetRk(sourceId, catalog, t);
    Model(sourceId, catalog, t.schema, t.name, rk, t.description, Truthy(t.description), t.isView,
          if t.isView && Truthy(t.viewDefinition) then t.viewDefinition else None,
          Map(t.columns, ColumnBuilder(rk)))
  }

  lemma {:induction false} MapOfAppended<A, B>(xs: seq<A>, x: A, f: A -> B)
    ensures Map(xs + [x], f) == Map(xs, f) + [f(x)]
  {
    if xs != [] {
      assert (xs + [x])[1..] == xs[1..] + [x];
      MapOfAppended(xs[1..], x, f);
    }
  }

  method BuildMdl(sourceId: string, catalog: Option<string>, t: TableInfo) returns (m: Model)
    ensures m == Build(sourceId, catalog, t)
  {
    var rk := AssetRk(sourceId, catalog, t);
    var columns: seq<MdlColumn> := [];
    ghost var f := ColumnBuilder(rk);
    for i := 0 to |t.columns|
      invariant columns == Map(t.columns[..i], f)
    {
      var col := t.columns[i];
      var ref: Option<string> := None;
      if Truthy(col.referencesTable) {
        ref := col.referencesTable;
        if Truthy(col.referencesColumn) { ref := Some(ref.value + "." + col.referencesColumn.value); }
      }
      MapOfAppended(t.columns[..i], col, f);
      assert t.columns[..i + 1] == t.columns[..i] + [col];
      columns := columns + [MdlColumn(col.name, col.sqlType, !col.nullable, ColumnRk(rk, col.name),
        Humanize(col.name, true, false), col.description, Truthy(col.description), col.isPrimaryKey, ref)];
    }
    assert t.columns[..|t.columns|] == t.columns;
    var viewQuery: Option<string> := None;
    if t.isView && Truthy(t.viewDefinition) { viewQuery := t.viewDefinition; }
    m := Model(sourceId, catalog, t.schema, t.name, rk, t.description, Truthy(t.description), t.isView, viewQuery, columns);
  }

  // ---------------------------------------------------------------- the hash determines the model

  // Equal but for the order of the columns.
  ghost predicate SameModel(a: Model, b: Model) {
    multiset(a.columns) == multiset(b.columns) && a.(columns := []) == b.(columns := [])
  }

  // What `build_mdl` makes of the hashed part of a column.
  function ColumnFromKey(tableRk: string, k: ColumnKey): MdlColumn {
    BuildColumn(tableRk, ColumnInfo(k.name, k.sqlType, k.nullable, None, k.description, k.isPrimaryKey,
                                    k.referencesTable, k.referencesColumn))
  }

  function KeyBuilder(tableRk: string): ColumnKey -> MdlColumn {
    k => ColumnFromKey(tableRk, k)
  }

  lemma MapWithout<A, B>(ys: seq<A>, i: nat, f: A -> B)
    requires i < |ys|
    ensures var rest := ys[..i] + ys[i + 1..];
      && multiset(rest) + multiset{ys[i]} == multiset(ys)
      && multiset(Map(ys, f)) == multiset(Map(rest, f)) + multiset{f(ys[i])}
  {
    var pre, post := ys[..i], ys[i + 1..];
    assert ys == pre + ([ys[i]] + post);
    MapOfConcat(pre, post, f);
    MapOfConcat(pre, [ys[i]] + post, f);
    assert Map([ys[i]] + post, f) == [f(ys[i])] + Map(post, f);
  }

  lemma CancelOne<A>(a: multiset<A>, b: multiset<A>, x: A)
    requires a + multiset{x} == b + multiset{x}
    ensures a == b
  {
    assert a == a + multiset{x} - multiset{x} && b == b + multiset{x} - multiset{x};
  }

  lemma {:induction false} MapPermutes<A, B>(xs: seq<A>, ys: seq<A>, f: A -> B)
    requires multiset(xs) == multiset(ys)
    ensures multiset(Map(xs, f)) == multiset(Map(ys, f))
    decreases |xs|
  {
    if xs == [] {
      assert |multiset(ys)| == 0;
    } else {
      assert xs[0] in multiset(ys);
      var i :| 0 <= i < |ys| && ys[i] == xs[0];
      assert xs == [xs[0]] + xs[1..];
      var rest := ys[..i] + ys[i + 1..];
      MapWithout(ys, i, f);
      CancelOne(multiset(xs[1..]), multiset(rest), xs[0]);
      MapPermutes(xs[1..], rest, f);
    }
  }

  lemma {:induction false} MapOfConcat<A, B>(xs: seq<A>, ys: seq<A>, f: A -> B)
    ensures Map(xs + ys, f) == Map(xs, f) + Map(ys, f)
  {
    if xs == [] {
      assert xs + ys == ys;
    } else {
      assert (xs + ys)[1..] == xs[1..] + ys;
      MapOfConcat(xs[1..], ys, f);
    }
  }

  lemma {:induction false} MapThroughKey(cs: seq<ColumnInfo>, rk: string)
    ensures Map(cs, ColumnBuilder(rk)) == Map(Map(cs, KeyOf), KeyBuilder(rk))
  {
    if cs != [] {
      MapThroughKey(cs[1..], rk);
      assert Map(cs, KeyOf)[1..] == Map(cs[1..], KeyOf);
    }
  }

  lemma ColumnsFromHash(t: TableInfo, rk: string)
    ensures multiset(Map(t.columns, ColumnBuilder(rk)))
         == multiset(Map(ContentHash(t).columns, KeyBuilder(rk)))
  {
    var sorted := Sort(t.columns, ByName);
    SortPermutes(t.columns, ByName);
    MapPermutes(t.columns, sorted, ColumnBuilder(rk));
    MapThroughKey(sorted, rk);
  }

  /** Two tables with the same hash get the same model, up to the order of the columns, for one
      source and catalog; and the catalog is part of the model. */
  lemma HashDeterminesModel(sourceId: string, catalogA: Option<string>, a: TableInfo, catalogB: Option<string>, b: TableInfo)
    requires ContentHash(a) == ContentHash(b)
    ensures SameModel(Build(sourceId, catalogA, a), Build(sourceId, catalogB, b)) <==> catalogA == catalogB
  {
    if catalogA == catalogB {
      var rk := AssetRk(sourceId, catalogA, a);
      ColumnsFromHash(a, rk);
      ColumnsFromHash(b, rk);
    }
  }

  // What the model shows of a column and of a table, apart from where they are.
  datatype ColumnFacts = ColumnFacts(
    name: string, sqlType: string, nullable: bool, description: Option<string>, isPrimaryKey: bool, references: Option<string>)

  function Facts(c: ColumnInfo): ColumnFacts {
    ColumnFacts(
      c.name, c.sqlType, c.nullable, c.description, c.isPrimaryKey,
      if c.referencesTable.None? || c.referencesTable.value == "" then None
      else if c.referencesColumn.None? || c.referencesColumn.value == "" then c.referencesTable
      else Some(c.referencesTable.value + "." + c.referencesColumn.value))
  }

  // The order of the columns does not count, nor do their defaults.
  ghost predicate SameContent(a: TableInfo, b: TableInfo) {
    && a.schema == b.schema && a.name == b.name && a.description == b.description && a.isView == b.isView
    && (a.isView ==> (Truthy(a.viewDefinition) || Truthy(b.viewDefinition) ==> a.viewDefinition == b.viewDefinition))
    && multiset(Map(a.columns, Facts)) == multiset(Map(b.columns, Facts))
  }

  // A column's model, from its facts and back.
  function Shown(tableRk: string): ColumnFacts -> MdlColumn {
    (x: ColumnFacts) =>
      MdlColumn(x.name, x.sqlType, !x.nullable, ColumnRk(tableRk, x.name), Humanize(x.name, true, false),
                x.description, Truthy(x.description), x.isPrimaryKey, x.references)
  }

  function FactsShown(m: MdlColumn): ColumnFacts {
    ColumnFacts(m.name, m.sqlType, !m.notNull, m.description, m.isPrimaryKey, m.references)
  }

  lemma {:induction false} ColumnsByFacts(cs: seq<ColumnInfo>, rk: string)
    ensures Map(Map(cs, Facts), Shown(rk)) == Map(cs, ColumnBuilder(rk))
    ensures Map(Map(cs, ColumnBuilder(rk)), FactsShown) == Map(cs, Facts)
  {
    if cs != [] {
      ColumnsByFacts(cs[1..], rk);
      assert Map(cs, Facts)[1..] == Map(cs[1..], Facts);
      assert Map(cs, ColumnBuilder(rk))[1..] == Map(cs[1..], ColumnBuilder(rk));
    }
  }

  lemma SameColumnsIff(a: seq<ColumnInfo>, b: seq<ColumnInfo>, rk: string)
    ensures multiset(Map(a, ColumnBuilder(rk))) == multiset(Map(b, ColumnBuilder(rk))) <==>
      multiset(Map(a, Facts)) == multiset(Map(b, Facts))
  {
    hide Map, Facts, FactsShown, Shown, ColumnBuilder;
    ColumnsByFacts(a, rk);
    ColumnsByFacts(b, rk);
    if multiset(Map(a, ColumnBuilder(rk))) == multiset(Map(b, ColumnBuilder(rk))) {
      MapPermutes(Map(a, ColumnBuilder(rk)), Map(b, ColumnBuilder(rk)), FactsShown);
    }
    if multiset(Map(a, Facts)) == multiset(Map(b, Facts)) {
      MapPermutes(Map(a, Facts), Map(b, Facts), Shown(rk));
    }
  }

  /** Two models of one source are the same, up to the order of the columns, if and only if they were
      built with the same catalog from tables with the same schema, name, description and view, and
      with columns of the same names, types, nullability, descriptions, key flags and references. */
  lemma SameModelIff(sourceId: string, catalogA: Option<string>, a: TableInfo, catalogB: Option<string>, b: TableInfo)
    ensures SameModel(Build(sourceId, catalogA, a), Build(sourceId, catalogB, b)) <==> catalogA == catalogB && SameContent(a, b)
  {
    hide Map, ColumnBuilder, Facts;
    SameColumnsIff(a.columns, b.columns, AssetRk(sourceId, catalogA, a));
  }

  // The hash covers the content.
  lemma HashDeterminesContent(a: TableInfo, b: TableInfo)
    requires ContentHash(a) == ContentHash(b)
    ensures SameContent(a, b)
  {
    HashDeterminesModel("", None, a, None, b);
    SameModelIff("", None, a, None, b);
  }

  // What a reader of the model sees of a column.
  ghost predicate Shows(m: MdlColumn, c: ColumnInfo, tableRk: string) {
    && m.name == c.name && m.sqlType == c.sqlType && m.notNull != c.nullable
    && m.rk == tableRk + "/" + c.name
    && m.description == c.description && m.isPrimaryKey == c.isPrimaryKey
    && (m.fromExtractor <==> c.description.Some? && c.description.value != "")
    && m.references == match c.referencesTable
       case None => None
       case Some(table) =>
         if table == "" then None
         else if c.referencesColumn.None? || c.referencesColumn.value == "" then Some(table)
         else Some(table + "." + c.referencesColumn.value)
  }

  // And of the table itself.
  ghost predicate ShowsTable(m: Model, sourceId: string, catalog: Option<string>, t: TableInfo) {
    && m.sourceId == sourceId && m.catalog == catalog && m.schema == t.schema && m.name == t.name
    && m.description == t.description && m.isView == t.isView
    && (m.fromExtractor <==> t.description.Some? && t.description.value != "")
    && m.viewQuery == if t.isView && t.viewDefinition != Some("") then t.viewDefinition else None
  }

  lemma {:induction false} ColumnsShown(cs: seq<ColumnInfo>, rk: string)
    ensures |Map(cs, ColumnBuilder(rk))| == |cs|
    ensures forall i :: 0 <= i < |cs| ==> Shows(Map(cs, ColumnBuilder(rk))[i], cs[i], rk)
  {
    if cs != [] {
      ColumnsShown(cs[1..], rk);
      hide Shows;
      assert Shows(BuildColumn(rk, cs[0]), cs[0], rk) by { ColumnShown(cs[0], rk); }
    }
  }

  lemma ColumnShown(c: ColumnInfo, rk: string)
    ensures Shows(BuildColumn(rk, c), c, rk)
  {
  }

  // `rk` names at most one column of a table whose column names differ.
  ghost predicate KeysApart(columns: seq<MdlColumn>) {
    forall i, j :: 0 <= i < j < |columns| ==> columns[i].rk != columns[j].rk
  }

  /** The model shows the table and every column of it in place, and the keys of its columns are as
      distinct as their names. */
  lemma ModelShowsTheTable(sourceId: string, catalog: Option<string>, t: TableInfo)
    ensures var m := Build(sourceId, catalog, t);
      && ShowsTable(m, sourceId, catalog, t)
      && |m.columns| == |t.columns|
      && (forall i :: 0 <= i < |t.columns| ==> Shows(m.columns[i], t.columns[i], m.rk))
      && (KeysApart(m.columns) <==> forall i, j :: 0 <= i < j < |t.columns| ==> t.columns[i].name != t.columns[j].name)
  {
    var m := Build(sourceId, catalog, t);
    ColumnsShown(t.columns, m.rk);
    forall i, j | 0 <= i < |t.columns| && 0 <= j < |t.columns|
      ensures m.columns[i].rk == m.columns[j].rk <==> t.columns[i].name == t.columns[j].name
    {
      SamePrefix(m.rk + "/", t.columns[i].name, t.columns[j].name);
    }
  }

  lemma SamePrefix(pre: string, a: string, b: string)
    ensures pre + a == pre + b <==> a == b
  {
    if pre + a == pre + b { assert a == (pre + a)[|pre|..] == (pre + b)[|pre|..] == b; }
  }
}
