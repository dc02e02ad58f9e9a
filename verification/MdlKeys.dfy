/** What keys, display names and content hashes of the model tell apart. */
module MdlKeys {
  import opened Wrappers
  import opened Sorting
  import opened Mdl

  // ---------------------------------------------------------------- keys of tables

  lemma SplitAtSlash(a: string, b: string, c: string, d: string)
    requires '/' !in a && '/' !in c && a + "/" + b == c + "/" + d
    ensures a == c && b == d
  {
    var x, y := a + "/" + b, c + "/" + d;
    assert x[|a|] == '/' && y[|c|] == '/';
    assert forall i :: 0 <= i < |a| ==> x[i] == a[i] && a[i] in a;
    assert forall i :: 0 <= i < |c| ==> y[i] == c[i] && c[i] in c;
    assert |a| == |c|;
    assert a == x[..|a|] == y[..|c|] == c;
    assert b == x[|a| + 1..] == y[|c| + 1..] == d;
  }

  // The part of a key that names the database.
  function Host(sourceId: string, catalog: Option<string>): string {
    match catalog
    case Some(c) => if c == "" then sourceId else sourceId + "." + c
    case None => sourceId
  }

  /** The key of a table names its database, schema and name, joined by slashes: if database and schema
      are free of slashes, two keys are the same only for the same three. */
  lemma SameTableIff(sourceA: string, catalogA: Option<string>, a: TableInfo, sourceB: string, catalogB: Option<string>, b: TableInfo)
    ensures AssetRk(sourceA, catalogA, a) == AssetRk(sourceB, catalogB, b) <==>
      Host(sourceA, catalogA) + "/" + (a.schema + "/" + a.name) == Host(sourceB, catalogB) + "/" + (b.schema + "/" + b.name)
    ensures '/' !in Host(sourceA, catalogA) && '/' !in Host(sourceB, catalogB) && '/' !in a.schema && '/' !in b.schema ==>
      (AssetRk(sourceA, catalogA, a) == AssetRk(sourceB, catalogB, b) <==>
        Host(sourceA, catalogA) == Host(sourceB, catalogB) && a.schema == b.schema && a.name == b.name)
    ensures "postgres://" <= AssetRk(sourceA, catalogA, a)
  {
    var pre, x, y := "postgres://", Host(sourceA, catalogA), Host(sourceB, catalogB);
    KeyParts(sourceA, catalogA, a);
    KeyParts(sourceB, catalogB, b);
    SamePrefix(pre, x + "/" + (a.schema + "/" + a.name), y + "/" + (b.schema + "/" + b.name));
    if AssetRk(sourceA, catalogA, a) == AssetRk(sourceB, catalogB, b) && '/' !in x && '/' !in y && '/' !in a.schema && '/' !in b.schema {
      SplitAtSlash(x, a.schema + "/" + a.name, y, b.schema + "/" + b.name);
      SplitAtSlash(a.schema, a.name, b.schema, b.name);
    }
  }

  lemma KeyParts(sourceId: string, catalog: Option<string>, t: TableInfo)
    ensures AssetRk(sourceId, catalog, t) == "postgres://" + (Host(sourceId, catalog) + "/" + (t.schema + "/" + t.name))
  {
    assert Truthy(catalog) ==> "postgres://" + sourceId + ("." + catalog.value) == "postgres://" + (sourceId + "." + catalog.value);
    assert "postgres://" + sourceId + "" == "postgres://" + sourceId;
  }

  /** With a slash in a schema two tables can have one key. */
  lemma SlashedSchemasShareKey(sourceId: string, catalog: Option<string>, t: TableInfo)
    ensures AssetRk(sourceId, catalog, t.(schema := "a/b", name := "c")) == AssetRk(sourceId, catalog, t.(schema := "a", name := "b/c"))
  {
    KeyParts(sourceId, catalog, t.(schema := "a/b", name := "c"));
    KeyParts(sourceId, catalog, t.(schema := "a", name := "b/c"));
    assert "a/b" + "/" + "c" == "a" + "/" + "b/c";
  }

  // ---------------------------------------------------------------- display names

  // `name.split("_")`.
  function Parts(name: string): (parts: seq<string>)
    ensures parts != []
  {
    if name == "" then [""]
    else
      var rest := Parts(name[1..]);
      if name[0] == '_' then [""] + rest else [[name[0]] + rest[0]] + rest[1..]
  }

  function LowerAll(s: string): string {
    if s == "" then "" else [Lower(s[0])] + LowerAll(s[1..])
  }

  function Capitalised(part: string): string
    requires part != ""
  {
    [Upper(part[0])] + LowerAll(part[1..])
  }

  // `" ".join(...)` of the capitalised parts that are not empty.
  function Joined(parts: seq<string>): string {
    if parts == [] then ""
    else if parts[0] == "" then Joined(parts[1..])
    else Capitalised(parts[0]) + Following(parts[1..])
  }

  function Following(parts: seq<string>): string {
    if parts == [] then ""
    else (if parts[0] == "" then "" else " " + Capitalised(parts[0])) + Following(parts[1..])
  }

  // The one pass over the characters, from each of the places it can be at.
  lemma {:induction false} HumanizeFrom(name: string)
    ensures var parts := Parts(name);
      && Humanize(name, true, false) == Joined(parts)
      && Humanize(name, true, true) == Following(parts)
      && Humanize(name, false, true) == LowerAll(parts[0]) + Following(parts[1..])
  {
    hide Upper, Lower;
    if name != "" {
      HumanizeFrom(name[1..]);
      var rest, parts := Parts(name[1..]), Parts(name);
      if name[0] == '_' {
        assert parts[0] == "" && parts[1..] == rest;
      } else {
        PartGrows(name[0], rest);
        assert parts == [[name[0]] + rest[0]] + rest[1..];
        hide Joined, Following, LowerAll, Capitalised, Parts;
        assert Humanize(name, true, true) == " " + [Upper(name[0])] + Humanize(name[1..], false, true);
      }
    }
  }

  // One more character in front of the first part.
  lemma PartGrows(c: char, rest: seq<string>)
    requires rest != []
    ensures var parts := [[c] + rest[0]] + rest[1..];
      && Joined(parts) == [Upper(c)] + (LowerAll(rest[0]) + Following(rest[1..]))
      && Following(parts) == " " + [Upper(c)] + (LowerAll(rest[0]) + Following(rest[1..]))
      && LowerAll(parts[0]) + Following(parts[1..]) == [Lower(c)] + (LowerAll(rest[0]) + Following(rest[1..]))
  {
    hide Upper, Lower;
    var parts, low, fol := [[c] + rest[0]] + rest[1..], LowerAll(rest[0]), Following(rest[1..]);
    assert parts[1..] == rest[1..] && parts[0][1..] == rest[0] && parts[0][0] == c;
    assert Capitalised(parts[0]) == [Upper(c)] + low && LowerAll(parts[0]) == [Lower(c)] + low;
    hide LowerAll, Capitalised;
    Regroup("", [Upper(c)], low, fol);
    Regroup(" ", [Upper(c)], low, fol);
    Regroup("", [Lower(c)], low, fol);
  }

  lemma Regroup(a: string, b: string, c: string, d: string)
    ensures a + (b + c) + d == a + b + (c + d)
    ensures "" + b == b && "" + (b + c) == b + c
  {
  }

  /** Every column is displayed by the non-empty parts of its name, capitalised and joined by spaces. */
  lemma DisplayNamesAreParts(sourceId: string, catalog: Option<string>, t: TableInfo, i: nat)
    requires i < |t.columns|
    ensures var m := Build(sourceId, catalog, t);
      i < |m.columns| && m.columns[i].displayName == Joined(Parts(t.columns[i].name))
  {
    hide Humanize;
    MappedInPlace(t.columns, ColumnBuilder(AssetRk(sourceId, catalog, t)));
    HumanizeFrom(t.columns[i].name);
  }

  lemma {:induction false} MappedInPlace<A, B>(xs: seq<A>, f: A -> B)
    ensures |Map(xs, f)| == |xs| && forall i :: 0 <= i < |xs| ==> Map(xs, f)[i] == f(xs[i])
  {
    if xs != [] { MappedInPlace(xs[1..], f); }
  }

  // ---------------------------------------------------------------- equal hashes

  predicate KeyByName(a: ColumnKey, b: ColumnKey) {
    StringLe(a.name, b.name)
  }

  function KeyNamed(name: string): ColumnKey -> bool {
    (k: ColumnKey) => k.name == name
  }

  // The hashed parts of the columns that have this name, in the table's order.
  function KeysNamed(t: TableInfo, name: string): seq<ColumnKey> {
    Filter(KeyNamed(name), Map(t.columns, KeyOf))
  }

  lemma {:induction false} InsertThenMap(c: ColumnInfo, cs: seq<ColumnInfo>)
    ensures Map(Insert(c, cs, ByName), KeyOf) == Insert(KeyOf(c), Map(cs, KeyOf), KeyByName)
  {
    if cs != [] {
      InsertThenMap(c, cs[1..]);
      assert Map(cs, KeyOf)[1..] == Map(cs[1..], KeyOf);
    }
  }

  lemma {:induction false} SortThenMap(cs: seq<ColumnInfo>)
    ensures Map(Sort(cs, ByName), KeyOf) == Sort(Map(cs, KeyOf), KeyByName)
  {
    if cs != [] {
      SortThenMap(cs[1..]);
      InsertThenMap(cs[0], Sort(cs[1..], ByName));
      assert Map(cs, KeyOf)[1..] == Map(cs[1..], KeyOf);
    }
  }

  lemma NamesAreOrdered()
    ensures Total(KeyByName) && Transitive(KeyByName) && Total(StringLe) && Transitive(StringLe)
    ensures forall a, b :: StringLe(a, b) && StringLe(b, a) ==> a == b
  {
    hide StringLe;
    forall a, b ensures (StringLe(a, b) || StringLe(b, a)) && (StringLe(a, b) && StringLe(b, a) ==> a == b) { StringLeTotal(a, b); }
    forall a, b, c | StringLe(a, b) && StringLe(b, c) ensures StringLe(a, c) { StringLeTransitive(a, b, c); }
  }

  lemma ClassOfName(ks: seq<ColumnKey>, a: ColumnKey)
    ensures Filter(Class(KeyByName, a), ks) == Filter(KeyNamed(a.name), ks)
  {
    hide StringLe;
    NamesAreOrdered();
    forall k ensures Class(KeyByName, a)(k) <==> KeyNamed(a.name)(k) { StringLeTotal(k.name, a.name); StringLeTotal(a.name, k.name); }
    FilterSame(Class(KeyByName, a), KeyNamed(a.name), ks);
  }

  lemma SortedKeysSameIff(ks: seq<ColumnKey>, ls: seq<ColumnKey>)
    ensures Sort(ks, KeyByName) == Sort(ls, KeyByName) <==>
      forall name :: Filter(KeyNamed(name), ks) == Filter(KeyNamed(name), ls)
  {
    NamesAreOrdered();
    hide Sort, Filter;
    forall name: string
      ensures var a := ColumnKey(name, "", false, None, false, None, None);
        && Filter(Class(KeyByName, a), Sort(ks, KeyByName)) == Filter(KeyNamed(name), ks)
        && Filter(Class(KeyByName, a), Sort(ls, KeyByName)) == Filter(KeyNamed(name), ls)
    {
      var a := ColumnKey(name, "", false, None, false, None, None);
      SortStable(ks, KeyByName, a);
      SortStable(ls, KeyByName, a);
      ClassOfName(ks, a);
      ClassOfName(ls, a);
    }
    if forall name :: Filter(KeyNamed(name), ks) == Filter(KeyNamed(name), ls) {
      SortSorts(ks, KeyByName);
      SortSorts(ls, KeyByName);
      forall a ensures Filter(Class(KeyByName, a), Sort(ks, KeyByName)) == Filter(Class(KeyByName, a), Sort(ls, KeyByName)) {
        SortStable(ks, KeyByName, a);
        SortStable(ls, KeyByName, a);
        ClassOfName(ks, a);
        ClassOfName(ls, a);
      }
      SortedByClasses(Sort(ks, KeyByName), Sort(ls, KeyByName), KeyByName);
    }
  }

  lemma SameFirst<T(!new)>(xs: seq<T>, ys: seq<T>, le: (T, T) -> bool)
    requires xs != [] && Sorted(xs, le) && Sorted(ys, le) && multiset(xs) == multiset(ys)
    requires forall a, b :: a in xs && b in xs && le(a, b) && le(b, a) ==> a == b
    ensures ys != [] && xs[0] == ys[0]
  {
    assert xs[0] in multiset(ys);
    var i :| 0 <= i < |ys| && ys[i] == xs[0];
    assert ys[0] in multiset(xs);
    var j :| 0 <= j < |xs| && xs[j] == ys[0];
    if i > 0 && j > 0 { assert le(ys[0], ys[i]) && le(xs[0], xs[j]); }
  }

  // One order of a multiset is sorted, if only equal elements are both before and after each other.
  lemma {:induction false} SortedIsUnique<T(!new)>(xs: seq<T>, ys: seq<T>, le: (T, T) -> bool)
    requires Sorted(xs, le) && Sorted(ys, le) && multiset(xs) == multiset(ys)
    requires forall a, b :: a in xs && b in xs && le(a, b) && le(b, a) ==> a == b
    ensures xs == ys
  {
    if xs == [] {
      assert |multiset(ys)| == 0;
    } else {
      SameFirst(xs, ys, le);
      assert xs == [xs[0]] + xs[1..] && ys == [xs[0]] + ys[1..];
      assert multiset(xs[1..]) + multiset{xs[0]} == multiset(xs) && multiset(ys[1..]) + multiset{xs[0]} == multiset(ys);
      CancelOne(multiset(xs[1..]), multiset(ys[1..]), xs[0]);
      SortedIsUnique(xs[1..], ys[1..], le);
    }
  }

  lemma SortedTextsSameIff(xs: seq<string>, ys: seq<string>)
    ensures Sort(xs, StringLe) == Sort(ys, StringLe) <==> multiset(xs) == multiset(ys)
  {
    NamesAreOrdered();
    SortPermutes(xs, StringLe);
    SortPermutes(ys, StringLe);
    if multiset(xs) == multiset(ys) {
      SortSorts(xs, StringLe);
      SortSorts(ys, StringLe);
      SortedIsUnique(Sort(xs, StringLe), Sort(ys, StringLe), StringLe);
    }
  }

  // What the hash covers besides the columns and the primary key.
  predicate SameHeader(a: TableInfo, b: TableInfo) {
    && a.schema == b.schema && a.name == b.name && a.isView == b.isView
    && a.viewDefinition == b.viewDefinition && a.description == b.description
  }

  /** Two tables have the same hash if and only if they agree in header, in the columns of the primary
      key in any order, and, for every name, in the hashed parts of the columns of that name in order. */
  lemma SameHashIff(a: TableInfo, b: TableInfo)
    ensures ContentHash(a) == ContentHash(b) <==>
      && SameHeader(a, b) && multiset(a.primaryKey) == multiset(b.primaryKey)
      && forall name :: KeysNamed(a, name) == KeysNamed(b, name)
  {
    hide Sort, Filter, Map;
    forall name ensures KeysNamed(a, name) == Filter(KeyNamed(name), Map(a.columns, KeyOf)) {}
    forall name ensures KeysNamed(b, name) == Filter(KeyNamed(name), Map(b.columns, KeyOf)) {}
    hide KeysNamed;
    SortThenMap(a.columns);
    SortThenMap(b.columns);
    SortedKeysSameIff(Map(a.columns, KeyOf), Map(b.columns, KeyOf));
    SortedTextsSameIff(a.primaryKey, b.primaryKey);
  }

  /** The order in which the columns and the primary key come does not change the hash of a table whose
      column names differ, nor do defaults and row counts of any. */
  lemma HashIgnoresOrder(a: TableInfo, b: TableInfo)
    requires SameHeader(a, b) && multiset(a.primaryKey) == multiset(b.primaryKey)
    requires multiset(Map(a.columns, KeyOf)) == multiset(Map(b.columns, KeyOf))
    requires forall i, j :: 0 <= i < j < |a.columns| ==> a.columns[i].name != a.columns[j].name
    ensures ContentHash(a) == ContentHash(b)
  {
    var ks, ls := Map(a.columns, KeyOf), Map(b.columns, KeyOf);
    hide Sort, Map, StringLe;
    NamesAreOrdered();
    SortThenMap(a.columns);
    SortThenMap(b.columns);
    SortedTextsSameIff(a.primaryKey, b.primaryKey);
    SortPermutes(ks, KeyByName);
    SortPermutes(ls, KeyByName);
    SortSorts(ks, KeyByName);
    SortSorts(ls, KeyByName);
    SortKeepsElements(ks, KeyByName);
    MappedInPlace(a.columns, KeyOf);
    forall k, l | k in ks && l in ks && KeyByName(k, l) && KeyByName(l, k) ensures k == l {
      var i :| 0 <= i < |ks| && ks[i] == k;
      var j :| 0 <= j < |ks| && ks[j] == l;
      assert k.name == a.columns[i].name && l.name == a.columns[j].name;
    }
    SortedIsUnique(Sort(ks, KeyByName), Sort(ls, KeyByName), KeyByName);
  }
}
