/** What the staged workflow stores against what the local runtime stores.

    A staged table is opened where its URI leads, and nothing undoes the quoting of a URI; so the
    two agree as far as the names of the files allow. */
module StagingRefinement {
  import opened Wrappers
  import opened Dicts
  import opened Uris
  import opened StagingPaths
  import opened Staging
  import Metadata

  // ---------------------------------------------------------------- what compute reads

  // Letters and digits: in particular none of these.
  ghost predicate Alphanumeric(lib: Library) {
    !lib.alnum('/') && !lib.alnum('.') && !lib.alnum('%')
  }

  lemma {:induction false} ReadAllAt(f: Files, uris: seq<(string, Uri)>)
    ensures ReadAll(f, uris).Some? <==> forall i :: 0 <= i < |uris| ==> Find(f, LocalPath(uris[i].1)).Some?
    ensures ReadAll(f, uris).Some? ==>
      && |ReadAll(f, uris).value| == |uris|
      && forall i :: 0 <= i < |uris| ==>
            ReadAll(f, uris).value[i].0 == uris[i].0 && Some(ReadAll(f, uris).value[i].1) == Find(f, LocalPath(uris[i].1))
  {
    hide LocalPath, Find;
    if uris != [] {
      var init := uris[..|uris| - 1];
      assert forall i :: 0 <= i < |init| ==> init[i] == uris[i];
      ReadAllAt(f, init);
    }
  }

  lemma {:induction false} TablesAt(streams: seq<(string, Stream)>)
    ensures |Tables(streams)| == |streams|
    ensures forall i :: 0 <= i < |streams| ==> Tables(streams)[i] == (streams[i].0, TableOf(streams[i].1))
  {
    if streams != [] { TablesAt(streams[..|streams| - 1]); }
  }

  lemma UnwrittenStays(f: Files, items: seq<Item>, q: Path)
    requires AllDests(items) && IsDest(q) && forall i :: 0 <= i < |items| ==> items[i].path != q
    ensures Find(WriteAll(f, items), q) == Find(f, q)
  {
    hide WriteAll;
    DestsApart(items);
    LastToIsAnItem(items, q);
    forall i | 0 <= i < |items| ensures TempOf(items[i].path) != q { DestsAndTemps(items[i].path); }
    WriteAllWrites(f, items, q);
  }

  lemma WrittenIsFound(f: Files, items: seq<Item>, p: Path)
    requires AllDests(items) && LastTo(items, p).Some?
    ensures Find(WriteAll(f, items), p) == Some(TableOf(LastTo(items, p).value.stream))
  {
    hide WriteAll, LastTo;
    DestsApart(items);
    WriteAllWrites(f, items, p);
  }

  lemma AcceptedNameIsSafe(lib: Library, name: string)
    requires Alphanumeric(lib) && ViewNameOk(lib.alnum, name)
    ensures SafeName(name) == name && '%' !in name
  {
    if '/' in name { KeptCharacters(name, '/'); }
    if '.' in name { KeptCharacters(name, '.'); }
    if '%' in name { KeptCharacters(name, '%'); }
    PlainIsSafe(name);
  }

  // A file opened in place of a staged input is not one of the staged inputs.
  lemma OpenedInputIsUnwritten(lib: Library, root: Root, a: string, b: string)
    requires Alphanumeric(lib) && ViewNameOk(lib.alnum, a) && ViewNameOk(lib.alnum, b)
    requires !Clean(ExtractPath(root, a))
    ensures ReadPath(ExtractPath(root, a)) != ExtractPath(root, b)
  {
    hide ReadPath, ExtractPath, SafeName, ViewNameOk, Clean, Quote;
    AcceptedNameIsSafe(lib, b);
    OpenedPath(root, a);
    OpenedIsWritten(root, a, b);
    QuoteUnchangedIffClean(root);
    QuoteUnchangedIffClean(SafeName(a));
  }

  // What is opened for an input: its table, or what was there before at the quoted path.
  lemma FoundInput(lib: Library, root: Root, f: Files, streams: seq<(string, Stream)>, i: nat)
    requires Alphanumeric(lib) && IsDict(streams) && NamesOk(lib, streams) && i < |streams|
    ensures var p := ExtractPath(root, streams[i].0);
      Find(WriteAll(f, ExtractItems(root, streams)), ReadPath(p))
        == if Clean(p) then Some(TableOf(streams[i].1)) else Find(f, ReadPath(p))
  {
    hide ReadPath, ExtractPath, ViewNameOk, Clean, WriteAll, ExtractItems, TableOf, Find;
    var name, items := streams[i].0, ExtractItems(root, streams);
    var p := ExtractPath(root, name);
    ExtractItemsAt(root, streams);
    StagedItemsAreDests(root, streams, Computed(Table("", []), [], []));
    OpenedPath(root, name);
    if Clean(p) {
      forall j | i < j < |items| ensures items[j].path != items[i].path {
        AcceptedNamesInjective(lib.alnum, root, name, streams[j].0);
      }
      LastToAt(items, i);
      WrittenIsFound(f, items, p);
    } else {
      forall j | 0 <= j < |items| ensures items[j].path != ReadPath(p) {
        OpenedInputIsUnwritten(lib, root, name, streams[j].0);
      }
      DestsAreDests(root, name);
      UnwrittenStays(f, items, ReadPath(p));
    }
  }

  // An input whose path a URI does not give back, and nothing to open at the path it gives.
  ghost predicate InputMissing(root: Root, f: Files, streams: seq<(string, Stream)>) {
    exists i :: 0 <= i < |streams| &&
      var p := ExtractPath(root, streams[i].0); !Clean(p) && Find(f, ReadPath(p)).None?
  }

  // What there is to open for such inputs is, by chance, their very tables.
  ghost predicate InputsRight(root: Root, f: Files, streams: seq<(string, Stream)>) {
    forall i :: 0 <= i < |streams| ==>
      var p := ExtractPath(root, streams[i].0); Clean(p) || Find(f, ReadPath(p)) == Some(TableOf(streams[i].1))
  }

  lemma InputsRead(lib: Library, root: Root, f: Files, streams: seq<(string, Stream)>)
    requires Alphanumeric(lib) && IsDict(streams) && NamesOk(lib, streams)
    ensures var read := ReadAll(WriteAll(f, ExtractItems(root, streams)), ExtractUris(root, streams));
      && (read.None? <==> InputMissing(root, f, streams))
      && (read == Some(Tables(streams)) <==> InputsRight(root, f, streams))
      && (read.Some? ==> (ToMap(read.value) == ToMap(Tables(streams)) <==> InputsRight(root, f, streams)))
  {
    hide ReadPath, ExtractPath, ViewNameOk, Clean, WriteAll, ExtractItems, ExtractUris, TableOf, Find, ToMap, Tables, ReadAll, LocalPath;
    var g, uris := WriteAll(f, ExtractItems(root, streams)), ExtractUris(root, streams);
    ExtractUrisAt(root, streams);
    ReadAllAt(g, uris);
    TablesAt(streams);
    forall i | 0 <= i < |streams|
      ensures var p := ExtractPath(root, streams[i].0);
        Find(g, LocalPath(uris[i].1)) == if Clean(p) then Some(TableOf(streams[i].1)) else Find(f, ReadPath(p))
    {
      FoundInput(lib, root, f, streams, i);
    }
    if ReadAll(g, uris).Some? {
      var read := ReadAll(g, uris).value;
      forall i | 0 <= i < |streams|
        ensures var p := ExtractPath(root, streams[i].0);
          read[i] == Tables(streams)[i] <==> Clean(p) || Find(f, ReadPath(p)) == Some(TableOf(streams[i].1))
      {
        assert Some(read[i].1) == Find(g, LocalPath(uris[i].1));
      }
      assert read == Tables(streams) <==> forall i :: 0 <= i < |streams| ==> read[i] == Tables(streams)[i];
      SameEntries(read, Tables(streams));
    }
  }

  // Dictionaries with the same keys in the same order are the same entry by entry.
  lemma SameEntries<V>(a: seq<(string, V)>, b: seq<(string, V)>)
    requires IsDict(a) && |a| == |b| && forall i :: 0 <= i < |a| ==> a[i].0 == b[i].0
    ensures ToMap(a) == ToMap(b) <==> a == b
  {
    hide ToMap;
    ToMapOfDict(a);
    ToMapOfDict(b);
    if ToMap(a) == ToMap(b) {
      forall i | 0 <= i < |a| ensures a[i] == b[i] { assert ToMap(a)[a[i].0] == a[i].1; }
    }
  }

  /** After an extract that answered, under any schedule, compute cannot open its inputs exactly if
      one of them is missing where its URI leads, and reads the recipe's streams exactly if every
      input's path is clean or has its very table where the URI leads. */
  lemma ExtractHandsOver(lib: Library, root: Root, f: Files, streams: seq<(string, Stream)>, fates: seq<Fate>)
    requires Alphanumeric(lib) && IsDict(streams) && NamesOk(lib, streams)
    requires Retry(f, ExtractItems(root, streams), 3, fates).answer.Some?
    ensures var read := ReadAll(Retry(f, ExtractItems(root, streams), 3, fates).files, ExtractUris(root, streams));
      && (read.None? <==> InputMissing(root, f, streams))
      && (read == Some(Tables(streams)) <==> InputsRight(root, f, streams))
  {
    hide Retry, ExtractItems, ExtractUris, ReadAll, WriteAll, InputMissing, InputsRight;
    var items := ExtractItems(root, streams);
    StagedItemsAreDests(root, streams, Computed(Table("", []), [], []));
    AnswerAsUndisturbed(f, f, items, 3, fates);
    ExtractUrisAt(root, streams);
    ReadsSame(Retry(f, items, 3, fates).files, WriteAll(f, items), ExtractUris(root, streams));
    InputsRead(lib, root, f, streams);
  }

  // ---------------------------------------------------------------- what persist reads

  // The table that ends up in the file of an auxiliary: the last one whose name leads there.
  function LastSafe(auxiliaries: seq<(string, Table)>, name: string): Option<Table> {
    if auxiliaries == [] then None
    else if SafeName(AuxName(auxiliaries[|auxiliaries| - 1].0)) == SafeName(AuxName(name))
    then Some(auxiliaries[|auxiliaries| - 1].1)
    else LastSafe(auxiliaries[..|auxiliaries| - 1], name)
  }

  // What persist reads back for the auxiliaries `part` out of `all`.
  function Restaged(part: seq<(string, Table)>, all: seq<(string, Table)>): seq<(string, Table)>
    requires forall i :: 0 <= i < |part| ==> part[i] in all
  {
    if part == [] then []
    else
      LastSafeExists(all, part[|part| - 1]);
      Restaged(part[..|part| - 1], all) + [(part[|part| - 1].0, LastSafe(all, part[|part| - 1].0).value)]
  }

  lemma {:induction false} LastSafeExists(all: seq<(string, Table)>, entry: (string, Table))
    requires entry in all
    ensures LastSafe(all, entry.0).Some?
  {
    if entry != all[|all| - 1] { LastSafeExists(all[..|all| - 1], entry); }
  }

  lemma StreamOfTable(t: Table)
    ensures TableOf(AsStream(t)) == t
  {
    var one := [Chunk(t.rows, 0)];
    assert one[..0] == [];
    assert Rows(one) == Rows(one[..0]) + t.rows;
  }

  lemma {:induction false} LastToAux(root: Root, first: Item, auxiliaries: seq<(string, Table)>, name: string)
    requires LastSafe(auxiliaries, name).Some?
    ensures LastTo([first] + AuxItems(root, auxiliaries), ComputePath(root, AuxName(name)))
         == Some(Item(ComputePath(root, AuxName(name)), AsStream(LastSafe(auxiliaries, name).value)))
  {
    var init, last := auxiliaries[..|auxiliaries| - 1], auxiliaries[|auxiliaries| - 1];
    var items := [first] + AuxItems(root, auxiliaries);
    PathsFollowNames(root, AuxName(last.0), AuxName(name));
    assert items[..|items| - 1] == [first] + AuxItems(root, init);
    if SafeName(AuxName(last.0)) != SafeName(AuxName(name)) { LastToAux(root, first, init, name); }
  }

  lemma PrimaryIsFirst(root: Root, c: Computed)
    ensures var items := ComputeItems(root, c);
      LastTo(items, ComputePath(root, PRIMARY)) == Some(items[0])
  {
    hide SafeName, ComputePath, AuxName, AuxItems, LastTo, AsStream;
    var items := ComputeItems(root, c);
    AuxItemsAt(root, c.auxiliaries);
    forall j | 0 < j < |items| ensures items[j].path != items[0].path {
      PrimaryIsNoAux(c.auxiliaries[j - 1].0);
      PathsFollowNames(root, AuxName(c.auxiliaries[j - 1].0), PRIMARY);
    }
    LastToAt(items, 0);
  }

  function AuxPath(root: Root, name: string): Path {
    ComputePath(root, AuxName(name))
  }

  ghost predicate CleanAuxiliaries(root: Root, names: seq<string>) {
    forall i :: 0 <= i < |names| ==> Clean(AuxPath(root, names[i]))
  }

  // Where the URI of an auxiliary does not lead to its file it leads to none.
  ghost predicate NothingElsewhere(root: Root, f: Files, names: seq<string>) {
    forall i :: 0 <= i < |names| && !Clean(AuxPath(root, names[i])) ==> Find(f, ReadPath(AuxPath(root, names[i]))).None?
  }

  function NamesOf(auxiliaries: seq<(string, Table)>): (names: seq<string>)
    ensures |names| == |auxiliaries| && forall i :: 0 <= i < |names| ==> names[i] == auxiliaries[i].0
  {
    if auxiliaries == [] then []
    else NamesOf(auxiliaries[..|auxiliaries| - 1]) + [auxiliaries[|auxiliaries| - 1].0]
  }

  function Longest(root: Root, names: seq<string>): (bound: nat)
    ensures forall i :: 0 <= i < |names| ==> |AuxPath(root, names[i])| <= bound
  {
    if names == [] then 0
    else
      var rest, here := Longest(root, names[1..]), |AuxPath(root, names[0])|;
      assert forall i :: 1 <= i < |names| ==> names[i] == names[1..][i - 1];
      if here < rest then rest else here
  }

  lemma QuotingLengthens(root: Root, name: string)
    requires !Clean(ComputePath(root, name))
    ensures |ReadPath(ComputePath(root, name))| > |ComputePath(root, name)| && !Clean(ReadPath(ComputePath(root, name)))
  {
    hide ComputePath, Quote, Clean;
    AbsoluteCompute(root, name);
    ReadsQuoted(ComputePath(root, name));
    QuoteUnchangedIffClean(ComputePath(root, name));
  }

  lemma AbsoluteCompute(root: Root, name: string)
    ensures Absolute(ComputePath(root, name))
  {
  }

  // Of the auxiliaries that URIs do not lead to, one leads to none of the auxiliaries' files: the
  // path that quoting makes of it is longer, and again one that quoting changes.
  lemma EndOfChain(root: Root, names: seq<string>, i: nat) returns (j: nat)
    requires i < |names| && !Clean(AuxPath(root, names[i]))
    ensures j < |names| && !Clean(AuxPath(root, names[j]))
    ensures forall k :: 0 <= k < |names| ==> AuxPath(root, names[k]) != ReadPath(AuxPath(root, names[j]))
    decreases Longest(root, names) - |AuxPath(root, names[i])|
  {
    hide ComputePath, ReadPath, Clean, AuxName, Longest;
    j := i;
    if k :| 0 <= k < |names| && AuxPath(root, names[k]) == ReadPath(AuxPath(root, names[i])) {
      QuotingLengthens(root, AuxName(names[i]));
      j := EndOfChain(root, names, k);
    }
  }

  // The primary table is found where it was written, or what was there before is found.
  lemma FoundPrimary(root: Root, f: Files, c: Computed)
    ensures Find(WriteAll(f, ComputeItems(root, c)), ReadPath(ComputePath(root, PRIMARY)))
         == if Clean(root) then Some(c.primary) else Find(f, ReadPath(ComputePath(root, PRIMARY)))
  {
    hide ReadPath, ComputePath, Clean, WriteAll, ComputeItems, Find, SafeName, Quote, AuxName;
    var items, q := ComputeItems(root, c), ReadPath(ComputePath(root, PRIMARY));
    StagedItemsAreDests(root, [], c);
    OpenedPath(root, PRIMARY);
    PlainIsSafe(PRIMARY);
    assert Clean(PRIMARY) by { PrimaryIsClean(); }
    if Clean(root) {
      PrimaryIsFirst(root, c);
      StreamOfTable(c.primary);
      assert items[0] == Item(ComputePath(root, PRIMARY), AsStream(c.primary)) by { FirstItem(root, c); }
      WrittenIsFound(f, items, q);
    } else {
      QuoteUnchangedIffClean(root);
      ComputeItemNames(root, c);
      forall i | 0 <= i < |items| ensures items[i].path != q {
        var name :| items[i].path == ComputePath(root, name);
        OpenedIsWritten(root, PRIMARY, name);
      }
      DestsAreDests(root, PRIMARY);
      UnwrittenStays(f, items, q);
    }
  }

  lemma PrimaryIsClean()
    ensures Clean(PRIMARY) && Plain(PRIMARY)
  {
  }

  lemma FirstItem(root: Root, c: Computed)
    ensures |ComputeItems(root, c)| > 0 && ComputeItems(root, c)[0] == Item(ComputePath(root, PRIMARY), AsStream(c.primary))
  {
  }

  lemma ComputeItemNames(root: Root, c: Computed)
    ensures forall i :: 0 <= i < |ComputeItems(root, c)| ==> exists name :: ComputeItems(root, c)[i].path == ComputePath(root, name)
  {
    hide ComputePath, AuxName;
    AuxItemsAt(root, c.auxiliaries);
    var items := ComputeItems(root, c);
    assert items[0].path == ComputePath(root, PRIMARY);
    forall i | 0 < i < |items| ensures exists name :: items[i].path == ComputePath(root, name) {
      assert items[i].path == ComputePath(root, AuxName(c.auxiliaries[i - 1].0));
    }
  }

  // An auxiliary with a clean path gives the last table written there.
  lemma FoundClean(root: Root, f: Files, c: Computed, i: nat)
    requires i < |c.auxiliaries| && Clean(AuxPath(root, c.auxiliaries[i].0))
    ensures LastSafe(c.auxiliaries, c.auxiliaries[i].0).Some?
    ensures Find(WriteAll(f, ComputeItems(root, c)), ReadPath(AuxPath(root, c.auxiliaries[i].0)))
         == LastSafe(c.auxiliaries, c.auxiliaries[i].0)
  {
    hide ReadPath, ComputePath, Clean, WriteAll, AuxItems, Find, SafeName, AuxName, LastSafe, LastTo;
    var name, items := c.auxiliaries[i].0, ComputeItems(root, c);
    OpenedPath(root, AuxName(name));
    LastSafeExists(c.auxiliaries, c.auxiliaries[i]);
    LastToAux(root, items[0], c.auxiliaries, name);
    StagedItemsAreDests(root, [], c);
    StreamOfTable(LastSafe(c.auxiliaries, name).value);
    WrittenIsFound(f, items, AuxPath(root, name));
  }

  // One whose URI leads to no staged file gives what was there before.
  lemma FoundElsewhere(root: Root, f: Files, c: Computed, i: nat)
    requires i < |c.auxiliaries| && !Clean(AuxPath(root, c.auxiliaries[i].0))
    requires forall k :: 0 <= k < |c.auxiliaries| ==> AuxPath(root, c.auxiliaries[k].0) != ReadPath(AuxPath(root, c.auxiliaries[i].0))
    ensures var q := ReadPath(AuxPath(root, c.auxiliaries[i].0)); Find(WriteAll(f, ComputeItems(root, c)), q) == Find(f, q)
  {
    hide ReadPath, ComputePath, Clean, WriteAll, Find, SafeName, Quote, AuxItems, IsDest;
    var name, items := AuxName(c.auxiliaries[i].0), ComputeItems(root, c);
    StagedItemsAreDests(root, [], c);
    AuxItemsAt(root, c.auxiliaries);
    OpenedIsWritten(root, name, PRIMARY);
    assert Quote(SafeName(name)) != SafeName(PRIMARY) by { AuxIsQuotedApart(c.auxiliaries[i].0); }
    DestsAreDests(root, name);
    forall j | 0 <= j < |items| ensures items[j].path != ReadPath(ComputePath(root, name)) {
      if j > 0 { assert items[j].path == AuxPath(root, c.auxiliaries[j - 1].0); }
    }
    UnwrittenStays(f, items, ReadPath(ComputePath(root, name)));
  }

  lemma AuxIsQuotedApart(name: string)
    ensures Quote(SafeName(AuxName(name))) != SafeName(PRIMARY)
  {
    hide Kept, SafeName, Quote;
    var n := SafeName(AuxName(name));
    PrimaryIsNoAux(name);
    QuoteUnchangedIffClean(n);
    PrimaryIsClean();
    PlainIsSafe(PRIMARY);
    assert '%' !in PRIMARY;
  }

  // The auxiliaries are read back, the last of each file, exactly if all their paths are clean.
  lemma AuxiliariesRead(root: Root, f: Files, c: Computed)
    requires NothingElsewhere(root, f, NamesOf(c.auxiliaries)) || CleanAuxiliaries(root, NamesOf(c.auxiliaries))
    ensures ReadAll(WriteAll(f, ComputeItems(root, c)), AuxUris(root, c.auxiliaries))
         == if CleanAuxiliaries(root, NamesOf(c.auxiliaries)) then Some(Restaged(c.auxiliaries, c.auxiliaries)) else None
  {
    hide ReadPath, AuxPath, Clean, WriteAll, ComputeItems, Find, AuxUris, LocalPath, Restaged, ReadAll, LastSafe, NamesOf;
    var names, uris, h := NamesOf(c.auxiliaries), AuxUris(root, c.auxiliaries), WriteAll(f, ComputeItems(root, c));
    assert forall i :: 0 <= i < |uris| ==> LocalPath(uris[i].1) == ReadPath(AuxPath(root, names[i])) by {
      AuxUrisAt(root, c.auxiliaries);
      AuxPathsAre(root);
    }
    AuxUrisAt(root, c.auxiliaries);
    ReadAllAt(h, uris);
    if CleanAuxiliaries(root, names) {
      RestagedAt(c.auxiliaries, c.auxiliaries);
      forall i | 0 <= i < |uris| ensures Find(h, LocalPath(uris[i].1)) == LastSafe(c.auxiliaries, names[i]) { FoundClean(root, f, c, i); }
      assert ReadAll(h, uris).value == Restaged(c.auxiliaries, c.auxiliaries);
    } else {
      var i :| 0 <= i < |names| && !Clean(AuxPath(root, names[i]));
      var j := EndOfChain(root, names, i);
      FoundElsewhere(root, f, c, j);
      assert Find(h, LocalPath(uris[j].1)).None?;
    }
  }

  lemma AuxPathsAre(root: Root)
    ensures forall n: string :: AuxPath(root, n) == ComputePath(root, AuxName(n))
  {
  }

  lemma {:induction false} RestagedAt(part: seq<(string, Table)>, all: seq<(string, Table)>)
    requires forall i :: 0 <= i < |part| ==> part[i] in all
    ensures |Restaged(part, all)| == |part|
    ensures forall i :: 0 <= i < |part| ==>
      LastSafe(all, part[i].0).Some? && Restaged(part, all)[i] == (part[i].0, LastSafe(all, part[i].0).value)
  {
    hide LastSafe;
    if part != [] {
      var init := part[..|part| - 1];
      assert forall i :: 0 <= i < |init| ==> init[i] == part[i];
      RestagedAt(init, all);
      LastSafeExists(all, part[|part| - 1]);
    }
  }

  lemma {:induction false} LastSafeIsOne(all: seq<(string, Table)>, name: string)
    ensures LastSafe(all, name).Some? ==>
      exists j :: 0 <= j < |all| && SafeName(AuxName(all[j].0)) == SafeName(AuxName(name)) && LastSafe(all, name).value == all[j].1
  {
    if all != [] && SafeName(AuxName(all[|all| - 1].0)) != SafeName(AuxName(name)) { LastSafeIsOne(all[..|all| - 1], name); }
  }

  lemma {:induction false} LastSafeBySafeName(all: seq<(string, Table)>, a: string, b: string)
    requires SafeName(AuxName(a)) == SafeName(AuxName(b))
    ensures LastSafe(all, a) == LastSafe(all, b)
  {
    if all != [] { LastSafeBySafeName(all[..|all| - 1], a, b); }
  }

  predicate SameFile(a: string, b: string) {
    SafeName(AuxName(a)) == SafeName(AuxName(b))
  }

  // Auxiliaries whose names lead to the same file carry the same table.
  ghost predicate NoClash(auxiliaries: seq<(string, Table)>) {
    forall i, j | 0 <= i < j < |auxiliaries| :: SameFile(auxiliaries[i].0, auxiliaries[j].0) ==> auxiliaries[i].1 == auxiliaries[j].1
  }

  lemma NoClashSurvives(auxiliaries: seq<(string, Table)>)
    requires NoClash(auxiliaries)
    ensures Restaged(auxiliaries, auxiliaries) == auxiliaries
  {
    hide SafeName, LastSafe, Restaged, AuxName;
    var back := Restaged(auxiliaries, auxiliaries);
    RestagedAt(auxiliaries, auxiliaries);
    forall i | 0 <= i < |auxiliaries| ensures back[i] == auxiliaries[i] {
      LastSafeIsOne(auxiliaries, auxiliaries[i].0);
      var j :| 0 <= j < |auxiliaries| && SafeName(AuxName(auxiliaries[j].0)) == SafeName(AuxName(auxiliaries[i].0))
        && LastSafe(auxiliaries, auxiliaries[i].0).value == auxiliaries[j].1;
      assert SameFile(auxiliaries[i].0, auxiliaries[j].0) && SameFile(auxiliaries[j].0, auxiliaries[i].0);
    }
  }

  /** Auxiliaries handed over by a compute that answered come back unchanged if and only if all their
      paths are clean and no two different tables have names that lead to the same file - provided
      that nothing is found elsewhere for those whose paths are not clean. */
  lemma AuxiliariesSurviveIff(root: Root, f: Files, c: Computed, fates: seq<Fate>)
    requires IsDict(c.auxiliaries) && NothingElsewhere(root, f, NamesOf(c.auxiliaries))
    requires Retry(f, ComputeItems(root, c), 2, fates).answer.Some?
    ensures var read := ReadAll(Retry(f, ComputeItems(root, c), 2, fates).files, AuxUris(root, c.auxiliaries));
      (read.Some? && ToMap(read.value) == ToMap(c.auxiliaries)) <==>
      (CleanAuxiliaries(root, NamesOf(c.auxiliaries)) && NoClash(c.auxiliaries))
  {
    hide Retry, ReadAll, AuxUris, Restaged, ToMap, CleanAuxiliaries, NothingElsewhere, WriteAll, ComputeItems, LocalPath;
    var items := ComputeItems(root, c);
    StagedItemsAreDests(root, [], c);
    AnswerAsUndisturbed(f, f, items, 2, fates);
    AuxUrisAt(root, c.auxiliaries);
    ReadsSame(Retry(f, items, 2, fates).files, WriteAll(f, items), AuxUris(root, c.auxiliaries));
    AuxiliariesRead(root, f, c);
    RestagedSurvivesIff(c.auxiliaries);
  }

  lemma RestagedSurvivesIff(auxiliaries: seq<(string, Table)>)
    requires IsDict(auxiliaries)
    ensures ToMap(Restaged(auxiliaries, auxiliaries)) == ToMap(auxiliaries) <==> NoClash(auxiliaries)
  {
    hide SafeName, LastSafe, Restaged, ToMap, AuxName;
    var back := Restaged(auxiliaries, auxiliaries);
    RestagedAt(auxiliaries, auxiliaries);
    SameEntries(auxiliaries, back);
    if NoClash(auxiliaries) {
      NoClashSurvives(auxiliaries);
    } else if back == auxiliaries {
      forall i, j | 0 <= i < j < |auxiliaries| && SameFile(auxiliaries[i].0, auxiliaries[j].0)
        ensures auxiliaries[i].1 == auxiliaries[j].1
      {
        LastSafeBySafeName(auxiliaries, auxiliaries[i].0, auxiliaries[j].0);
        assert back[i] == auxiliaries[i] && back[j] == auxiliaries[j];
      }
    }
  }

  // ---------------------------------------------------------------- refinement

  // The result of the local runtime as it is after the files: the metadata coerced and sent as JSON,
  // and the auxiliaries as their files hold them.
  function AfterStaging(lib: Library, c: Computed): Persisted
    requires Answered(lib, c).Some?
  {
    Persisted(c.primary, ToMap(Restaged(c.auxiliaries, c.auxiliaries)), Answered(lib, c).value)
  }

  function LocalOutput(r: Recipe): Result<Computed, Failure> {
    r.compute(ToMap(Tables(r.streams)))
  }

  // The auxiliaries that the recipe computes from its own streams, their names, and the metadata.
  function AuxOf(r: Recipe): seq<(string, Table)> {
    match LocalOutput(r) case Err(_) => [] case Ok(c) => c.auxiliaries
  }

  function OutNames(r: Recipe): seq<string> {
    NamesOf(AuxOf(r))
  }

  function MetaOf(r: Recipe): Metadata.Meta {
    match LocalOutput(r) case Err(_) => [] case Ok(c) => c.metadata
  }

  // Files found before the run that do it no harm: an input that cannot be opened, or a primary
  // table that cannot, stops the run; otherwise what is opened for an input is its table, and
  // nothing is opened for an auxiliary but a staged file.
  ghost predicate Harmless(root: Root, f: Files, streams: seq<(string, Stream)>, names: seq<string>) {
    || InputMissing(root, f, streams)
    || (!Clean(root) && Find(f, ReadPath(ComputePath(root, PRIMARY))).None?)
    || (Clean(root) && InputsRight(root, f, streams) && NothingElsewhere(root, f, names))
  }

  // Extract leaves alone what is opened for the output of compute.
  lemma OutputsUnextracted(root: Root, f: Files, streams: seq<(string, Stream)>, name: string)
    ensures var q := ReadPath(ComputePath(root, name)); Find(WriteAll(f, ExtractItems(root, streams)), q) == Find(f, q)
  {
    hide ReadPath, ExtractPath, ComputePath, WriteAll, ExtractItems, Find, IsDest;
    var items, q := ExtractItems(root, streams), ReadPath(ComputePath(root, name));
    ExtractItemsAt(root, streams);
    StagedItemsAreDests(root, streams, Computed(Table("", []), [], []));
    DestsAreDests(root, name);
    forall i | 0 <= i < |items| ensures items[i].path != q { OpenedIsWritten(root, name, streams[i].0); }
    UnwrittenStays(f, items, q);
  }

  // What persist gets of a computed result, if the files found before are harmless.
  lemma OutputsRead(lib: Library, root: Root, f: Files, streams: seq<(string, Stream)>, c: Computed)
    requires NothingElsewhere(root, f, NamesOf(c.auxiliaries)) || CleanAuxiliaries(root, NamesOf(c.auxiliaries))
    requires Clean(root) || Find(f, ReadPath(ComputePath(root, PRIMARY))).None?
    ensures var g := WriteAll(f, ExtractItems(root, streams));
      Rehydrated(lib, root, WriteAll(g, ComputeItems(root, c)), c)
        == if Clean(root) && CleanAuxiliaries(root, NamesOf(c.auxiliaries)) && Answered(lib, c).Some?
           then Some(AfterStaging(lib, c)) else None
  {
    hide ReadPath, Clean, WriteAll, ExtractItems, ComputeItems, Find, AuxUris, ReadAll, Restaged, ToMap, NamesOf, AuxPath;
    var g, names := WriteAll(f, ExtractItems(root, streams)), NamesOf(c.auxiliaries);
    OutputsUnextracted(root, f, streams, PRIMARY);
    FoundPrimary(root, g, c);
    AuxPathsAre(root);
    forall i | 0 <= i < |names| ensures Find(g, ReadPath(AuxPath(root, names[i]))) == Find(f, ReadPath(AuxPath(root, names[i]))) {
      OutputsUnextracted(root, f, streams, AuxName(names[i]));
    }
    AuxiliariesRead(root, g, c);
  }

  // An unclean root needs no more than a missing primary table to stop the run.
  lemma NoPrimaryNoOutput(lib: Library, root: Root, f: Files, streams: seq<(string, Stream)>, c: Computed)
    requires !Clean(root) && Find(f, ReadPath(ComputePath(root, PRIMARY))).None?
    ensures Rehydrated(lib, root, WriteAll(WriteAll(f, ExtractItems(root, streams)), ComputeItems(root, c)), c) == None
  {
    hide ReadPath, Clean, WriteAll, ExtractItems, ComputeItems, Find, AuxUris, ReadAll, ToMap;
    OutputsUnextracted(root, f, streams, PRIMARY);
    FoundPrimary(root, WriteAll(f, ExtractItems(root, streams)), c);
  }

  // Every name of a staged table is used as it is, and the job's directory too.
  ghost predicate CleanNames(root: Root, streams: seq<(string, Stream)>, names: seq<string>) {
    && Clean(root)
    && (forall i :: 0 <= i < |streams| ==> Clean(ExtractPath(root, streams[i].0)))
    && CleanAuxiliaries(root, names)
  }

  // Every dataset can be the name of a view without quotes.
  predicate Identifiers(lib: Library, streams: seq<(string, Stream)>) {
    forall i :: 0 <= i < |streams| ==> lib.identifier(streams[i].0)
  }

  lemma {:induction false} NoViewRefusedIff(lib: Library, streams: seq<(string, Stream)>)
    ensures RefusedView(lib, streams).None? <==> NamesOk(lib, streams) && Identifiers(lib, streams)
  {
    hide ViewNameOk;
    if streams != [] {
      NoViewRefusedIff(lib, streams[1..]);
      assert forall i :: 1 <= i < |streams| ==> streams[i] == streams[1..][i - 1];
    }
  }

  // The staged path can take what the recipe takes and gives: names of views, and metadata.
  predicate Transportable(lib: Library, r: Recipe) {
    Identifiers(lib, r.streams) && (LocalOutput(r).Ok? ==> Answered(lib, LocalOutput(r).value).Some?)
  }

  // What is stored on harmless files, and when.
  ghost predicate Storable(lib: Library, root: Root, f: Files, r: Recipe) {
    && Local(lib, r).Some? && Transportable(lib, r)
    && !InputMissing(root, f, r.streams) && Clean(root) && CleanAuxiliaries(root, OutNames(r))
  }

  lemma HarmlessRun(lib: Library, root: Root, f: Files, r: Recipe)
    requires Alphanumeric(lib) && IsDict(r.streams) && Harmless(root, f, r.streams, OutNames(r))
    ensures Undisturbed(lib, root, f, r)
         == if Storable(lib, root, f, r) then Some(AfterStaging(lib, LocalOutput(r).value)) else None
  {
    hide ReadPath, Clean, WriteAll, ExtractItems, ComputeItems, Find, ExtractUris, AuxUris, ReadAll, Restaged, ToMap, RefusedView,
      Tables, NamesOf, NamesOk, Rehydrated, AfterStaging, CleanAuxiliaries, NothingElsewhere, InputMissing, InputsRight,
      Identifiers, Answered;
    NoViewRefusedIff(lib, r.streams);
    if r.valid && NamesOk(lib, r.streams) && Identifiers(lib, r.streams) {
      InputsRead(lib, root, f, r.streams);
      var g := WriteAll(f, ExtractItems(root, r.streams));
      if Computation(lib, root, g, r).Ok? {
        var c := Computation(lib, root, g, r).value;
        if Clean(root) { OutputsRead(lib, root, f, r.streams, c); } else { NoPrimaryNoOutput(lib, root, f, r.streams, c); }
      }
    }
  }

  /** With harmless files, under any schedule of crashes, exceptions, lost answers and retries, the
      store ends up with nothing or with what the local runtime computes, passed through the staging
      files; a completed workflow has stored it; no more than 1 + 3 + 2 + 5 attempts are made. */
  lemma StagedRefinesLocal(lib: Library, root: Root, f: Files, r: Recipe, s: Schedule)
    requires Alphanumeric(lib) && IsDict(r.streams) && Harmless(root, f, r.streams, OutNames(r))
    ensures var end := Staged(lib, root, f, r, s);
      && end.attempts <= 11
      && (end.store.Some? ==>
            && Local(lib, r).Some? && Transportable(lib, r)
            && end.store.value == AfterStaging(lib, LocalOutput(r).value))
      && (end.completed ==> end.store.Some?)
  {
    hide Staged, Undisturbed, AfterStaging, Harmless, Identifiers, Answered;
    EveryScheduleAgrees(lib, root, f, r, s);
    HarmlessRun(lib, root, f, r);
  }

  /** Undisturbed, and on harmless files, the workflow completes exactly when the local runtime stores
      something, every dataset name can name a view, the metadata can be sent, no input is missing
      where its URI leads, and the job's directory and the auxiliaries' paths are clean. */
  lemma SmoothRunCompletesIff(lib: Library, root: Root, f: Files, r: Recipe)
    requires Alphanumeric(lib) && IsDict(r.streams) && Harmless(root, f, r.streams, OutNames(r))
    ensures Staged(lib, root, f, r, SMOOTH).completed <==>
      && Local(lib, r).Some? && Transportable(lib, r)
      && !InputMissing(root, f, r.streams) && Clean(root) && CleanAuxiliaries(root, OutNames(r))
  {
    hide Staged, Undisturbed, Local, LocalOutput, AfterStaging, Harmless, InputMissing, CleanAuxiliaries, Transportable;
    SmoothIsUndisturbed(lib, root, f, r);
    HarmlessRun(lib, root, f, r);
  }

  /** A dataset name that cannot name a view stops every attempt of compute: nothing is ever stored,
      whatever the files and the schedule. */
  lemma UnnameableStoresNothing(lib: Library, root: Root, f: Files, r: Recipe, s: Schedule)
    requires !Identifiers(lib, r.streams)
    ensures Staged(lib, root, f, r, s).store == None && !Staged(lib, root, f, r, s).completed
  {
    hide Staged, Identifiers, RefusedView, WriteAll, ExtractItems, ReadAll, ExtractUris, ToMap;
    NoViewRefusedIff(lib, r.streams);
    EveryScheduleAgrees(lib, root, f, r, s);
  }

  // Digits are alphanumeric, and no identifier starts with one.
  ghost predicate DigitsAsUsual(lib: Library) {
    && (forall c :: '0' <= c <= '9' ==> lib.alnum(c))
    && (forall name: string :: name != "" && '0' <= name[0] <= '9' ==> !lib.identifier(name))
  }

  /** An input that the local runtime takes and the staged path never does: a dataset named by a year.
      Its path is as clean as the job's directory. */
  lemma DatasetNamedByYear(lib: Library, root: Root, f: Files, r: Recipe, s: Schedule, stream: Stream)
    requires r.valid && r.streams == [("2024", stream)] && LocalOutput(r).Ok?
    ensures Clean(ExtractPath(root, "2024")) <==> Clean(root)
    ensures DigitsAsUsual(lib) ==>
      Local(lib, r).Some? && Staged(lib, root, f, r, s).store == None && !Staged(lib, root, f, r, s).completed
  {
    hide Staged, Clean, ToMap, Tables, ExtractPath, SafeName, ViewNameOk, Quote, ReadPath;
    YearIsSafe();
    OpenedPath(root, "2024");
    if DigitsAsUsual(lib) {
      YearIsAccepted(lib);
      assert ViewNameOk(lib.alnum, r.streams[0].0) && !lib.identifier(r.streams[0].0);
      hide DigitsAsUsual;
      UnnameableStoresNothing(lib, root, f, r, s);
    }
  }

  lemma YearIsSafe()
    ensures SafeName("2024") == "2024" && Clean("2024")
  {
    PlainIsSafe("2024");
  }

  lemma YearIsAccepted(lib: Library)
    requires lib.alnum('2') && lib.alnum('0') && lib.alnum('4')
    ensures ViewNameOk(lib.alnum, "2024")
  {
    var y := "2024";
    assert y[1..] == "024" && y[2..] == "24" && y[3..] == "4" && y[4..] == "";
    assert WithoutUnderscores("4") == "4";
    assert WithoutUnderscores("24") == "24";
    assert WithoutUnderscores("024") == "024";
    assert WithoutUnderscores(y) == y;
  }

  // Nothing at any path that a URI leads to in place of a staged file, as in a new directory.
  ghost predicate NothingAstray(root: Root, f: Files, streams: seq<(string, Stream)>, names: seq<string>) {
    && (forall i :: 0 <= i < |streams| ==>
          var p := ExtractPath(root, streams[i].0); Clean(p) || Find(f, ReadPath(p)).None?)
    && (Clean(root) || Find(f, ReadPath(ComputePath(root, PRIMARY))).None?)
    && NothingElsewhere(root, f, names)
  }

  /** In a new directory the undisturbed workflow completes if and only if the local runtime stores
      something, the names of datasets and the metadata can be transported, and every character of
      all staged paths is unreserved or a slash. */
  lemma NewRunCompletesIffNamesClean(lib: Library, root: Root, f: Files, r: Recipe)
    requires Alphanumeric(lib) && IsDict(r.streams) && NothingAstray(root, f, r.streams, OutNames(r))
    ensures Harmless(root, f, r.streams, OutNames(r))
    ensures Staged(lib, root, f, r, SMOOTH).completed <==>
      Local(lib, r).Some? && Transportable(lib, r) && CleanNames(root, r.streams, OutNames(r))
  {
    hide Staged, Local, Transportable, OutNames, ReadPath, ComputePath, Find, CleanAuxiliaries, NothingElsewhere, Clean, ExtractPath;
    assert !InputMissing(root, f, r.streams) <==> forall i :: 0 <= i < |r.streams| ==> Clean(ExtractPath(root, r.streams[i].0));
    if !InputMissing(root, f, r.streams) { assert InputsRight(root, f, r.streams); }
    SmoothRunCompletesIff(lib, root, f, r);
  }

  /** And with a name that is not clean it never completes, and stores nothing, under any schedule. */
  lemma UncleanNamesStoreNothing(lib: Library, root: Root, f: Files, r: Recipe, s: Schedule)
    requires Alphanumeric(lib) && IsDict(r.streams) && NothingAstray(root, f, r.streams, OutNames(r))
    requires !CleanNames(root, r.streams, OutNames(r))
    ensures Staged(lib, root, f, r, s).store == None && !Staged(lib, root, f, r, s).completed
  {
    hide Staged, Undisturbed, OutNames, NothingAstray, CleanNames;
    NewRunCompletesIffNamesClean(lib, root, f, r);
    SmoothIsUndisturbed(lib, root, f, r);
    EveryScheduleAgrees(lib, root, f, r, s);
  }

  lemma CleanIsHarmless(root: Root, f: Files, streams: seq<(string, Stream)>, names: seq<string>)
    requires CleanNames(root, streams, names)
    ensures Harmless(root, f, streams, names) && !InputMissing(root, f, streams)
  {
    hide ReadPath, ExtractPath, ComputePath, Find, Clean, AuxPath;
  }

  /** With clean names, and auxiliary names free of "/" and "..", whatever was in the directory before:
      the store gets what the local runtime stores, with its metadata coerced and sent, and the
      undisturbed workflow completes if the local runtime stores something and it can be transported.
      The two results are the same if and only if the metadata has texts for keys and plain values. */
  lemma CleanNamesRefineExactly(lib: Library, root: Root, f: Files, r: Recipe, s: Schedule)
    requires Alphanumeric(lib) && IsDict(r.streams) && CleanNames(root, r.streams, OutNames(r))
    requires IsDict(AuxOf(r)) && IsDict(MetaOf(r)) && forall e :: e in AuxOf(r) ==> Plain(e.0)
    ensures Staged(lib, root, f, r, SMOOTH).completed <==> Local(lib, r).Some? && Transportable(lib, r)
    ensures var end := Staged(lib, root, f, r, s);
      end.store.Some? ==>
        var sent := Metadata.Sent(lib.jsonOf, Metadata.Sanitized(MetaOf(r)));
        && Local(lib, r).Some? && sent.Some?
        && end.store.value == Local(lib, r).value.(metadata := sent.value)
        && (end.store == Local(lib, r) <==> forall i :: 0 <= i < |MetaOf(r)| ==> MetaOf(r)[i].0.Text? && MetaOf(r)[i].1.Plain?)
  {
    hide SafeName, LastSafe, Restaged, ToMap, Staged, AuxName, Plain, Clean, Tables, NamesOf, NamesOk, Harmless, InputMissing,
      ExtractPath, ComputePath, CleanAuxiliaries, Identifiers, Metadata.Sent, Metadata.Sanitized;
    CleanIsHarmless(root, f, r.streams, OutNames(r));
    StagedRefinesLocal(lib, root, f, r, s);
    SmoothRunCompletesIff(lib, root, f, r);
    if Staged(lib, root, f, r, s).store.Some? {
      PlainNamesDoNotClash(root, AuxOf(r));
      RestagedSurvivesIff(AuxOf(r));
      Metadata.ArrivesSameIff(lib.jsonOf, MetaOf(r));
    }
  }

  lemma PlainNamesDoNotClash(root: Root, auxiliaries: seq<(string, Table)>)
    requires IsDict(auxiliaries) && forall e :: e in auxiliaries ==> Plain(e.0)
    ensures NoClash(auxiliaries)
  {
    hide SafeName, AuxName, Plain, ComputePath;
    forall i, j | 0 <= i < j < |auxiliaries| ensures !SameFile(auxiliaries[i].0, auxiliaries[j].0) {
      assert auxiliaries[i] in auxiliaries && auxiliaries[j] in auxiliaries;
      PlainAuxInjective(root, auxiliaries[i].0, auxiliaries[j].0);
      PathsFollowNames(root, AuxName(auxiliaries[i].0), AuxName(auxiliaries[j].0));
    }
  }

  // ---------------------------------------------------------------- harmful files

  function Other(t: Table): Table {
    Table(t.schema + "x", t.rows)
  }

  // A recipe over the streams with one result, whatever it is given.
  function Constant(streams: seq<(string, Stream)>, c: Computed): Recipe {
    Recipe(true, streams, m => Ok(c))
  }

  // A recipe that tells its own streams from anything else.
  function Telling(streams: seq<(string, Stream)>, own: Table, other: Table): Recipe {
    var expected := ToMap(Tables(streams));
    Recipe(true, streams, m => Ok(Computed(if m == expected then own else other, [], [])))
  }

  ghost predicate Diverges(lib: Library, root: Root, f: Files, r: Recipe) {
    var end := Staged(lib, root, f, r, SMOOTH);
    && end.completed && end.store.Some? && LocalOutput(r).Ok? && Local(lib, r).Some? && Answered(lib, LocalOutput(r).value).Some?
    && end.store.value != AfterStaging(lib, LocalOutput(r).value)
    && end.store.value.(metadata := map[]) != Local(lib, r).value.(metadata := map[])
  }

  /** The hypothesis is exact: on files that are not harmless, some recipe with the same streams and
      auxiliary names among the given ones completes undisturbed and stores another result. */
  lemma HarmfulFilesDiverge(lib: Library, root: Root, f: Files, streams: seq<(string, Stream)>, names: seq<string>)
      returns (r: Recipe)
    requires Alphanumeric(lib) && IsDict(streams) && NamesOk(lib, streams) && Identifiers(lib, streams)
    requires !Harmless(root, f, streams, names)
    ensures r.streams == streams && r.valid && forall n :: n in OutNames(r) ==> n in names
    ensures Diverges(lib, root, f, r)
  {
    hide Staged, Local, InputsRight, NothingElsewhere, InputMissing, ReadPath, ComputePath, Find, Clean, Tables, AfterStaging;
    if !Clean(root) {
      r := StrayPrimaryDiverges(lib, root, f, streams);
    } else if !InputsRight(root, f, streams) {
      r := WrongInputDiverges(lib, root, f, streams);
    } else {
      assert !NothingElsewhere(root, f, names);
      r := StrayAuxiliaryDiverges(lib, root, f, streams, names);
    }
  }

  lemma ConstantRun(lib: Library, root: Root, f: Files, streams: seq<(string, Stream)>, c: Computed)
    requires Alphanumeric(lib) && IsDict(streams) && NamesOk(lib, streams)
    requires Identifiers(lib, streams) && !InputMissing(root, f, streams)
    ensures var r := Constant(streams, c);
      && Undisturbed(lib, root, f, r) == Rehydrated(lib, root, WriteAll(WriteAll(f, ExtractItems(root, streams)), ComputeItems(root, c)), c)
      && LocalOutput(r) == Ok(c) && Local(lib, r) == Some(Persisted(c.primary, ToMap(c.auxiliaries), ToMap(c.metadata)))
  {
    hide WriteAll, ExtractItems, ComputeItems, Rehydrated, ExtractUris, ReadAll, ToMap, Tables, NamesOk, InputMissing, InputsRight,
      Identifiers, RefusedView;
    NoViewRefusedIff(lib, streams);
    InputsRead(lib, root, f, streams);
  }

  lemma StrayPrimaryDiverges(lib: Library, root: Root, f: Files, streams: seq<(string, Stream)>) returns (r: Recipe)
    requires Alphanumeric(lib) && IsDict(streams) && NamesOk(lib, streams)
    requires Identifiers(lib, streams) && !InputMissing(root, f, streams)
    requires !Clean(root) && Find(f, ReadPath(ComputePath(root, PRIMARY))).Some?
    ensures r.streams == streams && r.valid && OutNames(r) == [] && Diverges(lib, root, f, r)
  {
    hide WriteAll, ExtractItems, ComputeItems, ExtractUris, Undisturbed, Staged, Local, Tables, NamesOk, InputMissing, Identifiers, RefusedView, Answered,
      ReadPath, ComputePath, Find, Clean;
    var stray := Find(f, ReadPath(ComputePath(root, PRIMARY))).value;
    var c := Computed(Other(stray), [], []);
    r := Constant(streams, c);
    NoMetadata(lib, c);
    ConstantRun(lib, root, f, streams, c);
    OutputsUnextracted(root, f, streams, PRIMARY);
    FoundPrimary(root, WriteAll(f, ExtractItems(root, streams)), c);
    SmoothIsUndisturbed(lib, root, f, r);
  }

  lemma WrongInputDiverges(lib: Library, root: Root, f: Files, streams: seq<(string, Stream)>) returns (r: Recipe)
    requires Alphanumeric(lib) && IsDict(streams) && NamesOk(lib, streams)
    requires Identifiers(lib, streams) && !InputMissing(root, f, streams)
    requires Clean(root) && !InputsRight(root, f, streams)
    ensures r.streams == streams && r.valid && OutNames(r) == [] && Diverges(lib, root, f, r)
  {
    hide WriteAll, ExtractItems, ComputeItems, ExtractUris, Staged, Tables, NamesOk, InputMissing, InputsRight, Identifiers, RefusedView, Answered,
      ReadPath, ComputePath, Find, Clean, ReadAll, ToMap, AuxUris;
    var own := Table("", []);
    r := Telling(streams, own, Other(own));
    NoViewRefusedIff(lib, streams);
    NoMetadata(lib, Computed(own, [], []));
    NoMetadata(lib, Computed(Other(own), [], []));
    InputsRead(lib, root, f, streams);
    var g, c := WriteAll(f, ExtractItems(root, streams)), Computed(Other(own), [], []);
    assert Computation(lib, root, g, r) == Ok(c);
    assert LocalOutput(r) == Ok(Computed(own, [], []));
    FoundPrimary(root, g, c);
    NoAuxiliaries(root, WriteAll(g, ComputeItems(root, c)));
    SmoothIsUndisturbed(lib, root, f, r);
  }

  lemma NoMetadata(lib: Library, c: Computed)
    requires c.metadata == []
    ensures Answered(lib, c) == Some(map[])
  {
    assert Metadata.Sanitized([]) == map[];
  }

  lemma NoAuxiliaries(root: Root, f: Files)
    ensures AuxUris(root, []) == [] && ReadAll(f, []) == Some([]) && NamesOf([]) == []
  {
  }

  lemma StrayAuxiliaryDiverges(lib: Library, root: Root, f: Files, streams: seq<(string, Stream)>, names: seq<string>)
      returns (r: Recipe)
    requires Alphanumeric(lib) && IsDict(streams) && NamesOk(lib, streams)
    requires Identifiers(lib, streams) && !InputMissing(root, f, streams)
    requires Clean(root) && !NothingElsewhere(root, f, names)
    ensures r.streams == streams && r.valid && (forall n :: n in OutNames(r) ==> n in names) && Diverges(lib, root, f, r)
  {
    hide WriteAll, ExtractItems, ComputeItems, ExtractUris, Undisturbed, Staged, Local, Tables, NamesOk, InputMissing, Identifiers, RefusedView, Answered,
      ReadPath, ComputePath, Find, Clean, ReadAll, AuxUris, Quote;
    var i :| 0 <= i < |names| && !Clean(AuxPath(root, names[i])) && Find(f, ReadPath(AuxPath(root, names[i]))).Some?;
    var name := names[i];
    var stray := Find(f, ReadPath(AuxPath(root, name))).value;
    var c := Computed(Table("", []), [(name, Other(stray))], []);
    r := Constant(streams, c);
    var g := WriteAll(f, ExtractItems(root, streams));
    NoMetadata(lib, c);
    ConstantRun(lib, root, f, streams, c);
    FoundPrimary(root, g, c);
    OutputsUnextracted(root, f, streams, AuxName(name));
    QuotingLengthens(root, AuxName(name));
    FoundElsewhere(root, g, c, 0);
    OneAuxiliary(root, WriteAll(g, ComputeItems(root, c)), c, name, stray);
    assert map[name := stray][name] != map[name := Other(stray)][name];
    assert AuxOf(r) == c.auxiliaries;
    SmoothIsUndisturbed(lib, root, f, r);
  }

  lemma OneAuxiliary(root: Root, f: Files, c: Computed, name: string, found: Table)
    requires c.auxiliaries == [(name, Other(found))]
    requires Find(f, ReadPath(AuxPath(root, name))) == Some(found)
    ensures ReadAll(f, AuxUris(root, c.auxiliaries)) == Some([(name, found)])
    ensures NamesOf(c.auxiliaries) == [name] && Restaged(c.auxiliaries, c.auxiliaries) == c.auxiliaries
    ensures ToMap([(name, found)]) == map[name := found] && ToMap(c.auxiliaries) == map[name := Other(found)]
  {
    hide ReadPath, ComputePath, LocalPath, AsUri, Find, SafeName, AuxName, AuxUris, ReadAll, Restaged, NamesOf;
    AuxUrisAt(root, c.auxiliaries);
    ReadAllAt(f, AuxUris(root, c.auxiliaries));
    AuxPathsAre(root);
    assert Find(f, LocalPath(AuxUris(root, c.auxiliaries)[0].1)) == Some(found);
    assert ReadAll(f, AuxUris(root, c.auxiliaries)).value == [(name, found)];
    NoClashSurvives(c.auxiliaries);
    OneEntry(name, found);
    OneEntry(name, Other(found));
  }

  lemma OneEntry<V>(k: string, v: V)
    ensures ToMap([(k, v)]) == map[k := v]
  {
    assert [(k, v)][..0] == [];
    assert ToMap([(k, v)][..0]) == map[];
  }
}
