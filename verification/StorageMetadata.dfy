/** The metadata table of the storage server, the JSON snapshot it is saved in, and the reader that
 accepts a snapshot at start-up. JSON text is taken as the value tree it denotes. */
module StorageMetadata {
  import opened Collections
  import opened StoragePaths

  datatype Json =
    | Null
    | Boolean(b: bool)
    | Number(n: int)
    | Text(s: string)
    | Array(items: seq<Json>)
    | Object(members: map<Key, Json>)

  /** Member names: the six of a record, and any other. */
  datatype Key = MTime | ATime | FSize | Url | StoragePath | StorageType | Other(name: string)

  /** The snapshot file as the reader finds it. */
  datatype Stored = Missing | Unreadable | Malformed | Document(root: Json)

  datatype StorageInfo = StorageInfo(mtime: int, atime: int, fsize: int, storagePath: string, url: string,
                                     storageType: string)

  type Table = map<string, StorageInfo>

  datatype Config = Config(downloadPrefix: string, lowDir: string, deepDir: string)

  predicate IsInt64(v: Json) { v.Number? && -0x8000_0000_0000_0000 <= v.n < 0x8000_0000_0000_0000 }

  predicate IsUInt64(v: Json) { v.Number? && 0 <= v.n < 0x1_0000_0000_0000_0000 }

  /** operator[] on a JSON object: a missing member reads as null. */
  function Member(v: Json, name: Key): Json {
    if v.Object? && name in v.members then v.members[name] else Null
  }

  function DirOf(c: Config, storageType: string): string {
    if storageType == "deep" then c.deepDir else c.lowDir
  }

  // ----- reading

  /** The two questions a record is asked that depend on the configuration: whether it is placed
      as it should be, and which type its path suggests when none is given. */
  datatype Rules = Rules(placed: StorageInfo -> bool, derived: string -> string)

  function DerivedType(path: string, c: Config): string {
    if Normal(Parent(Parse(path))) == Normal(Parse(c.deepDir)) then "deep" else "low"
  }

  /** The record stands in the directory of its type, and its URL is the prefix and its file name. */
  predicate IsPlaced(info: StorageInfo, c: Config) {
    var path := Normal(Parse(info.storagePath));
    && (info.storageType == "low" || info.storageType == "deep")
    && FileName(path) != ""
    && Parent(path) == Normal(Parse(DirOf(c, info.storageType)))
    && info.url == c.downloadPrefix + FileName(path)
  }

  function RulesOf(c: Config): Rules {
    Rules((info: StorageInfo) => IsPlaced(info, c), (path: string) => DerivedType(path, c))
  }

  predicate FieldsAreGood(v: Json) {
    && v.Object?
    && Member(v, StoragePath).Text? && Member(v, Url).Text?
    && Member(v, StoragePath).s != "" && Member(v, Url).s != ""
    && (IsUInt64(Member(v, FSize)) || IsInt64(Member(v, FSize)))
    && IsInt64(Member(v, MTime)) && IsInt64(Member(v, ATime))
    && (IsInt64(Member(v, FSize)) ==> Member(v, FSize).n >= 0)
    && Member(v, MTime).n >= 0 && Member(v, ATime).n >= 0
  }

  function ParseStorageInfo(v: Json, r: Rules): Option<StorageInfo> {
    if !FieldsAreGood(v) then None else
    var path := Member(v, StoragePath).s;
    var storageType := if Member(v, StorageType).Text? then Member(v, StorageType).s else r.derived(path);
    var info := StorageInfo(Member(v, MTime).n, Member(v, ATime).n, Member(v, FSize).n,
                            path, Member(v, Url).s, storageType);
    if r.placed(info) then Some(info) else None
  }

  function LoadItems(items: seq<Json>, r: Rules): Option<Table> {
    if |items| == 0 then Some(map[]) else
    var before := LoadItems(items[..|items| - 1], r);
    var info := ParseStorageInfo(items[|items| - 1], r);
    if before.None? || info.None? || info.value.url in before.value then None
    else Some(before.value[info.value.url := info.value])
  }

  /** What InitLoad makes of the snapshot file; None stands for its refusal. */
  function Load(s: Stored, r: Rules): Option<Table> {
    match s
    case Missing => Some(map[])
    case Unreadable => None
    case Malformed => None
    case Document(Null) => Some(map[])
    case Document(Array(items)) => LoadItems(items, r)
    case Document(_) => None
  }

  predicate InRange(info: StorageInfo) {
    && 0 <= info.mtime < 0x8000_0000_0000_0000 && 0 <= info.atime < 0x8000_0000_0000_0000
    && 0 <= info.fsize < 0x1_0000_0000_0000_0000
    && info.url != "" && info.storagePath != ""
  }

  /** Records the reader takes: within the ranges of their fields, and placed. */
  predicate Acceptable(info: StorageInfo, r: Rules) { InRange(info) && r.placed(info) }

  ghost predicate Good(table: Table, r: Rules) { forall url :: url in table ==> Acceptable(table[url], r) }

  /** Every record stands under its own URL. */
  ghost predicate Keyed(table: Table) { forall url :: url in table ==> table[url].url == url }

  /** A record that is accepted says what its members say. */
  lemma AcceptedIsWritten(v: Json, r: Rules)
    requires ParseStorageInfo(v, r).Some?
    ensures var info := ParseStorageInfo(v, r).value;
            && v.Object? && Acceptable(info, r)
            && Member(v, MTime) == Number(info.mtime) && Member(v, ATime) == Number(info.atime)
            && Member(v, FSize) == Number(info.fsize)
            && Member(v, Url) == Text(info.url) && Member(v, StoragePath) == Text(info.storagePath)
            && (if Member(v, StorageType).Text? then Member(v, StorageType) == Text(info.storageType)
                else info.storageType == r.derived(info.storagePath))
  {
  }

  /** Whatever is accepted has unique URLs and acceptable records, one for each item. */
  lemma {:induction false} AcceptedIsPlaced(items: seq<Json>, r: Rules)
    requires LoadItems(items, r).Some?
    ensures |LoadItems(items, r).value| == |items|
    ensures Keyed(LoadItems(items, r).value) && Good(LoadItems(items, r).value, r)
  {
    if |items| > 0 {
      AcceptedIsPlaced(items[..|items| - 1], r);
      var before := LoadItems(items[..|items| - 1], r).value;
      var info := ParseStorageInfo(items[|items| - 1], r).value;
      assert LoadItems(items, r).value.Keys == before.Keys + {info.url};
    }
  }

  lemma LoadedIsGood(s: Stored, r: Rules)
    requires Load(s, r).Some?
    ensures Keyed(Load(s, r).value) && Good(Load(s, r).value, r)
  {
    if s.Document? && s.root.Array? {
      AcceptedIsPlaced(s.root.items, r);
    }
  }

  // ----- writing

  function ItemOf(info: StorageInfo): Json {
    Object(map[
      MTime := Number(info.mtime), ATime := Number(info.atime), FSize := Number(info.fsize),
      Url := Text(info.url), StoragePath := Text(info.storagePath),
      StorageType := Text(info.storageType)])
  }

  ghost predicate Distinct(order: seq<string>) {
    forall i, j :: 0 <= i < j < |order| ==> order[i] != order[j]
  }

  /** The table's URLs in the order a hash map happens to yield them. */
  ghost predicate IsOrder(order: seq<string>, table: Table) {
    && Distinct(order)
    && (forall url :: url in order <==> url in table)
  }

  ghost predicate Within(order: seq<string>, table: Table) {
    forall i :: 0 <= i < |order| ==> order[i] in table
  }

  /** The records of some URLs, as Persist appends them. */
  ghost function ItemsOf(table: Table, order: seq<string>): (items: seq<Json>)
    requires Within(order, table)
    ensures |items| == |order|
  {
    if |order| == 0 then [] else
    ItemsOf(table, order[..|order| - 1]) + [ItemOf(table[order[|order| - 1]])]
  }

  /** The part of a table that belongs to some URLs. */
  ghost function Part(table: Table, order: seq<string>): (part: Table)
    requires Within(order, table)
    ensures forall url :: url in part <==> url in order
    ensures forall url :: url in part ==> url in table && part[url] == table[url]
  {
    if |order| == 0 then map[] else
    var url := order[|order| - 1];
    Part(table, order[..|order| - 1])[url := table[url]]
  }

  ghost predicate Holds(s: Stored, table: Table) {
    exists order :: IsOrder(order, table) && Within(order, table) && s == Document(Array(ItemsOf(table, order)))
  }

  /** A record as uploads make them. */
  ghost predicate IsStored(url: string, info: StorageInfo, c: Config) {
    && (info.storageType == "low" || info.storageType == "deep")
    && InRange(info)
    && |DirOf(c, info.storageType)| > 0
    && exists name :: PlainName(name) && |c.downloadPrefix| > 0
                      && info.url == url == c.downloadPrefix + name
                      && info.storagePath == JoinPath(DirOf(c, info.storageType), name)
  }

  ghost predicate AllStored(table: Table, c: Config) {
    forall url :: url in table ==> IsStored(url, table[url], c)
  }

  ghost predicate AllUsable(table: Table, c: Config) {
    forall url :: url in table ==> UsableDirectory(DirOf(c, table[url].storageType))
  }

  /** A saved record is read back, or refused, exactly by whether it is acceptable. */
  lemma ItemIsRead(info: StorageInfo, r: Rules)
    ensures ParseStorageInfo(ItemOf(info), r) == if Acceptable(info, r) then Some(info) else None
  {
  }

  /** What an upload records of its file once stat has told size and times; a negative answer is
      stat's failure. */
  function NewStorageInfo(size: int, mtime: int, atime: int, path: string, storageType: string, c: Config)
    : (info: Option<StorageInfo>)
    ensures info.Some? <==> (storageType == "low" || storageType == "deep") && size >= 0 && mtime >= 0 && atime >= 0
  {
    if storageType != "low" && storageType != "deep" then None
    else if size < 0 || mtime < 0 || atime < 0 then None
    else Some(StorageInfo(mtime, atime, size, path, c.downloadPrefix + FileName(Parse(path)), storageType))
  }

  lemma NewInfoIsStored(size: int, mtime: int, atime: int, storageType: string, name: string, c: Config)
    requires size < 0x8000_0000_0000_0000 && mtime < 0x8000_0000_0000_0000 && atime < 0x8000_0000_0000_0000
    requires PlainName(name) && |DirOf(c, storageType)| > 0 && |c.downloadPrefix| > 0
    ensures var info := NewStorageInfo(size, mtime, atime, JoinPath(DirOf(c, storageType), name), storageType, c);
            info.Some? ==> info.value == StorageInfo(mtime, atime, size, JoinPath(DirOf(c, storageType), name),
                                                     c.downloadPrefix + name, storageType)
                           && IsStored(info.value.url, info.value, c)
  {
    JoinedNames(DirOf(c, storageType), name);
  }

  lemma StoredIsPlaced(url: string, info: StorageInfo, c: Config)
    requires IsStored(url, info, c)
    ensures IsPlaced(info, c) <==> UsableDirectory(DirOf(c, info.storageType))
  {
    var name :| PlainName(name) && info.url == c.downloadPrefix + name
                && info.storagePath == JoinPath(DirOf(c, info.storageType), name);
    ParentIsDirectory(DirOf(c, info.storageType), name);
  }

  ghost predicate AllAcceptable(table: Table, order: seq<string>, r: Rules)
    requires Within(order, table)
  {
    forall i :: 0 <= i < |order| ==> Acceptable(table[order[i]], r)
  }

  lemma AllAcceptableSnoc(table: Table, order: seq<string>, r: Rules)
    requires Within(order, table) && |order| > 0
    ensures var n := |order| - 1;
            Within(order[..n], table) &&
            (AllAcceptable(table, order, r) <==> AllAcceptable(table, order[..n], r) && Acceptable(table[order[n]], r))
  {
  }

  lemma LoadSnoc(items: seq<Json>, item: Json, r: Rules)
    ensures var before := LoadItems(items, r);
            var info := ParseStorageInfo(item, r);
            LoadItems(items + [item], r) == if before.None? || info.None? || info.value.url in before.value then None
                                            else Some(before.value[info.value.url := info.value])
  {
    assert (items + [item])[..|items|] == items;
  }

  /** One bad record spoils the document. */
  lemma {:induction false} PrefixMustLoad(items: seq<Json>, k: nat, r: Rules)
    requires k <= |items| && LoadItems(items[..k], r).None?
    ensures LoadItems(items, r).None?
  {
    if k == |items| {
      assert items[..k] == items;
    } else {
      assert items[..|items| - 1][..k] == items[..k];
      PrefixMustLoad(items[..|items| - 1], k, r);
    }
  }

  lemma {:induction false} ItemsRoundTrip(table: Table, order: seq<string>, r: Rules)
    requires Distinct(order) && Within(order, table) && Keyed(table)
    ensures LoadItems(ItemsOf(table, order), r)
         == if AllAcceptable(table, order, r) then Some(Part(table, order)) else None
  {
    if |order| > 0 {
      var n := |order| - 1;
      var url := order[n];
      ItemsRoundTrip(table, order[..n], r);
      AllAcceptableSnoc(table, order, r);
      LoadSnoc(ItemsOf(table, order[..n]), ItemOf(table[url]), r);
      ItemIsRead(table[url], r);
      assert url !in Part(table, order[..n]);
    }
  }

  lemma OrderIsPart(table: Table, order: seq<string>)
    requires IsOrder(order, table) && Within(order, table)
    ensures Part(table, order) == table
  {
  }

  lemma OrderReachesAll(table: Table, order: seq<string>, r: Rules)
    requires IsOrder(order, table) && Within(order, table)
    ensures AllAcceptable(table, order, r) <==> Good(table, r)
  {
    if AllAcceptable(table, order, r) {
      forall url | url in table
        ensures Acceptable(table[url], r)
      {
        assert url in order;
        var i :| 0 <= i < |order| && order[i] == url;
      }
    }
  }

  lemma SnapshotLoads(table: Table, s: Stored, r: Rules)
    requires Holds(s, table) && Keyed(table)
    ensures Load(s, r) == if Good(table, r) then Some(table) else None
  {
    var order :| IsOrder(order, table) && Within(order, table) && s == Document(Array(ItemsOf(table, order)));
    ItemsRoundTrip(table, order, r);
    OrderIsPart(table, order);
    OrderReachesAll(table, order, r);
  }

  lemma {:induction false} ItemsAt(table: Table, order: seq<string>, i: nat)
    requires Within(order, table) && i < |order|
    ensures ItemsOf(table, order)[i] == ItemOf(table[order[i]])
  {
    if i < |order| - 1 {
      ItemsAt(table, order[..|order| - 1], i);
    }
  }

  lemma SameItemSameRecord(a: StorageInfo, b: StorageInfo)
    requires ItemOf(a) == ItemOf(b)
    ensures a == b
  {
    assert ItemOf(a).members[MTime] == Number(a.mtime) && ItemOf(a).members[ATime] == Number(a.atime);
    assert ItemOf(a).members[FSize] == Number(a.fsize) && ItemOf(a).members[Url] == Text(a.url);
    assert ItemOf(a).members[StoragePath] == Text(a.storagePath) && ItemOf(a).members[StorageType] == Text(a.storageType);
  }

  lemma SameItemsSubTable(a: Table, b: Table, s: Stored, url: string)
    requires Holds(s, a) && Holds(s, b) && Keyed(a) && Keyed(b) && url in a
    ensures url in b && b[url] == a[url]
  {
    var oa :| IsOrder(oa, a) && Within(oa, a) && s == Document(Array(ItemsOf(a, oa)));
    var ob :| IsOrder(ob, b) && Within(ob, b) && s == Document(Array(ItemsOf(b, ob)));
    assert url in oa;
    var i :| 0 <= i < |oa| && oa[i] == url;
    ItemsAt(a, oa, i);
    ItemsAt(b, ob, i);
    SameItemSameRecord(a[oa[i]], b[ob[i]]);
  }

  /** What a snapshot file stands for: the table it would load as, or the table that was saved in it. */
  ghost predicate StandsFor(s: Stored, table: Table, r: Rules) { Load(s, r) == Some(table) || Holds(s, table) }

  /** A snapshot loads as the table it stands for, exactly if its records are acceptable. */
  lemma LoadsIfGood(s: Stored, table: Table, r: Rules)
    requires StandsFor(s, table, r) && Keyed(table)
    ensures Load(s, r) == if Good(table, r) then Some(table) else None
  {
    if Holds(s, table) {
      SnapshotLoads(table, s, r);
    } else {
      LoadedIsGood(s, r);
    }
  }

  /** A snapshot stands for one table only. */
  lemma StandsForOne(s: Stored, a: Table, b: Table, r: Rules)
    requires StandsFor(s, a, r) && StandsFor(s, b, r) && Keyed(a) && Keyed(b)
    ensures a == b
  {
    LoadsIfGood(s, a, r);
    LoadsIfGood(s, b, r);
    if Load(s, r).None? {
      forall url | url in a ensures url in b && b[url] == a[url] { SameItemsSubTable(a, b, s, url); }
      forall url | url in b ensures url in a { SameItemsSubTable(b, a, s, url); }
    }
  }

  /** Saving and loading: the reader gives the same table back, in whatever order it was written,
      exactly if every directory in use is one the reader can recognise; otherwise it refuses. */
  lemma SnapshotRoundTrip(table: Table, s: Stored, c: Config)
    requires AllStored(table, c) && Holds(s, table)
    ensures Load(s, RulesOf(c)) == if AllUsable(table, c) then Some(table) else None
  {
    SnapshotLoads(table, s, RulesOf(c));
    forall url | url in table
      ensures Acceptable(table[url], RulesOf(c)) <==> UsableDirectory(DirOf(c, table[url].storageType))
    {
      StoredIsPlaced(url, table[url], c);
    }
  }

  /** What the reader accepts under a configuration: each record's URL is the prefix and its file
      name, and its path's parent is the directory of its type. */
  lemma AcceptedMatchesConfiguration(items: seq<Json>, c: Config, url: string)
    requires LoadItems(items, RulesOf(c)).Some? && url in LoadItems(items, RulesOf(c)).value
    ensures var info := LoadItems(items, RulesOf(c)).value[url];
            && info.url == url == c.downloadPrefix + FileName(Normal(Parse(info.storagePath)))
            && Parent(Normal(Parse(info.storagePath))) == Normal(Parse(DirOf(c, info.storageType)))
  {
    AcceptedIsPlaced(items, RulesOf(c));
    assert Acceptable(LoadItems(items, RulesOf(c)).value[url], RulesOf(c));
  }

  /** A record as it was written before records had a type. */
  function UntypedItemOf(info: StorageInfo): Json {
    Object(map[
      MTime := Number(info.mtime), ATime := Number(info.atime), FSize := Number(info.fsize),
      Url := Text(info.url), StoragePath := Text(info.storagePath)])
  }

  lemma UntypedItemIsRead(info: StorageInfo, r: Rules)
    requires Acceptable(info, r)
    ensures r.derived(info.storagePath) == info.storageType ==> ParseStorageInfo(UntypedItemOf(info), r) == Some(info)
    ensures r.derived(info.storagePath) != info.storageType ==> ParseStorageInfo(UntypedItemOf(info), r) != Some(info)
  {
  }

  /** The reader finds out the type of an untyped record from its path, unless both directories are
      the same and the file is of the low type. */
  lemma UntypedRecordsAreRecognised(url: string, info: StorageInfo, c: Config)
    requires IsStored(url, info, c) && UsableDirectory(DirOf(c, info.storageType))
    ensures ParseStorageInfo(UntypedItemOf(info), RulesOf(c)) == Some(info)
       <==> info.storageType == "deep" || Normal(Parse(c.lowDir)) != Normal(Parse(c.deepDir))
  {
    var name :| PlainName(name) && info.url == c.downloadPrefix + name
                && info.storagePath == JoinPath(DirOf(c, info.storageType), name);
    ParentNormalises(DirOf(c, info.storageType), name);
    StoredIsPlaced(url, info, c);
    UntypedItemIsRead(info, RulesOf(c));
    assert RulesOf(c).derived(info.storagePath) == DerivedType(info.storagePath, c);
  }

  function DotSlashed(name: string): string { "./" + name + "/" }

  lemma NamesOfDotSlashed(name: string)
    requires PlainName(name)
    ensures Names(DotSlashed(name)) == [".", name]
  {
    assert DotSlashed(name) == "./" + name + "/" + "";
    NamesSnoc("./" + name, "");
    assert "./" + name == "." + "/" + name;
    NamesSnoc(".", name);
    assert Names(".") == ["."];
  }

  lemma DotSlashedIsUnusable(name: string)
    requires PlainName(name)
    ensures !UsableDirectory(DotSlashed(name))
  {
    NamesOfDotSlashed(name);
    assert [".", name][..1] == ["."] && ["."][..0] == [];
    assert Reduced(["."], false) == [];
    assert Reduced([".", name], false) == [name];
    TrailingSlashIsUnusable(DotSlashed(name));
  }

  /** Directories named as in the repository's own configuration file, ./low_storage/ and
      ./deep_storage/: with the separator at the end no snapshot that holds an upload is accepted
      at the next start. */
  lemma ShippedConfigurationCannotRestart(table: Table, s: Stored, c: Config, low: string, deep: string)
    requires PlainName(low) && c.lowDir == DotSlashed(low)
    requires PlainName(deep) && c.deepDir == DotSlashed(deep)
    requires AllStored(table, c) && Holds(s, table) && table != map[]
    ensures Load(s, RulesOf(c)) == None
  {
    DotSlashedIsUnusable(low);
    DotSlashedIsUnusable(deep);
    SnapshotRoundTrip(table, s, c);
    var url :| url in table;
    assert DirOf(c, table[url].storageType) in {c.lowDir, c.deepDir};
  }
}
