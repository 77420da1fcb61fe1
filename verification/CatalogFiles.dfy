/** The start-up script's file moves: the ConfigMap's files are copied into the configuration
    directory, and every `catalog-*` file is moved, without the prefix, into its `catalog`
    subdirectory. */
module CatalogFiles {
  import opened Names
  import opened Contributions
  import opened ConfigMaps

  type Files = Items

  /** What the glob `*` matches: names that do not begin with a dot. */
  predicate Visible(name: string) {
    name == "" || name[0] != '.'
  }

  /** What the glob `catalog-*` matches. */
  predicate IsCatalogFile(name: string) {
    CATALOG_PREFIX <= name
  }

  /** `sed 's/^catalog-//'`: one leading prefix, if there is one. */
  function Strip(name: string): string {
    if IsCatalogFile(name) then name[|CATALOG_PREFIX|..] else name
  }

  function VisibleFiles(mount: Files): Files {
    map f <- mount | Visible(f) :: mount[f]
  }

  /** The configuration directory after the script. */
  function ConfigAfter(mount: Files, config: Files): Files {
    var copied := config + VisibleFiles(mount);
    map f <- copied | !IsCatalogFile(f) :: copied[f]
  }

  /** The names the moved files get. */
  function MovedNames(files: Files): set<string> {
    set f <- files | IsCatalogFile(f) :: Strip(f)
  }

  lemma MovedName(files: Files, name: string)
    ensures name in MovedNames(files) <==> CATALOG_PREFIX + name in files
  {
    assert Strip(CATALOG_PREFIX + name) == name;
    if name in MovedNames(files) {
      var f :| f in files && IsCatalogFile(f) && Strip(f) == name;
      assert f == CATALOG_PREFIX + name;
    }
  }

  function Moved(files: Files): Files {
    map name <- MovedNames(files) :: MovedName(files, name); files[CATALOG_PREFIX + name]
  }

  /** The catalog directory after the script. */
  function CatalogAfter(mount: Files, config: Files, catalog: Files): Files {
    catalog + Moved(config + VisibleFiles(mount))
  }

  class ConfigDirectory {
    var config: Files
    var catalog: Files

    constructor (config: Files, catalog: Files)
      ensures this.config == config && this.catalog == catalog
    {
      this.config, this.catalog := config, catalog;
    }

    /** One turn of the loop: `files` is what the glob saw, `done` the names moved so far. */
    method MoveFile(f: string, ghost files: Files, ghost done: set<string>, ghost before: Files)
      requires f in files && f !in done && IsCatalogFile(f)
      requires MovedSoFar(files, done, before, config, catalog)
      modifies this
      ensures MovedSoFar(files, done + {f}, before, config, catalog)
    {
      MovingOne(files, done, f, before);
      var newName := Strip(f);
      catalog := catalog[newName := config[f]];
      config := config - {f};
    }

    /** The glob is expanded once; the files are then moved in whatever order. */
    method MoveCatalogFiles()
      modifies this
      ensures config == map f <- old(config) | !IsCatalogFile(f) :: old(config)[f]
      ensures catalog == old(catalog) + Moved(old(config))
    {
      ghost var files, before := config, catalog;
      var matches := set f <- config | IsCatalogFile(f);
      ghost var all, done := matches, {};
      NothingMoved(files, before);
      while matches != {}
        invariant done !! matches && done + matches == all
        invariant MovedSoFar(files, done, before, config, catalog)
        decreases |matches|
      {
        var f :| f in matches;
        assert f in all;
        MoveFile(f, files, done, before);
        done, matches := done + {f}, matches - {f};
      }
      assert done == all;
      AllMoved(files, all);
    }

    method Prepare(mount: Files)
      modifies this
      ensures config == ConfigAfter(mount, old(config))
      ensures catalog == CatalogAfter(mount, old(config), old(catalog))
    {
      config := config + VisibleFiles(mount);
      MoveCatalogFiles();
    }
  }

  /** The files already moved, under their new names. */
  function MovedFrom(files: Files, done: set<string>): Files
    requires done <= files.Keys && forall f <- done :: IsCatalogFile(f)
  {
    map name <- (set f <- done :: Strip(f)) :: MovedDone(files, done, name); files[CATALOG_PREFIX + name]
  }

  /** The names in `done` have left the configuration directory for the catalog directory. */
  ghost predicate MovedSoFar(files: Files, done: set<string>, before: Files, config: Files, catalog: Files) {
    done <= files.Keys && (forall f <- done :: IsCatalogFile(f))
    && config == files - done && catalog == before + MovedFrom(files, done)
  }

  lemma NothingMoved(files: Files, before: Files)
    ensures MovedSoFar(files, {}, before, files, before)
  {
    assert MovedFrom(files, {}) == map[];
  }

  lemma MovedDone(files: Files, done: set<string>, name: string)
    requires done <= files.Keys && forall f <- done :: IsCatalogFile(f)
    ensures name in (set f <- done :: Strip(f)) <==> CATALOG_PREFIX + name in done
  {
    assert Strip(CATALOG_PREFIX + name) == name;
    if name in (set f <- done :: Strip(f)) {
      var f :| f in done && Strip(f) == name;
      assert f == CATALOG_PREFIX + name;
    }
  }

  lemma MovingOne(files: Files, done: set<string>, f: string, before: Files)
    requires done <= files.Keys && (forall g <- done :: IsCatalogFile(g))
    requires f in files && f !in done && IsCatalogFile(f)
    ensures before + MovedFrom(files, done + {f}) == (before + MovedFrom(files, done))[Strip(f) := files[f]]
  {
    MovedWithOneMore(files, done, f);
    SumUpdate(before, MovedFrom(files, done), Strip(f), files[f]);
  }

  lemma MovedWithOneMore(files: Files, done: set<string>, f: string)
    requires done <= files.Keys && (forall g <- done :: IsCatalogFile(g))
    requires f in files && f !in done && IsCatalogFile(f)
    ensures MovedFrom(files, done + {f}) == MovedFrom(files, done)[Strip(f) := files[f]]
  {
    assert f == CATALOG_PREFIX + Strip(f);
    assert (set g <- done + {f} :: Strip(g)) == (set g <- done :: Strip(g)) + {Strip(f)};
  }

  lemma SumUpdate(before: Files, added: Files, name: string, item: Item)
    ensures before + added[name := item] == (before + added)[name := item]
  {
  }

  lemma AllMoved(files: Files, all: set<string>)
    requires all == set f <- files | IsCatalogFile(f)
    ensures MovedFrom(files, all) == Moved(files)
    ensures files - all == map f <- files | !IsCatalogFile(f) :: files[f]
  {
    assert (set f <- all :: Strip(f)) == MovedNames(files);
  }

  /* ----- The round trip ----- */

  lemma CatalogFileMoves(c: string)
    ensures IsCatalogFile(CatalogFileName(c)) && Visible(CatalogFileName(c))
    ensures Strip(CatalogFileName(c)) == c + PROPERTIES_SUFFIX
  {
  }

  const FIXED_NAMES: set<string> := {
    "config.properties", "node.properties", "secret.properties", "jvm.config", "log.properties", VECTOR_FILE}

  lemma FixedNameStays(f: string)
    requires f in FIXED_NAMES
    ensures !IsCatalogFile(f) && Visible(f)
  {
    assert |f| > 2 && f[2] != 't';
    assert CATALOG_PREFIX[2] == 't';
  }

  lemma FixedItemNames(b: ConfigInput, p: Properties, vectorYaml: string)
    requires HasHeap(b.trinoConfig)
    ensures FixedItems(b, p, vectorYaml).Keys <= FIXED_NAMES
  {
  }

  /** The catalogs that can be marshalled, as the files Trino is to find. */
  predicate HoldsItems(catalog: Files, catalogs: CatalogSpecs, marshals: Properties -> bool) {
    (forall c <- catalogs :: marshals(CatalogProperties(catalogs[c])) ==>
       c + PROPERTIES_SUFFIX in catalog
       && catalog[c + PROPERTIES_SUFFIX] == PropertiesItem(CatalogProperties(catalogs[c])))
    && (forall f <- catalog ::
          exists c <- catalogs :: marshals(CatalogProperties(catalogs[c])) && f == c + PROPERTIES_SUFFIX)
  }

  /** The properties are the entries, one for one, as literal text. */
  predicate Lists(p: Properties, entries: map<string, string>) {
    p.Keys == entries.Keys && forall key <- entries :: p[key] == Literal(entries[key])
  }

  /** One properties file per catalog whose entries can be marshalled, with exactly those entries, and
      no other file. */
  ghost predicate HoldsExactly(catalog: Files, catalogs: CatalogSpecs, marshals: Properties -> bool) {
    (forall c, p :: c in catalogs && Lists(p, catalogs[c]) && marshals(p) ==>
       c + ".properties" in catalog && catalog[c + ".properties"] == PropertiesItem(p))
    && (forall f <- catalog :: exists c, p ::
          c in catalogs && f == c + ".properties" && Lists(p, catalogs[c]) && marshals(p))
  }

  lemma ListsExactly(p: Properties, entries: map<string, string>)
    ensures Lists(p, entries) <==> p == CatalogProperties(entries)
  {
  }

  lemma ItemsAreEntries(catalog: Files, catalogs: CatalogSpecs, marshals: Properties -> bool)
    requires HoldsItems(catalog, catalogs, marshals)
    ensures HoldsExactly(catalog, catalogs, marshals)
  {
    forall c, p | c in catalogs && Lists(p, catalogs[c]) && marshals(p)
      ensures c + ".properties" in catalog && catalog[c + ".properties"] == PropertiesItem(p)
    {
      ListsExactly(p, catalogs[c]);
    }
    forall f | f in catalog
      ensures exists c, p :: c in catalogs && f == c + ".properties" && Lists(p, catalogs[c]) && marshals(p)
    {
      var c :| c in catalogs && marshals(CatalogProperties(catalogs[c])) && f == c + PROPERTIES_SUFFIX;
      ListsExactly(CatalogProperties(catalogs[c]), catalogs[c]);
    }
  }

  lemma CatalogFileOfItems(b: ConfigInput, env: Environment, p: Properties, catalogs: Files, f: string)
    requires HasHeap(b.trinoConfig)
    ensures var items := FixedItems(b, p, VectorText(b, env)) + catalogs;
            f in items && IsCatalogFile(f) ==> f in catalogs
  {
    FixedItemNames(b, p, VectorText(b, env));
    if f in FixedItems(b, p, VectorText(b, env)) {
      FixedNameStays(f);
    }
  }

  /** The two directories hold the same `catalog-*` files. */
  predicate SameCatalogFiles(x: Files, y: Files) {
    (forall f <- x :: IsCatalogFile(f) ==> f in y && y[f] == x[f]) && (forall f <- y :: IsCatalogFile(f) ==> f in x)
  }

  lemma CatalogPart(b: ConfigInput, env: Environment, items: Files) returns (catalogs: Files)
    requires PossibleItems(b, env, items)
    ensures IsCatalogItems(Catalogs(b.clusterConfig), env.marshals, catalogs)
    ensures SameCatalogFiles(items, catalogs)
  {
    var p, part :| PossibleProperties(b, env.api, p) && env.marshals(p)
                   && IsCatalogItems(Catalogs(b.clusterConfig), env.marshals, part)
                   && items == FixedItems(b, p, VectorText(b, env)) + part;
    catalogs := part;
    forall f | f in items && IsCatalogFile(f)
      ensures f in catalogs
    {
      CatalogFileOfItems(b, env, p, catalogs, f);
    }
  }

  lemma CopyKeepsItems(items: Files, config: Files)
    ensures forall f <- ConfigAfter(items, config) :: !IsCatalogFile(f)
    ensures forall f <- items :: !IsCatalogFile(f) && Visible(f) ==>
            f in ConfigAfter(items, config) && ConfigAfter(items, config)[f] == items[f]
  {
  }

  lemma CopyKeepsCatalogFiles(items: Files, config: Files)
    requires forall f <- config :: !IsCatalogFile(f)
    ensures SameCatalogFiles(config + VisibleFiles(items), items)
  {
  }

  lemma EveryItemIsCopied(b: ConfigInput, env: Environment, items: Files)
    requires PossibleItems(b, env, items)
    ensures forall f <- items :: Visible(f)
  {
    var p, part :| PossibleProperties(b, env.api, p) && env.marshals(p)
                   && IsCatalogItems(Catalogs(b.clusterConfig), env.marshals, part)
                   && items == FixedItems(b, p, VectorText(b, env)) + part;
    FixedItemNames(b, p, VectorText(b, env));
    forall f | f in items
      ensures Visible(f)
    {
      if f in FIXED_NAMES {
        FixedNameStays(f);
      } else {
        var c :| c in Catalogs(b.clusterConfig).Keys && f == CatalogFileName(c);
        CatalogFileMoves(c);
      }
    }
  }

  /** In a fresh catalog directory, the script leaves exactly one `<catalog>.properties` per catalog
      of the spec, with that catalog's properties, also for a catalog whose own name begins with
      `catalog-`; no `catalog-*` file stays behind, and every other item arrives unchanged. */
  lemma CatalogRoundTrip(b: ConfigInput, env: Environment, items: Files, config: Files)
    requires PossibleItems(b, env, items)
    requires forall f <- config :: !IsCatalogFile(f)
    ensures HoldsExactly(CatalogAfter(items, config, map[]),
                         if b.clusterConfig.Some? then b.clusterConfig.value.catalogProperties else map[], env.marshals)
    ensures forall f <- ConfigAfter(items, config) :: !IsCatalogFile(f)
    ensures forall f <- items :: !IsCatalogFile(f) ==>
            f in ConfigAfter(items, config) && ConfigAfter(items, config)[f] == items[f]
  {
    CopyKeepsItems(items, config);
    EveryItemIsCopied(b, env, items);
    var catalogs := CatalogPart(b, env, items);
    ItemsArrive(Catalogs(b.clusterConfig), env.marshals, catalogs, items, config);
    ItemsAreEntries(CatalogAfter(items, config, map[]), Catalogs(b.clusterConfig), env.marshals);
  }

  lemma ItemsArrive(catalogs: CatalogSpecs, marshals: Properties -> bool, part: Files, items: Files, config: Files)
    requires IsCatalogItems(catalogs, marshals, part) && SameCatalogFiles(items, part)
    requires forall f <- config :: !IsCatalogFile(f)
    ensures HoldsItems(CatalogAfter(items, config, map[]), catalogs, marshals)
  {
    CopyKeepsCatalogFiles(items, config);
    SameTransitive(config + VisibleFiles(items), items, part);
    MovesCatalogs(catalogs, marshals, part, config + VisibleFiles(items));
    FreshCatalog(items, config);
  }

  lemma SameTransitive(x: Files, y: Files, z: Files)
    requires SameCatalogFiles(x, y) && SameCatalogFiles(y, z)
    ensures SameCatalogFiles(x, z)
  {
  }

  lemma FreshCatalog(items: Files, config: Files)
    ensures CatalogAfter(items, config, map[]) == Moved(config + VisibleFiles(items))
  {
  }

  lemma MovedLookup(files: Files, name: string)
    ensures name in Moved(files) <==> CATALOG_PREFIX + name in files
    ensures name in Moved(files) ==> Moved(files)[name] == files[CATALOG_PREFIX + name]
    ensures IsCatalogFile(CATALOG_PREFIX + name)
  {
    MovedName(files, name);
  }

  lemma CatalogArrives(items: Files, files: Files, c: string)
    requires CatalogFileName(c) in items && SameCatalogFiles(files, items)
    ensures c + PROPERTIES_SUFFIX in Moved(files) && Moved(files)[c + PROPERTIES_SUFFIX] == items[CatalogFileName(c)]
  {
    CatalogFileMoves(c);
    assert CatalogFileName(c) == CATALOG_PREFIX + (c + PROPERTIES_SUFFIX);
    MovedLookup(files, c + PROPERTIES_SUFFIX);
  }

  lemma ArrivalIsCatalog(catalogs: CatalogSpecs, marshals: Properties -> bool, items: Files, files: Files, f: string)
    returns (c: string)
    requires IsCatalogItems(catalogs, marshals, items) && SameCatalogFiles(files, items)
    requires f in Moved(files)
    ensures c in catalogs && marshals(CatalogProperties(catalogs[c])) && f == c + PROPERTIES_SUFFIX
  {
    MovedLookup(files, f);
    c :| c in catalogs.Keys && marshals(CatalogProperties(catalogs[c])) && CATALOG_PREFIX + f == CatalogFileName(c);
    FileNameParts(c, f);
  }

  lemma FileNameParts(c: string, f: string)
    requires CATALOG_PREFIX + f == CatalogFileName(c)
    ensures f == c + PROPERTIES_SUFFIX
  {
    assert CatalogFileName(c) == CATALOG_PREFIX + (c + PROPERTIES_SUFFIX);
    CancelPrefix(CATALOG_PREFIX, f, c + PROPERTIES_SUFFIX);
  }

  lemma MovesCatalogs(catalogs: CatalogSpecs, marshals: Properties -> bool, items: Files, files: Files)
    requires IsCatalogItems(catalogs, marshals, items) && SameCatalogFiles(files, items)
    ensures HoldsItems(Moved(files), catalogs, marshals)
  {
    forall c | c in catalogs && marshals(CatalogProperties(catalogs[c]))
      ensures c + PROPERTIES_SUFFIX in Moved(files)
      ensures Moved(files)[c + PROPERTIES_SUFFIX] == PropertiesItem(CatalogProperties(catalogs[c]))
    {
      CatalogArrives(items, files, c);
    }
    forall f | f in Moved(files)
      ensures exists c <- catalogs :: marshals(CatalogProperties(catalogs[c])) && f == c + PROPERTIES_SUFFIX
    {
      var c := ArrivalIsCatalog(catalogs, marshals, items, files, f);
    }
  }

  /** Hidden entries, such as those Kubernetes itself keeps in a mounted ConfigMap, are not copied. */
  lemma HiddenFilesStay(mount: Files, config: Files, f: string)
    requires f != "" && f[0] == '.'
    ensures f in ConfigAfter(mount, config) <==> f in config
    ensures f in config ==> ConfigAfter(mount, config)[f] == config[f]
  {
    assert !IsCatalogFile(f) by { assert CATALOG_PREFIX[0] == 'c'; }
  }

  lemma ConfigIdempotent(mount: Files, config: Files)
    ensures ConfigAfter(mount, ConfigAfter(mount, config)) == ConfigAfter(mount, config)
  {
  }

  /** Running the script again on the same ConfigMap changes nothing, whatever was there before. */
  lemma PrepareIsIdempotent(mount: Files, config: Files, catalog: Files)
    ensures var config' := ConfigAfter(mount, config);
            var catalog' := CatalogAfter(mount, config, catalog);
            ConfigAfter(mount, config') == config' && CatalogAfter(mount, config', catalog') == catalog'
  {
    ConfigIdempotent(mount, config);
    var first, second := config + VisibleFiles(mount), ConfigAfter(mount, config) + VisibleFiles(mount);
    forall name | name in Moved(second)
      ensures name in Moved(first) && Moved(first)[name] == Moved(second)[name]
    {
      MovedLookup(first, name);
      MovedLookup(second, name);
    }
    SecondMoveAddsNothing(catalog, Moved(first), Moved(second));
  }

  lemma SecondMoveAddsNothing(catalog: Files, first: Files, second: Files)
    requires forall name <- second :: name in first && first[name] == second[name]
    ensures catalog + first + second == catalog + first
  {
  }
}
