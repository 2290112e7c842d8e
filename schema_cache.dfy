/** The literal schema cache written when a collection is indexed: for each table the
    documentation CSV of the `sql_enrich` source mentions, its column list, looked up once.
    Reading the CSV and the file system are parameters; the lookup is `fetch_table_schema`
    with the source's `sql_enrich` block and its column limit. */
module SchemaCache {
  import opened Wrappers
  import opened Text
  import opened Values
  import opened Sources

  /** `fetch_table_schema(sql_enrich, table, max_columns=...)`; a raised exception is a Failure. */
  type SchemaFetch = (EnrichConfig, string, int) -> Result<seq<string>>

  /** The position of the first source with an `sql_enrich` block. */
  function EnrichSource(sources: seq<SourceConfig>): (r: Option<nat>)
    ensures r.Some? ==> r.value < |sources| && sources[r.value].sqlEnrich.Some?
    ensures r.Some? ==> forall j :: 0 <= j < r.value ==> sources[j].sqlEnrich.None?
    ensures r.None? <==> forall j :: 0 <= j < |sources| ==> sources[j].sqlEnrich.None?
  {
    if sources == [] then None
    else if sources[0].sqlEnrich.Some? then Some(0)
    else match EnrichSource(sources[1..])
      case None => None
      case Some(k) => Some(k + 1)
  }

  /** The table a documentation row names: its `tabla` cell as a stripped string, or nothing
      when the cell is missing, falsy or NaN. */
  function TableOf(row: Row): (r: Option<string>)
    ensures r.Some? <==> Truthy(Get(row, "tabla")) && !IsNA(Get(row, "tabla"))
  {
    var v := Get(row, "tabla");
    if !Truthy(v) || IsNA(v) then None else Some(Strip(Str(v)))
  }

  function Tables(rows: seq<Row>): (r: seq<Option<string>>)
    ensures |r| == |rows| && forall i :: 0 <= i < |rows| ==> r[i] == TableOf(rows[i])
  {
    seq(|rows|, i requires 0 <= i < |rows| => TableOf(rows[i]))
  }

  /** The cache after the given rows' tables, in order: a table not yet cached is looked up;
      a successful lookup is stored, a failed one is reported and not stored. */
  function Cache(tables: seq<Option<string>>, fetch: SchemaFetch, e: EnrichConfig, mc: int): map<string, seq<string>>
  {
    if tables == [] then map[]
    else
      var m := Cache(tables[..|tables| - 1], fetch, e, mc);
      match tables[|tables| - 1]
      case None => m
      case Some(t) =>
        if t in m then m
        else match fetch(e, t, mc)
          case Success(cols) => m[t := cols]
          case Failure(_) => m
  }

  /** The lookups made along the way, in order. */
  function Fetches(tables: seq<Option<string>>, fetch: SchemaFetch, e: EnrichConfig, mc: int): seq<string>
  {
    if tables == [] then []
    else
      var init := tables[..|tables| - 1];
      Fetches(init, fetch, e, mc) +
        match tables[|tables| - 1]
        case None => []
        case Some(t) => if t in Cache(init, fetch, e, mc) then [] else [t]
  }

  /** The cache holds exactly the mentioned tables whose lookup succeeds, each with the columns
      its lookup returns. */
  lemma {:induction false} CacheSpec(tables: seq<Option<string>>, fetch: SchemaFetch, e: EnrichConfig, mc: int, t: string)
    ensures t in Cache(tables, fetch, e, mc) <==> Some(t) in tables && fetch(e, t, mc).Success?
    ensures t in Cache(tables, fetch, e, mc) ==> Cache(tables, fetch, e, mc)[t] == fetch(e, t, mc).value
  {
    if tables != [] {
      var init := tables[..|tables| - 1];
      CacheSpec(init, fetch, e, mc, t);
      assert tables == init + [tables[|tables| - 1]];
    }
  }

  /** A table whose lookup succeeds is looked up once; one whose lookup fails is looked up
      again for every row that names it; a table no row names is never looked up. */
  lemma {:induction false} FetchCount(tables: seq<Option<string>>, fetch: SchemaFetch, e: EnrichConfig, mc: int, t: string)
    ensures multiset(Fetches(tables, fetch, e, mc))[t] ==
              if Some(t) in tables && fetch(e, t, mc).Success? then 1 else multiset(tables)[Some(t)]
  {
    if tables != [] {
      var init := tables[..|tables| - 1];
      FetchCount(init, fetch, e, mc, t);
      CacheSpec(init, fetch, e, mc, t);
      FetchesLast(tables, fetch, e, mc, t);
      CountLast(tables, Some(t));
    }
  }

  /** The last row adds one lookup of t when it names t and t is not cached yet. */
  lemma FetchesLast(tables: seq<Option<string>>, fetch: SchemaFetch, e: EnrichConfig, mc: int, t: string)
    requires tables != []
    ensures var init := tables[..|tables| - 1];
            multiset(Fetches(tables, fetch, e, mc))[t] ==
              multiset(Fetches(init, fetch, e, mc))[t]
              + (if tables[|tables| - 1] == Some(t) && t !in Cache(init, fetch, e, mc) then 1 else 0)
  {
    var init := tables[..|tables| - 1];
    var step: seq<string> := match tables[|tables| - 1]
      case None => []
      case Some(u) => if u in Cache(init, fetch, e, mc) then [] else [u];
    assert Fetches(tables, fetch, e, mc) == Fetches(init, fetch, e, mc) + step;
  }

  /** Counting in a sequence splits off its last element. */
  lemma CountLast<T>(xs: seq<T>, x: T)
    requires xs != []
    ensures multiset(xs)[x] == multiset(xs[..|xs| - 1])[x] + (if xs[|xs| - 1] == x then 1 else 0)
    ensures x in xs <==> x in xs[..|xs| - 1] || xs[|xs| - 1] == x
  {
    assert xs == xs[..|xs| - 1] + [xs[|xs| - 1]];
  }

  /** What the run ends with: no `sql_enrich` source, no readable CSV, or the cache written. */
  datatype Outcome = NoEnrich | NoCsv(path: Option<string>) | Written(schemas: map<string, seq<string>>)

  /** `generate_schemas_cache`: the first source with `sql_enrich` names the CSV (its `path`)
      and the lookup connection; `max_columns` defaults to 200. Without such a source, or
      without an existing CSV file, nothing is looked up and nothing is written. */
  method GenerateSchemasCache(sources: seq<SourceConfig>, isFile: string -> bool, readCsv: string -> seq<Row>,
                              fetch: SchemaFetch)
    returns (outcome: Outcome, fetched: seq<string>)
    ensures EnrichSource(sources).None? ==> outcome == NoEnrich && fetched == []
    ensures EnrichSource(sources).Some? ==>
              var src := sources[EnrichSource(sources).value];
              var e := src.sqlEnrich.value;
              if src.path.None? || src.path.value == "" || !isFile(src.path.value) then
                outcome == NoCsv(src.path) && fetched == []
              else
                var tables := Tables(readCsv(src.path.value));
                outcome == Written(Cache(tables, fetch, e, e.MaxColumns()))
                && fetched == Fetches(tables, fetch, e, e.MaxColumns())
  {
    var k := EnrichSource(sources);
    if k.None? {
      return NoEnrich, [];
    }
    var src := sources[k.value];
    var e := src.sqlEnrich.value;
    var maxColumns := e.MaxColumns();
    if src.path.None? || src.path.value == "" || !isFile(src.path.value) {
      return NoCsv(src.path), [];
    }
    var schemas;
    schemas, fetched := CacheTables(readCsv(src.path.value), fetch, e, maxColumns);
    outcome := Written(schemas);
  }

  /** The loop over the CSV rows: skip rows without a table, skip tables already cached,
      otherwise look the table up and keep the columns when the lookup succeeds. */
  method CacheTables(rows: seq<Row>, fetch: SchemaFetch, e: EnrichConfig, maxColumns: int)
    returns (schemas: map<string, seq<string>>, fetched: seq<string>)
    ensures schemas == Cache(Tables(rows), fetch, e, maxColumns)
    ensures fetched == Fetches(Tables(rows), fetch, e, maxColumns)
  {
    ghost var tables := Tables(rows);
    schemas, fetched := map[], [];
    var i := 0;
    while i < |rows|
      invariant 0 <= i <= |rows|
      invariant schemas == Cache(tables[..i], fetch, e, maxColumns)
      invariant fetched == Fetches(tables[..i], fetch, e, maxColumns)
    {
      var table := TableOf(rows[i]);
      assert tables[..i + 1][..i] == tables[..i] && tables[..i + 1][i] == table;
      if table.Some? && table.value !in schemas {
        var name := table.value;
        fetched := fetched + [name];
        var cols := fetch(e, name, maxColumns);
        if cols.Success? {
          schemas := schemas[name := cols.value];
        }
      }
      i := i + 1;
    }
    assert tables[..i] == tables;
  }
}
