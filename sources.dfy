/** Source descriptors as the collection configuration declares them. A source is read
    (`type`: mssql, mariadb, duckdb, csv, json), described (`vectorize`, `metadata`), and
    may carry an `sql_enrich` block naming the engine that catalog and schema lookups go to,
    or `mode: sql`, meaning it only describes a table for the generated-SQL path. */
module Sources {
  import opened Wrappers

  /** The `sql_enrich` block. Missing keys take the defaults index_source applies. */
  datatype EnrichConfig = EnrichConfig(
    kind: string,                  // engine type of the lookup connection
    maxValues: Option<int>,        // default 50
    includeSchema: Option<bool>,   // default False
    maxColumns: Option<int>)       // default 200
  {
    function MaxValues(): int { maxValues.GetOr(50) }
    function IncludeSchema(): bool { includeSchema.GetOr(false) }
    function MaxColumns(): int { maxColumns.GetOr(200) }
  }

  datatype SourceConfig = SourceConfig(
    name: string,
    kind: string,                  // the `type` key
    server: Option<string>,
    path: Option<string>,
    database: Option<string>,
    query: Option<string>,
    vectorize: seq<string>,
    metadata: seq<string>,
    mode: Option<string>,
    table: Option<string>,
    columns: seq<string>,
    sqlEnrich: Option<EnrichConfig>)
  {
    /** `source.get("mode") == "sql"` */
    predicate IsSqlMode() { mode == Some("sql") }

    /** `source.get("table", source["name"])` */
    function TableName(): string { table.GetOr(name) }
  }
}
