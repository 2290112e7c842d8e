# bd_vectorial in Dafny

bd_vectorial turns database, CSV and JSON rows into a ChromaDB vector index. It answers
questions over that data in two ways:

- retrieval-augmented generation (RAG), with Ollama as the language model;
- SQL that the model writes and the user confirms before it runs.

This project models the deterministic core of that tool and proves properties of the model:

- how rows become documents, metadata and ids;
- the per-run enrichment memo tables and the batching for embedding;
- the SQL guards and SQL-text builders, including the row-limit rewrite;
- the search result mapping, fenced-SQL extraction and source resolution;
- the SQL and RAG answer streams, written as lists of tagged events;
- the configuration deep merge;
- the schema cache builder and the batch embedding sanitiser;
- the DDL validator and its typed-confirmation gate;
- the command loops and sub-commands of the command-line front end.

Everything outside the program is a parameter of the model: Ollama, ChromaDB, the database
drivers, pandas readers, files and the clock. Each is either a function (an oracle such as
`post: string -> EmbedReply` or `run: QueryOracle`) or a given reply value. The model states
what the program does with whatever those return.

One module per source file:

| module | file |
|---|---|
| `VectorStore` | `vector_store.py` |
| `DbConnector` | `db_connector.py` |
| `Search` | `search.py` |
| `Config` | `config.py` |
| `SchemaCache` | `schema_cache.py` |
| `Embeddings` | `embeddings.py` |
| `DdlExecutor` | `ddl_executor.py` |
| `Cli` | `main.py` |

Shared modules:

- `Wrappers`: `Option` and `Result`.
- `Text`: Python's `strip`, `split`, `join`, `lower`, `\b` word boundaries and the like, over `seq<char>`.
- `Values`: pandas cell values, with Python truthiness and `str()`.
- `Sources`: the source descriptors of a collection.

Where the source mutates state, the model does too:

- `Cli.Shell` is a class whose `filters` map is updated in place by the chat loop.
- `DdlExecutor.OperationLog` is the append-only DDL log.
- Loops are methods with invariants, each proved against a specification function:
  - `GetEmbeddingsBatch`, `StoreBatches` and the enrichment fold;
  - `CacheTables`, `FetchDistinctValues` and `DecodeStream`;
  - `Shell.Run` and `ConsumeSqlStream`.

Source paths and line numbers below refer to the repository's own files.

## Model

| member | source | states |
|---|---|---|
| VectorStore.DocPartsExactly | vector_store.py:28-32 | a vectorize column contributes `"col: value"` exactly when its value is truthy, non-blank after strip and its lowercased text is not `none`/`nan`; every part comes from such a column |
| VectorStore.PrepareDocumentFallback | vector_store.py:27-33 | the document is never empty, and it is `"sin información"` exactly when no vectorize column qualifies |
| VectorStore.AddMetadataSpec | vector_store.py:38-44 | a metadata key is added exactly for listed columns whose value is not None and whose text is not `none`/`nan`/`nat` in any case; ints, floats and bools stay native, anything else becomes its `str`; a later column overwrites an earlier key |
| VectorStore.PrepareMetadataSpec | vector_store.py:36-45 | metadata always holds `_source`, which is the source name unless a qualifying `_source` column overwrites it; other keys are exactly the qualifying metadata columns, none of them valued `none`/`nan`/`nat` |
| VectorStore.StrippedNonEmpty | vector_store.py:52-55 | every kept element is non-empty and already stripped |
| VectorStore.SplitList | vector_store.py:48-55 | every element of a split dimensions field is non-empty and stripped |
| VectorStore.StrippedNonEmptyKeeps | vector_store.py:52-55 | a list of non-empty, already trimmed names passes through unchanged |
| VectorStore.SplitListRoundTrip | vector_store.py:48-55 | pieces of a non-list value contain no `;` or `,`; joining trimmed names without separators by `,` and splitting gives the names back |
| VectorStore.RowIds | vector_store.py:71-74 | there is one id per row |
| VectorStore.RowIdsDistinct | vector_store.py:71-74 | ids are distinct exactly when the row keys are; without an `id` column (ordinal ids) they are always distinct |
| VectorStore.LookupSchema | vector_store.py:100-107 | caching a schema lookup (a failure cached as `[]`) keeps the memo tables coherent with the oracles and each table looked up at most once |
| VectorStore.LookupDistinct | vector_store.py:130-137 | the same for a (table, dim) distinct-values lookup |
| VectorStore.AppendSchema | vector_store.py:109-124 | appending a grounded schema document for a fresh (rule, table) and marking the pair keeps the run coherent |
| VectorStore.AppendCatalog | vector_store.py:142-157 | appending a grounded catalog document keeps the run coherent |
| VectorStore.MarkSchema | vector_store.py:108-124 | marking a (rule, table) pair whose schema is empty keeps the run coherent without a document |
| VectorStore.AddSchema | vector_store.py:97-124 | the schema step of a row keeps the run coherent, only appends documents that come from that row, and marks its (rule, table) pair when schemas are included |
| VectorStore.CacheSchema | vector_store.py:100-107 | after the step the table's schema is cached and no document or mark changed |
| VectorStore.RecordSchema | vector_store.py:108-124 | marks the pair and appends at most the one schema document built from the cached columns |
| VectorStore.AddCatalogs | vector_store.py:128-157 | appends only catalog documents of this row's table and dims, one for every dim whose distinct-values list is non-empty |
| VectorStore.AddCatalog | vector_store.py:129-157 | appends the catalog document of one dim exactly when its value list is non-empty |
| VectorStore.EnrichRow | vector_store.py:89-157 | one row's enrichment keeps the run coherent, extends documents only with this row's, and leaves the row done |
| VectorStore.Enrich | vector_store.py:89-157 | after the fold every extra document comes from some row, every row is done, and the memo tables agree with the oracles with no duplicate lookup |
| VectorStore.EnrichSchemaDocs | vector_store.py:97-124 | with schemas included, every row naming a table with a non-empty schema has a schema document; without them, only catalog documents appear and no schema is fetched |
| VectorStore.BatchesFrom | vector_store.py:168-169 | there are batches exactly when start < total; the first starts at start and the last ends at total |
| VectorStore.BatchesTile | vector_store.py:168-169 | batches are contiguous and within total, each non-empty and at most batch_size long |
| VectorStore.BatchesCover | vector_store.py:168-176 | concatenating the batch slices gives back every document exactly once, in order |
| VectorStore.StoreBatch | vector_store.py:169-178 | a stored batch carries the slice's ids, documents, metadatas and their embeddings; a failure names a document of that slice whose embedding request failed |
| VectorStore.StoreBatches | vector_store.py:166-180 | call k stores batch k; with no error every batch is stored; an error stops at the batch holding the failed document |
| VectorStore.IndexSource | vector_store.py:58-182 | documents, metadatas and ids are parallel lists: row entries first, then one per extra document; a source without `sql_enrich` has none; with it, the extras and lookups are those of the final enrichment state, which is coherent (caches agree with the lookups, at most one schema document per rule and table, each handled pair whose table has columns has its document) and in which every row is done; lookups never repeat; every extra is grounded in a lookup answer and comes from a row; batches are stored in order |
| VectorStore.EnrichFrame | vector_store.py:76-157 | the enrichment of all rows: nothing without `sql_enrich`; otherwise a coherent final state in which every row, as numbered in the frame, is done, with the extras and lookups of that state |
| VectorStore.AllDocuments | vector_store.py:67-163 | the three lists stay equal-length after the extras are appended, row entries first |
| VectorStore.ClearCollection | vector_store.py:193-199 | the named collection is gone afterwards whether or not it existed (the missing case is swallowed), and no other collection changes |
| VectorStore.ClearCollectionIdempotent | vector_store.py:193-199 | clearing twice is clearing once, and the second clear finds nothing |
| Embeddings.GetEmbedding | embeddings.py:6-14 | succeeds exactly on status 200 with the returned embedding, otherwise fails with `"Error de Ollama: "` and the body, no retry |
| Embeddings.SanitizeSpec | embeddings.py:25-28 | texts that are empty, blank after strip or `none` in any case become `"sin información"`, others are sent unchanged; the result is never blank or `none`, and sanitising is idempotent |
| Embeddings.GetEmbeddingsBatch | embeddings.py:17-31 | succeeds exactly when every sanitised text embeds; then there is one embedding per text, in input order; texts are sent in order, every text before the last one sent embedded, and the first failure stops the batch |
| Embeddings.BatchStep | embeddings.py:21-29 | one loop step sends the sanitised next text and appends its embedding on success |
| DbConnector.EngineOf | db_connector.py:5-16 | only mssql, mariadb and duckdb have a driver; any other type fails with `"Motor de BD no soportado: "` |
| DbConnector.QueryError | db_connector.py:55-64 | a query passes exactly when, after strip and leading `(` removal, it starts with the word SELECT in any case, and no forbidden keyword occurs as a whole word; each failure has its own message |
| DbConnector.Take | db_connector.py:69 | `fetchmany(n)` returns the first min(n, len) rows |
| DbConnector.ExecuteQuery | db_connector.py:53-73 | succeeds exactly when the guard passes, the engine is known and the query runs; a rejected query never connects; at most max_rows rows come back; an opened connection is closed on every path |
| DbConnector.QueryErrorIgnoresCase | db_connector.py:57-63 | the guard gives the same verdict for a query and its lower-cased form |
| DbConnector.IdentifierTrailingNewline | db_connector.py:78 | the regex as written accepts `"orders\n"`, which the intended whitelist rejects |
| DbConnector.IdentifierPatternsAgree | db_connector.py:78 | without a trailing newline, the regex as written and the intended whitelist agree |
| DbConnector.CheckIdentifier | db_connector.py:76-79 | an identifier passes exactly when it is non-empty and uses only `[A-Za-z0-9_.]`; otherwise it fails with `"Identificador SQL no permitido: "` |
| DbConnector.ValidIdentifierInert | db_connector.py:76-79 | an accepted identifier contains no quote, bracket, backtick, semicolon, space or newline |
| DbConnector.SplitTableName | db_connector.py:82-88 | no dot gives (None, name), one dot gives (schema, table) around it, two or more dots fail with `"Nombre de tabla no permitido: "` |
| DbConnector.QuoteUnquote | db_connector.py:91-97 | quoting each dot-separated part (brackets for mssql, backticks for mariadb, double quotes otherwise) can be undone, so no name is lost |
| DbConnector.BuildDistinctQuery | db_connector.py:98-112 | builds a query exactly when table and column are valid identifiers, and the table is checked first; for mssql the query starts with `SELECT DISTINCT TOP <limit> ` and ends with ` IS NOT NULL`; for other engines it starts with `SELECT DISTINCT ` and ends with ` LIMIT <limit>` |
| DbConnector.DistinctQueryStartsWithSelect | db_connector.py:100-114 | every built DISTINCT query passes the SELECT-only guard |
| DbConnector.BuildSchemaQuery | db_connector.py:130-152 | builds a query exactly when the name splits and its table and non-empty schema parts are valid identifiers |
| DbConnector.SchemaQueryStartsWithSelect | db_connector.py:130-152 | every built schema query passes the SELECT-only guard |
| DbConnector.MssqlSchemaSql | db_connector.py:136-144 | the mssql form, with or without TOP and schema clause, starts with the word SELECT |
| DbConnector.OtherSchemaSql | db_connector.py:145-152 | the lower-case form for other engines starts with the word SELECT |
| DbConnector.SchemaSqlTop | db_connector.py:136-144 | for mssql the query starts with `SELECT TOP ` exactly when `max_columns` is truthy, and then with `SELECT TOP <max_columns> ` |
| DbConnector.SchemaSqlLimit | db_connector.py:145-152 | for other engines a truthy `max_columns` ends the query with ` LIMIT <max_columns>`; the query ends with ` ORDER BY ordinal_position` exactly when `max_columns` is falsy |
| DbConnector.SchemaSqlSchemaClause | db_connector.py:137-147 | a truthy schema puts the engine's `TABLE_SCHEMA`/`table_schema` clause with that schema into the query |
| DbConnector.SchemaSqlNoSchema | db_connector.py:137-147 | an absent or empty schema gives the same query as the bare table name |
| DbConnector.EmptySchemaUnqualified | db_connector.py:132-146 | a leading dot gives an empty schema, which is falsy, so the query equals the unqualified one |
| DbConnector.DistinctEntry | db_connector.py:123-126 | a cell is kept exactly when it is not NA and not blank after strip, as its `str` |
| DbConnector.DistinctValuesSpec | db_connector.py:120-127 | a text is in the result exactly when it is the `str` of some non-NA, non-blank cell; no result is blank; there are no more values than cells |
| DbConnector.DistinctValuesSnoc | db_connector.py:122-126 | one more cell appends its text exactly when it is kept, and leaves the earlier values as they were |
| DbConnector.FetchDistinctValues | db_connector.py:117-127 | builder errors and query errors pass through; an empty frame or missing column gives `[]`; otherwise the kept values in order, at most limit of them |
| DbConnector.KeepDistinct | db_connector.py:122-127 | the loop keeps exactly the values the specification keeps |
| DbConnector.FirstColumnCi | db_connector.py:161-165 | finds the first column whose lower-cased name equals the key's |
| DbConnector.SchemaEntry | db_connector.py:169-176 | a row without a column name is skipped; otherwise the entry starts with the name and is just the name when the type is missing |
| DbConnector.SchemaColumnsSpec | db_connector.py:167-177 | every named row gives an entry, every entry comes from a row, and there are no more entries than rows |
| DbConnector.GetCiExample | db_connector.py:161-165 | upper-case `COLUMN_NAME`/`DATA_TYPE` headers are found by the lower-case keys |
| DbConnector.FetchTableSchema | db_connector.py:155-177 | builder and query errors pass through; an empty frame gives `[]`; otherwise the schema entries, at most max_columns |
| DbConnector.RenderSchema | db_connector.py:167-177 | the loop builds exactly the specified entry list |
| DbConnector.FindClause | db_connector.py:203 | finds the first `\bKW\s+\d+` occurrence in any case, or reports that there is none |
| DbConnector.ReplaceClause | db_connector.py:204 | a query without the clause is unchanged; otherwise the text before the clause and the text after its number are kept, and the clause becomes `KW n` |
| DbConnector.ReplaceClauseKeeps | db_connector.py:203-204 | after replacing the first clause, the first clause starts at the same place and its number is the new limit's decimal text |
| DbConnector.LimitQueryFalsy | db_connector.py:198-214 | no limit, a zero limit or an engine other than mssql, mariadb and duckdb leaves the query unchanged |
| DbConnector.LimitOtherSpec | db_connector.py:208-214 | after the LIMIT step the first LIMIT clause carries the limit; a query without one gets ` LIMIT n` appended after its text, a query with one keeps its text around the clause |
| DbConnector.LimitQueryAddsLimit | db_connector.py:207-214 | for mariadb and duckdb a positive limit is applied to the query stripped of trailing whitespace and `;`, and its first LIMIT clause then carries that limit |
| DbConnector.LimitTopSpec | db_connector.py:202-206 | after the TOP step the first TOP clause carries the limit, whenever the query had a TOP clause or has a literal `SELECT` not followed by digits |
| DbConnector.LimitQueryAddsTop | db_connector.py:200-206 | for mssql a positive limit leaves the first TOP clause carrying that limit, whenever the query had one or has a literal `SELECT` not followed by digits |
| DbConnector.TopInserted | db_connector.py:206 | inserting after the first literal `SELECT` keeps the text around it and creates the first TOP clause right after it, carrying the limit when no digit followed `SELECT` |
| DbConnector.LimitQueryLowercaseSelect | db_connector.py:206 | a mssql query with neither TOP nor upper-case `SELECT` is left unlimited, because the replace is case-sensitive |
| DbConnector.Head | db_connector.py:231-232 | `head(n)` keeps the first n rows, or drops the last -n rows for negative n |
| DbConnector.FetchSqlAsWritten | db_connector.py:194-220 | an unknown engine fails before connecting; a successful read closes the connection |
| DbConnector.FetchSqlLeaksConnection | db_connector.py:194-217 | when the read raises, the connection as written is opened and never closed |
| DbConnector.FetchSql | db_connector.py:194-217 | the connection is always closed; the read succeeds exactly when the engine is known, the query exists and the limited query runs; the result is the one as written |
| DbConnector.FetchSource | db_connector.py:180-191 | SQL types go to `_fetch_sql` as written, which connects and then runs the limited query; csv passes the limit to the reader; json applies `head` only for a truthy limit; any other type fails with `"Tipo de fuente no soportado: "`; a successful read has closed its connection |
| DbConnector.FetchSourceClosing | db_connector.py:180-220 | with the corrected `_fetch_sql`, the same results as `fetch_source` and every connection closed |
| Search.Similarity | search.py:61-62 | similarity is never negative; it is 1 - distance up to distance 1 and 0 beyond |
| Search.SimilarityMonotone | search.py:62 | a nearer hit never has lower similarity |
| Search.WhereFilter | search.py:50 | an empty filter map is passed as no filter, any other map unchanged |
| Search.FormatHits | search.py:59-72 | one result per hit, in order, with its id, document, metadata, distance and clamped similarity; hits sorted by distance give results sorted by similarity |
| Search.SearchIndex | search.py:31-72 | fails exactly when the query embedding fails, with Ollama's message; otherwise one result per index hit of the query embedding and filter, in order, with its id, document, metadata, distance and clamped similarity |
| Search.Dedup | search.py:16 | the de-duplicated column list has no duplicates |
| Search.DedupMembers | search.py:16 | de-duplicating keeps exactly the same column names |
| Search.DedupPrefix | search.py:16 | first occurrences keep their order: de-duplicating a longer list extends the shorter one's result |
| Search.DedupNoDup | search.py:16 | a list without duplicates is unchanged |
| Search.VectorizeColumnsFirst | search.py:16 | distinct vectorize columns come first, then the metadata columns not already listed, each once |
| Search.SourceLines | search.py:11-27 | a source section starts with its name and type and lists the de-duplicated columns |
| Search.SourcesLinesHeaders | search.py:11-17 | every source of the collection gets its header line |
| Search.BuildSchemaDescription | search.py:7-28 | the description is the collection line followed by each source's section, joined by newlines |
| Search.SqlSources | search.py:177-180 | the SQL sources are a sub-list of the sources |
| Search.SqlSourcesMembers | search.py:180 | exactly the sources with `mode: sql` are kept |
| Search.ColumnBullets | search.py:196-197 | one `"  - col"` line per column, in order |
| Search.BuildSqlSchema | search.py:183-198 | the SQL schema is `""` without SQL sources, otherwise the engine, table and column lines of each |
| Search.SqlSchemaEmptyIff | search.py:185-187 | the SQL schema is empty exactly when there are no SQL sources |
| Search.ExtractSql | search.py:201-207 | text without an opening ```` ```sql ```` fence gives no SQL |
| Search.ExtractFencedSql | search.py:204-206 | a fenced block gives back its stripped body |
| Search.FirstMentioned | search.py:214-217 | finds the first source whose table (default: its name) occurs in the SQL as a whole word, case-insensitively |
| Search.SqlSourceForSpec | search.py:210-219 | a source is found exactly when SQL sources exist; it is one of them; a mentioned one wins over the first-source fallback |
| Search.FindSqlSource | search.py:210-219 | the loop returns the specified source |
| Search.StreamTokens | search.py:166-174 | every yielded token is non-empty |
| Search.StreamStopsAtDone | search.py:173-174 | nothing after the first record with `done` is read |
| Search.StreamTokensFromRecords | search.py:166-172 | every token is the `response` of some record; blank lines yield nothing |
| Search.DecodeStream | search.py:335-342 | the stream loop yields exactly the specified tokens |
| Search.StatusIf | search.py:251-252 | a status event is emitted exactly when a callback is given |
| Search.StreamedOrdered | search.py:325-342 | a streamed answer is tokens only, or one Ollama error message |
| Search.AfterExecutionSpec | search.py:294-342 | after execution the events stay in order, nothing is executed or confirmed again, and the audit text holds the question, SQL, row count and rendered result of a successful run only |
| Search.Statement | search.py:272-281 | an SQL statement exists exactly when the first reply has status 200 and holds a non-empty fenced block |
| Search.ChoiceFor | search.py:289-295 | a source is chosen exactly when SQL sources exist; it is an SQL source and its result is `execute_query` of the statement with 50 rows |
| Search.AfterChoiceSpec | search.py:289-342 | only the confirmed statement is executed, and only with a source; an execution error ends with the message that holds the SQL; the audit is written only after a successful run |
| Search.AfterStatementOrdered | search.py:283-342 | the confirmation event is emitted exactly for the extracted statement, and the rest of the path stays in phase order |
| Search.AfterStatementEffects | search.py:283-342 | execution only follows a confirmed statement and a chosen source; a failed execution is the confirm, executing status, execute and error message, with no audit |
| Search.SqlEventsOrdered | search.py:243-342 | the whole SQL path is in order: thinking, generate, confirm, executing, execute, audit, interpreting, tokens, end; the confirm event is emitted exactly for the statement |
| Search.SqlEventsEarlyEnd | search.py:272-281 | a failed first request ends with the Ollama error; a reply without SQL ends with the message holding the raw model text |
| Search.SqlEventsExecuted | search.py:284-295 | a statement is executed only after its confirmation event |
| Search.SqlEventsExecutionFails | search.py:294-298 | a failing execution ends the path with the error and SQL, and writes no audit |
| Search.SqlEventsAudit | search.py:303-309 | the audit file is written only after a successful execution, with that run's text |
| Search.StepsSpec | search.py:272-295 | the statement is extracted from the first reply only on status 200, and a source is chosen only for a statement |
| Search.NothingBeforeConfirm | search.py:283-313 | in an ordered stream, nothing up to the confirmation executes, writes the audit or streams the interpretation |
| Search.SqlEventsNoCallback | search.py:251-252 | without a callback no status event appears and the path starts with the generation request |
| Search.SqlPath | search.py:243-342 | the generator yields exactly the specified SQL-path events |
| Search.SqlTail | search.py:286-342 | from the executing status on, the yielded events are the specified ones |
| Search.Interpret | search.py:300-342 | the events after an execution result are the specified ones |
| Search.StreamAnswer | search.py:325-342 | a streamed reply yields the specified events |
| Search.HitCount | search.py:352 | the search fails exactly when the query embedding fails |
| Search.RagEventsOrdered | search.py:345-380 | the RAG path is in order: searching, answering, generate, tokens or message |
| Search.RagEventsNoHits | search.py:354-356 | no hits end with `"No encontré información relevante para responder."` and no generation request |
| Search.RagEventsRequests | search.py:354-367 | a generation request is made exactly when the search found hits |
| Search.AnswerEventsSpec | search.py:358-380 | answering is ordered and always requests a generation |
| Search.RagEventsNoCallback | search.py:135-174 | `ask_stream` is the RAG path without status events |
| Search.RagPath | search.py:345-380 | the generator yields exactly the specified RAG events |
| Search.ChatStream | search.py:222-240 | `force_sql` selects the SQL path, otherwise the RAG path |
| Search.Ask | search.py:104-132 | no hits answer the fixed message without a request; a request is made exactly when there are hits and succeeds exactly on status 200 with the reply's text; a search failure passes through |
| Config.NamedDictListCases | config.py:13-14 | the empty list is a named-dict list; a non-list, or a list with a non-dict or a dict without `name`, is not |
| Config.MergeNull | config.py:18-19 | merging None returns the base unchanged |
| Config.MergeOtherwise | config.py:28-40 | every other combination, including plain lists and mismatched types, returns the override |
| Config.SetField | config.py:24-26 | setting a key makes it map to the value, keeps other keys, and appends a new key at the end |
| Config.MergeField | config.py:22-26 | a shared key is merged recursively, a new key takes the override value, other keys are untouched |
| Config.MergeFieldsLookup | config.py:20-27 | each key of a dict merge is the base value, the override value, or their recursive merge |
| Config.MergeFieldsKeys | config.py:20-27 | merged keys are the base keys in order, then new override keys in override order |
| Config.MergeDicts | config.py:20-27 | dict merge: union of keys, base-only keys keep the base value, override-only keys take the override value, shared keys merge recursively |
| Config.NameIndex | config.py:31 | the name index points at the last base item with that name, as the dict comprehension keeps it |
| Config.MergeItemsSpec | config.py:30-38 | the item loop keeps base positions, merges each indexed base item with every same-name override in order, and appends unmatched overrides |
| Config.MergeNamedLists | config.py:28-38 | named-dict lists keep base order and items, merge same-name items recursively, and append new names in override order |
| Config.LoadYaml | config.py:8-10 | an empty document (any falsy value) loads as `{}`; anything else is kept |
| Config.LoadConfig | config.py:43-48 | secrets are merged over the configuration only when the secrets file exists |
| Config.Section | config.py:51-56 | `config["ollama"]`/`["chroma"]` fail exactly when the key is missing |
| Config.ListCollections | config.py:59-60 | lists the collection names in order, `{}` when absent |
| Config.GetCollectionConfig | config.py:63-68 | returns the named entry, or fails with `"Colección '…' no encontrada. Disponibles: …"` for an unknown name |
| Config.NotFound | config.py:66-67 | the message lists the collection names joined by `, `, and says `(ninguna)` exactly when that join is empty: no collections, or a single one named `""` |
| Text.JoinEmpty | config.py:66 | a join with a non-empty separator is empty only for no pieces or one empty piece |
| Config.SecretsAddCollections | config.py:43-68 | after the merge a collection is found exactly when it is in the configuration or in the secrets |
| Config.MergedCollections | config.py:43-48 | the merged `collections` section is the deep merge of both sections |
| SchemaCache.EnrichSource | schema_cache.py:33-36 | picks the first source with `sql_enrich`, or none when no source has one |
| SchemaCache.TableOf | schema_cache.py:52-56 | a row names a table exactly when `tabla` is truthy and not NaN |
| SchemaCache.Tables | schema_cache.py:51-56 | one table entry per CSV row, in order |
| SchemaCache.CacheSpec | schema_cache.py:50-65 | the cache keys are exactly the named tables with a successful fetch, each mapped to its successful column list |
| SchemaCache.FetchCount | schema_cache.py:57-65 | a table is fetched once if its fetch succeeds, otherwise once per row naming it |
| SchemaCache.FetchesLast | schema_cache.py:57-65 | a row triggers a fetch exactly when it names a table not yet cached |
| SchemaCache.GenerateSchemasCache | schema_cache.py:14-72 | no `sql_enrich` source means no fetch and no write; a missing CSV means no fetch; otherwise the written map is the specified cache |
| SchemaCache.CacheTables | schema_cache.py:50-65 | the row loop builds exactly the specified cache and fetch sequence |
| DdlExecutor.CheckClean | ddl_executor.py:94-107 | accepted exactly when an allowed phrase starts the trimmed upper-cased text and no forbidden phrase occurs; the two rejections are told apart |
| DdlExecutor.UpdateBacktracking | ddl_executor.py:89 | `\bUPDATE\s+\b` holds exactly when UPDATE is followed by whitespace and then a word character |
| DdlExecutor.AcceptedStartsWithVerb | ddl_executor.py:75-100 | an accepted statement starts with ALTER, CREATE or DROP followed by whitespace |
| DdlExecutor.ValidateIgnoresCase | ddl_executor.py:92 | validation gives the same verdict for a statement and its lower-cased form |
| DdlExecutor.NumberLineNoNewline | ddl_executor.py:115 | numbering a line adds no line break |
| DdlExecutor.FormatSqlLines | ddl_executor.py:110-116 | one output line per input line, numbered from 1 as `"  n \| line"` and ending with the input line |
| DdlExecutor.ConfirmedPadded | ddl_executor.py:155-161 | `CONFIRMO` surrounded by whitespace confirms |
| DdlExecutor.ConfirmedCaseSensitive | ddl_executor.py:157 | the lower-cased answer never confirms |
| DdlExecutor.ConfirmedShape | ddl_executor.py:155-161 | a confirming answer is `CONFIRMO` with only whitespace around it |
| DdlExecutor.Abbreviate | ddl_executor.py:130 | the logged operation is the SQL up to 100 characters, or its first 100 characters plus `...` |
| DdlExecutor.OperationLog.Append | ddl_executor.py:119-137 | the log grows by exactly one entry at the end, with the abbreviated SQL |
| DdlExecutor.Index | ddl_executor.py:47-52 | subscripting fails exactly when the value is not a dict or lacks the key |
| DdlExecutor.GetOr | ddl_executor.py:61 | `get` with a default succeeds on a dict and gives the default for a missing key |
| DdlExecutor.FirstCredentials | ddl_executor.py:63-67 | there are no credentials exactly when no secret source has `sql_enrich` |
| DdlExecutor.FirstCredentialsFrom | ddl_executor.py:63-67 | found credentials come from the first secret source with `sql_enrich` |
| DdlExecutor.ConnectionConfigSpec | ddl_executor.py:43-69 | the settings are a copy of the first source's `sql_enrich`, which must be a mapping or a list; for a mapping, user and password are replaced by the first secret credentials when there are any; a list comes back unchanged, and only when there are no credentials to write into it |
| DdlExecutor.Reaching | db_connector.py:5-7 | settings that are not a mapping make the connection step raise, since `get_connection` subscripts them by `type`; a mapping leaves the database's behaviour as it is |
| DdlExecutor.ListSettingsFail | ddl_executor.py:181-197 | a list block that reaches the connection fails inside the `try` at the connection step, and the failure is logged as FAILED |
| DdlExecutor.UnknownCollection | ddl_executor.py:47-49 | an unknown collection exits with `"Colección '…' no encontrada"` |
| DdlExecutor.Session | ddl_executor.py:181-186 | with no driver error the steps are connect, execute the SQL, commit, close; the connection is closed only when every earlier step succeeded |
| DdlExecutor.PlanDdlGates | ddl_executor.py:164-197 | nothing connects or logs unless the SQL validates, the user confirms and the settings load; only the given SQL is executed |
| DdlExecutor.PlanDdlLogged | ddl_executor.py:181-197 | a connected run logs one entry, SUCCESS exactly when the run completed, otherwise FAILED with the error |
| DdlExecutor.RunSession | ddl_executor.py:181-186 | the driver steps taken are the specified ones |
| DdlExecutor.ExecuteDdl | ddl_executor.py:164-197 | outcome and steps are the planned ones, and the log grows by the planned entry only |
| Cli.Words | main.py:213 | the words of a `/filter` line are non-empty and contain no whitespace |
| Cli.WordsJoin | main.py:213 | splitting words joined by single spaces gives the words back |
| Cli.SplitAtEq | main.py:215-216 | a part without `=` is ignored; otherwise it is key, `=`, value with no `=` in the key |
| Cli.SplitAtEqRoundTrip | main.py:216 | splitting `key=value` at the first `=` gives back key and value |
| Cli.LastEdit | main.py:214-220 | the last edit of a key is a set or a remove of that key |
| Cli.LastEditWins | main.py:214-220 | after a `/filter` command, a key holds the value of its last `k=v` part, is removed when that value is `none` in any case, and is untouched when no part names it |
| Cli.Classify | main.py:198-245 | a blank line is ignored, a plain query is passed on unchanged, and a `/sql` question is only recognised by the chat loop, stripped |
| Cli.ClassifyCases | main.py:209-223 | `/filters` only displays; the search loop treats `/sql …` as a query |
| Cli.ClassifyFilter | main.py:212-213 | `/filter` followed by words applies exactly those words |
| Cli.ClassifyFilterPrefix | main.py:212-213 | any line starting with `/filter` other than `/filters` is a filter command on the words after the prefix |
| Cli.StepWellFormed | main.py:223-250 | every request a command makes has a non-empty question, filters that are None or non-empty, a stripped `/sql` question, and the kind of its loop |
| Cli.InputsParsed | main.py:193 | every input line, stripped and classified, is a command that classification can produce |
| Cli.CommandAt | main.py:193-197 | the k-th input is handled as the command of the k-th line, stripped |
| Cli.ConfirmsAt | main.py:234-235 | the k-th input, read at the confirmation prompt, confirms exactly when it is `s` after strip and lower |
| Cli.TurnOf | main.py:191-249 | one pass of the loop reads one or two lines, sends exactly the request its command makes, and only a pass that ends the session can stop at the prompt or raise |
| Cli.After | main.py:224-249 | after a command the filters are unchanged, the request sent is the reply's, and a turn that goes on neither stops at the prompt nor raises |
| Cli.Confirmation | main.py:229-243 | a request that reaches the confirmation is sent, and the turn reads its answer, or stops at the prompt when the input has run out |
| Cli.ThrownFirst | search.py:352 | a stream raises exactly when it holds a raising item, and the error is that of the first one |
| Cli.SessionWellFormed | main.py:191-250 | every request of a chat or search session over the input lines is well formed |
| Cli.LoopWellFormed | main.py:191-250 | the same for any input of parsed commands, whichever lines are taken as confirmation answers |
| Cli.TurnAnswers | main.py:229-236 | one turn reads an answer exactly when its request reaches the confirmation and the input has not run out there |
| Cli.LoopAnswers | main.py:231-236 | one line is read as a confirmation answer for every request whose stream reaches the confirmation, except the last when the input runs out at that prompt |
| Cli.ConfirmingAppend | main.py:231-236 | the requests that reach the confirmation in two runs of requests add up |
| Cli.SearchReadsNoAnswers | main.py:306-340 | the search loop, which has no `/sql`, reads no confirmation answers and never stops at that prompt |
| Cli.LoopErrorLast | main.py:191-249 | a session that ends with an exception ends at the request whose stream raised it: that request is the last one sent and its stream holds the raising item |
| Cli.TurnErrorLast | main.py:229-249 | the same for one turn |
| Cli.RaisingQuestionEnds | main.py:244-249 | a question whose search raises ends the session (in the chat loop, and in the search loop at main.py:341-345): it is the only request sent, the error is its stream's, and no later line is read |
| Cli.LoopRaisingQuestion | main.py:341-345 | the same on classified input |
| Cli.LoopStopsAtQuit | main.py:200-203 | nothing after a `/quit` line at the command prompt is read, provided the session before it neither stops at the confirmation prompt nor raises |
| Cli.SameTurn | main.py:229-236 | a turn reads at most its first two lines |
| Cli.ShortTurn | main.py:229-236 | on a single line a turn is what it is with more lines after it, except that a turn that reads an answer stops at the prompt instead |
| Cli.SqlAnswerRead | main.py:229-243 | a `/sql` line whose stream reaches the confirmation and does not raise as far as the answer lets it run, any line, then `/quit`: one request is sent and the second line is its answer, not a command |
| Cli.LoopAnswerRead | main.py:229-236 | the same on classified input |
| Cli.SqlAnswerMissing | main.py:229-236 | a `/sql` line whose stream reaches the confirmation as the last line: the request is sent and the input runs out at the prompt, which raises |
| Cli.LoopAnswerMissing | main.py:229-236 | the same on classified input |
| Cli.ClearAndShow | main.py:200-227 | `/quit` quits, `/clear` empties the filters, `/filters` only lists them, and `/sql` without a question shows the usage and sends nothing |
| Cli.Shell.ApplyFilterCommand | main.py:213-220 | the filter map becomes the specified result of applying the parts in order |
| Cli.Shell.Handle | main.py:193-250 | one input line updates the filters and replies as the specified step of its stripped, classified command |
| Cli.Shell.Perform | main.py:197-250 | one pass of the loop on a classified command updates the filters and replies as the specified step |
| Cli.Shell.Serve | main.py:191-249 | one pass of the loop from line i on updates the filters and does the specified turn |
| Cli.Shell.Answer | main.py:224-249 | after the reply, the specified rest of the turn: the answer read and the error of the stream as far as it is consumed |
| Cli.Shell.Confirm | main.py:229-243 | the next line is read as the answer and the stream is consumed as far as that answer lets it, as specified |
| Cli.Shell.Advance | main.py:191-249 | each pass keeps what was sent and answered so far followed by the session from the next line equal to the whole session, and a pass that ends the session leaves exactly the whole session |
| Cli.Shell.Run | main.py:191-250 | the loop over the input lines ends with the filters, requests, confirmation answers, end-of-input-at-the-prompt and exception of the specified session; each answer is passed to the stream's consumer |
| Cli.ConsumedPrefix | main.py:231-243 | what the stream's consumer takes is the specified consumed part of the stream |
| Cli.FirstConfirm | main.py:232-233 | finds the first confirmation event of the stream |
| Cli.ConsumeSqlStream | main.py:231-243 | the stream is cancelled exactly when a confirmation is answered with anything but `s` after strip and lower; then nothing past it is consumed, and in an ordered stream nothing was executed, audited or interpreted |
| Cli.Named | main.py:81 | selecting by name never adds sources |
| Cli.NamedSpec | main.py:81 | exactly the sources with that name are selected |
| Cli.IndexedSpec | main.py:91-97 | every source except `mode: sql` is indexed, with the given limit |
| Cli.IndexPlanSpec | main.py:71-106 | an unknown source name fails before any clear or index; the clear comes first and only when asked; `mode: sql` sources are skipped; the count and schema cache steps come last |
| Cli.CmdIndex | main.py:71-106 | the command performs exactly the specified plan |
| Cli.FirstTable | main.py:268-272 | finds the first cached table whose name matches case-insensitively |
| Cli.CmdSchema | main.py:253-283 | a missing cache fails; a table is found exactly when some cached name matches case-insensitively, and it is the first such entry |
| Cli.ArgFiltersSpec | main.py:411-415 | `-f` parsing fails exactly when some argument has no `=`; otherwise each key holds the value of its last occurrence |
| Cli.ParseFilterArgs | main.py:410-421 | the unpack error surfaces as such; otherwise an empty map becomes None |
| Cli.ArgFiltersFail | main.py:414 | the first argument without `=` raises the unpack error |

## Left out

- I/O is modelled by oracles, not implemented: Ollama HTTP calls, the ChromaDB client, database drivers, pandas readers, YAML/JSON files, the audit and log files, the clock.
- Embedding vectors and distances are abstract. Only the similarity clamp is modelled, over `real`. Floating-point progress percentages are not modelled.
- Case mapping, `\s`, `\w` and `\d` are ASCII only, plus Python's whitespace set for `\s`. Python's `\d` and `\w` also match non-ASCII digits and letters. Unicode case folding is not modelled.
- Prompt wording (`_build_prompt` and the SQL prompts) is not modelled: it is text handed to the model and does not affect control flow.
- `print_results`, `cmd_check`, `cmd_collections`, `cmd_search`/`cmd_ask` printing, status message strings and the argparse wiring are presentation only and are not modelled.
- The dispatch check in `main` that a command needs a collection is not modelled.
- `test_ollama_connection`, `test_source_connection`, `_source_label` and `get_collection_stats` are reachability checks or labels. The collection count appears only as a `CountDocuments` step of the index plan.
- `get_db_config` in ddl_executor.py reads two files. The model takes the parsed configuration and secrets as values, so a missing secrets file is not modelled.
- `KeyboardInterrupt` is not modelled. `EOFError` at the command prompt is the end of the input lines and ends the loop. At the `/sql` confirmation prompt it is the `raised` flag of the outcome, since there it escapes the loop. An exception from a request's stream escapes the loop too and is the `error` of the outcome; what it does to the process after that is not modelled.
- Cli.Shell.Run: the stream of each request is a parameter of the loop. A `Raised` item stands for `search` raising where the loop consumes the stream, and the first one consumed ends the session with its error. Whether a confirmation was cancelled is only printed by the source.
- Cli.ConsumeSqlStream: one answer stands for every confirmation prompt; the SQL path yields at most one confirmation event.
- Cli.CmdSchema: the sorted listing of available tables on a miss is presentation and is not modelled.
- Cli.Classify: the `/filter` words are taken from `query[7:]` without the extra `strip()`; `split()` ignores surrounding whitespace, so the words are the same.
- Cli.IndexPlanSpec: `fetch_source`/`index_source` failures abort the command in Python; the plan lists the steps and does not model an abort in the middle.
- VectorStore.IndexSource: ChromaDB's handling of duplicate ids on `add` is unknown and not modelled; the ids are stated, not deduplicated.
- DbConnector.BuildDistinctQuery, DbConnector.BuildSchemaQuery, DbConnector.FetchDistinctValues and DbConnector.FetchTableSchema use the corrected whitelist `CheckIdentifier` of the first Findings row. As written, a name with a final newline would also pass.
- DbConnector.LimitQueryAddsLimit and DbConnector.LimitQueryAddsTop are stated for positive limits. A negative limit is truthy in Python and writes `LIMIT -n` or `TOP -n`; the model computes that text but proves nothing about it.
- VectorStore.RuleId: the fallback id is the row's position. Python uses the DataFrame index label, which is the same for the default index of the readers.
- VectorStore.IndexSource and SchemaCache.EnrichSource: an `sql_enrich: {}` block is falsy in Python and treated as absent. The model's `EnrichConfig` always carries its `type`, so an empty block is written as `None`.
- DdlExecutor.ConnectionConfigSpec: for a list-valued `sql_enrich` whose first secrets source has `user` but no `password`, the model fails with the missing-key error, where Python fails with the list-subscript `TypeError`; both end the program outside the `try`.
- DdlExecutor.FirstCredentials: a secrets source that is not a mapping fails in the model. Python tests `'sql_enrich' in source_secret` by membership or substring and skips the source when that test is false.
- mcp_server.py and the one-off query scripts are not part of this model.
- Concurrency: the program has none.

## Findings

| source | as written | input that shows it | evidently intended | confidence | as-written member | corrected member |
|---|---|---|---|---|---|---|
| db_connector.py:78 | `re.match(r"^[A-Za-z0-9_.]+$", name)`: `$` also matches before a final newline | `"orders\n"` passes the whitelist | only non-empty strings over `[A-Za-z0-9_.]` pass (`\Z` or `fullmatch`) | high, not executed | DbConnector.IdentifierTrailingNewline | DbConnector.CheckIdentifier |
| db_connector.py:195-217 | `_fetch_sql` opens the connection and closes it after `pd.read_sql` without `finally` | a duckdb source whose query raises in `read_sql` | the connection is closed on every path, as `execute_query` does | high, not executed | DbConnector.FetchSqlLeaksConnection | DbConnector.FetchSql |
