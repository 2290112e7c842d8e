/** Query orchestration: similarity search over the index, the schema texts given to the
    model, extraction of generated SQL, choice of the SQL source, and the two answer paths
    (retrieval-augmented and generated SQL) as lists of events. The embedding endpoint, the
    vector index, the model's replies and the database are parameters; prompt wording is
    not modelled. */
module Search {
  import opened Wrappers
  import opened Text
  import opened Values
  import opened Sources
  import opened Embeddings
  import opened DbConnector

  // ---------------------------------------------------------------- similarity search

  /** One hit as the vector index returns it. */
  datatype Hit = Hit(id: string, document: string, metadata: map<string, Meta>, distance: real)

  /** One entry of `search`'s result. */
  datatype Match = Match(id: string, document: string, metadata: map<string, Meta>, distance: real, similarity: real)

  /** `max(0, 1 - distance)` */
  function Similarity(distance: real): (s: real)
    ensures s >= 0.0
    ensures distance <= 1.0 ==> s == 1.0 - distance
    ensures distance >= 1.0 ==> s == 0.0
    ensures distance >= 0.0 ==> s <= 1.0
  {
    if 1.0 - distance > 0.0 then 1.0 - distance else 0.0
  }

  /** A closer hit is never less similar. */
  lemma SimilarityMonotone(d1: real, d2: real)
    requires d1 <= d2
    ensures Similarity(d1) >= Similarity(d2)
  {
  }

  /** `filters if filters else None`: an empty filter map is no filter. */
  function WhereFilter(filters: map<string, string>): (r: Option<map<string, string>>)
    ensures r.None? <==> filters == map[]
    ensures r.Some? ==> r.value == filters
  {
    if filters == map[] then None else Some(filters)
  }

  /** The index lookup: query vector, number of results, metadata filter. */
  type IndexQuery = (Embedding, int, Option<map<string, string>>) -> seq<Hit>

  /** The loop of `search` over the hits: one entry per hit, in the order returned. */
  method FormatHits(hits: seq<Hit>) returns (formatted: seq<Match>)
    ensures |formatted| == |hits|
    ensures forall i :: 0 <= i < |hits| ==>
              formatted[i] == Match(hits[i].id, hits[i].document, hits[i].metadata, hits[i].distance,
                                    Similarity(hits[i].distance))
    ensures forall i :: 0 <= i < |hits| ==> formatted[i].similarity >= 0.0
    ensures (forall i, j :: 0 <= i < j < |hits| ==> hits[i].distance <= hits[j].distance) ==>
              forall i, j :: 0 <= i < j < |hits| ==> formatted[i].similarity >= formatted[j].similarity
  {
    formatted := [];
    var i := 0;
    while i < |hits|
      invariant 0 <= i <= |hits|
      invariant |formatted| == i
      invariant forall k :: 0 <= k < i ==>
                  formatted[k] == Match(hits[k].id, hits[k].document, hits[k].metadata, hits[k].distance,
                                        Similarity(hits[k].distance))
    {
      var distance := hits[i].distance;
      var similarity := Similarity(distance);
      formatted := formatted + [Match(hits[i].id, hits[i].document, hits[i].metadata, distance, similarity)];
      i := i + 1;
    }
    if forall i, j :: 0 <= i < j < |hits| ==> hits[i].distance <= hits[j].distance {
      forall i, j | 0 <= i < j < |hits|
        ensures formatted[i].similarity >= formatted[j].similarity
      {
        SimilarityMonotone(hits[i].distance, hits[j].distance);
      }
    }
  }

  /** `search`: embed the question (failing like `get_embedding`), query the index with the
      filter (none when empty), and map the hits. */
  method SearchIndex(query: string, nResults: int, filters: map<string, string>,
                     post: string -> EmbedReply, index: IndexQuery)
    returns (r: Result<seq<Match>>)
    ensures r.Success? <==> post(query).status == 200
    ensures r.Failure? ==> r.error == "Error de Ollama: " + post(query).body
    ensures r.Success? ==>
              var hits := index(post(query).embedding, nResults, WhereFilter(filters));
              && |r.value| == |hits|
              && forall i :: 0 <= i < |hits| ==>
                   r.value[i] == Match(hits[i].id, hits[i].document, hits[i].metadata, hits[i].distance,
                                       Similarity(hits[i].distance))
  {
    var e := GetEmbedding(post, query);
    if e.Failure? {
      return Failure(e.error);
    }
    var hits := index(e.value, nResults, WhereFilter(filters));
    var formatted := FormatHits(hits);
    r := Success(formatted);
  }

  // ---------------------------------------------------------------- schema texts

  /** `list(dict.fromkeys(xs))`: each element once, where it first occurs. */
  function Dedup(xs: seq<string>): (r: seq<string>)
    ensures NoDup(r)
  {
    if xs == [] then []
    else
      var d := Dedup(xs[..|xs| - 1]);
      var x := xs[|xs| - 1];
      if x in d then d else NoDupSnoc(d, x); d + [x]
  }

  /** Nothing is lost or added by de-duplication. */
  lemma {:induction false} DedupMembers(xs: seq<string>)
    ensures forall x :: x in Dedup(xs) <==> x in xs
  {
    if xs != [] {
      DedupMembers(xs[..|xs| - 1]);
      assert xs == xs[..|xs| - 1] + [xs[|xs| - 1]];
    }
  }

  /** De-duplicating a longer list keeps the de-duplication of its beginning in front. */
  lemma {:induction false} DedupPrefix(xs: seq<string>, ys: seq<string>)
    ensures |Dedup(xs)| <= |Dedup(xs + ys)|
    ensures Dedup(xs + ys)[..|Dedup(xs)|] == Dedup(xs)
    decreases |ys|
  {
    if ys == [] {
      assert xs + ys == xs;
    } else {
      var init := ys[..|ys| - 1];
      DedupPrefix(xs, init);
      assert (xs + ys)[..|xs + ys| - 1] == xs + init;
    }
  }

  /** A list without repeats is its own de-duplication. */
  lemma {:induction false} DedupNoDup(xs: seq<string>)
    requires NoDup(xs)
    ensures Dedup(xs) == xs
  {
    if xs != [] {
      var init := xs[..|xs| - 1];
      assert NoDup(init);
      DedupNoDup(init);
      assert xs[|xs| - 1] !in init;
    }
  }

  /** The column list of the schema description: the vectorised columns first, in their
      order, then the metadata columns not already named; no column twice. */
  lemma VectorizeColumnsFirst(vectorize: seq<string>, metadata: seq<string>)
    requires NoDup(vectorize)
    ensures |vectorize| <= |Dedup(vectorize + metadata)|
    ensures Dedup(vectorize + metadata)[..|vectorize|] == vectorize
    ensures NoDup(Dedup(vectorize + metadata))
    ensures forall c :: c in Dedup(vectorize + metadata) <==> c in vectorize || c in metadata
  {
    DedupNoDup(vectorize);
    DedupPrefix(vectorize, metadata);
    DedupMembers(vectorize + metadata);
  }

  predicate IsSqlEngine(kind: string)
  {
    kind == "mssql" || kind == "mariadb" || kind == "duckdb"
  }

  /** The description lines of one source (`_build_schema_description`'s loop body). */
  function SourceLines(s: SourceConfig): (r: seq<string>)
    ensures |r| >= 4 && r[0] == "\nFuente: " + s.name + " (tipo: " + s.kind + ")"
    ensures r[|r| - 3] == "  Columnas: " + Join(", ", Dedup(s.vectorize + s.metadata))
  {
    ["\nFuente: " + s.name + " (tipo: " + s.kind + ")"]
    + (if IsSqlEngine(s.kind)
       then ["  Servidor: " + s.server.GetOr(s.path.GetOr("")), "  Base de datos: " + s.database.GetOr("")]
       else [])
    + (if s.query.Some? then ["  Query original: " + Strip(s.query.value)] else [])
    + (if s.kind == "csv" then ["  Archivo: " + s.path.GetOr("")] else [])
    + ["  Columnas: " + Join(", ", Dedup(s.vectorize + s.metadata)),
       "  Campos de búsqueda semántica: " + Join(", ", s.vectorize),
       "  Campos de filtro/metadata: " + Join(", ", s.metadata)]
  }

  function SourcesLines(sources: seq<SourceConfig>): seq<string>
  {
    if sources == [] then [] else SourcesLines(sources[..|sources| - 1]) + SourceLines(sources[|sources| - 1])
  }

  /** Every source gets its own header line in the description. */
  lemma {:induction false} SourcesLinesHeaders(sources: seq<SourceConfig>)
    ensures forall s :: s in sources ==> "\nFuente: " + s.name + " (tipo: " + s.kind + ")" in SourcesLines(sources)
  {
    if sources != [] {
      var init := sources[..|sources| - 1];
      SourcesLinesHeaders(init);
      assert sources == init + [sources[|sources| - 1]];
      var last := SourceLines(sources[|sources| - 1]);
      assert last[0] in last;
    }
  }

  lemma SourcesLinesSnoc(sources: seq<SourceConfig>, i: nat)
    requires i < |sources|
    ensures SourcesLines(sources[..i + 1]) == SourcesLines(sources[..i]) + SourceLines(sources[i])
  {
    assert sources[..i + 1][..i] == sources[..i];
  }

  /** `_build_schema_description`: a title line, then each source's lines, joined by newlines. */
  method BuildSchemaDescription(collection: string, sources: seq<SourceConfig>) returns (text: string)
    ensures text == Join("\n", ["Colección: " + collection] + SourcesLines(sources))
  {
    var lines: seq<string> := [];
    var i := 0;
    while i < |sources|
      invariant 0 <= i <= |sources|
      invariant lines == SourcesLines(sources[..i])
    {
      SourcesLinesSnoc(sources, i);
      lines := lines + SourceLines(sources[i]);
      i := i + 1;
    }
    assert sources[..i] == sources;
    text := Join("\n", ["Colección: " + collection] + lines);
  }

  /** `_get_sql_sources`: the sources with `mode: sql`, in configuration order. */
  function SqlSources(sources: seq<SourceConfig>): (r: seq<SourceConfig>)
    ensures |r| <= |sources|
  {
    if sources == [] then []
    else
      var init := SqlSources(sources[..|sources| - 1]);
      var last := sources[|sources| - 1];
      if last.IsSqlMode() then init + [last] else init
  }

  /** Exactly the sources with `mode: sql` are kept. */
  lemma {:induction false} SqlSourcesMembers(sources: seq<SourceConfig>)
    ensures forall s :: s in SqlSources(sources) <==> s in sources && s.IsSqlMode()
  {
    if sources != [] {
      SqlSourcesMembers(sources[..|sources| - 1]);
      assert sources == sources[..|sources| - 1] + [sources[|sources| - 1]];
    }
  }

  /** The bullet lines of one SQL source's columns. */
  function ColumnBullets(columns: seq<string>): (r: seq<string>)
    ensures |r| == |columns|
    ensures forall i :: 0 <= i < |columns| ==> r[i] == "  - " + columns[i]
  {
    seq(|columns|, i requires 0 <= i < |columns| => "  - " + columns[i])
  }

  function SqlSourceLines(s: SourceConfig): seq<string>
  {
    ["Motor: " + s.kind, "Tabla: " + s.TableName(), "Columnas:"] + ColumnBullets(s.columns)
  }

  function SqlSchemaLines(sources: seq<SourceConfig>): (r: seq<string>)
    ensures |r| >= 3 * |sources|
  {
    if sources == [] then [] else SqlSchemaLines(sources[..|sources| - 1]) + SqlSourceLines(sources[|sources| - 1])
  }

  /** `_build_sql_schema`: empty without SQL sources; otherwise engine, table and columns of each. */
  method BuildSqlSchema(sources: seq<SourceConfig>) returns (text: string)
    ensures text == (if SqlSources(sources) == [] then "" else Join("\n", SqlSchemaLines(SqlSources(sources))))
  {
    var sqlSources := SqlSources(sources);
    if sqlSources == [] {
      return "";
    }
    var parts: seq<string> := [];
    var i := 0;
    while i < |sqlSources|
      invariant 0 <= i <= |sqlSources|
      invariant parts == SqlSchemaLines(sqlSources[..i])
    {
      var source := sqlSources[i];
      assert sqlSources[..i + 1][..i] == sqlSources[..i];
      ghost var before := parts;
      parts := parts + ["Motor: " + source.kind, "Tabla: " + source.TableName(), "Columnas:"];
      var k := 0;
      while k < |source.columns|
        invariant 0 <= k <= |source.columns|
        invariant parts == before + ["Motor: " + source.kind, "Tabla: " + source.TableName(), "Columnas:"]
                           + ColumnBullets(source.columns[..k])
      {
        assert ColumnBullets(source.columns[..k + 1]) == ColumnBullets(source.columns[..k]) + ["  - " + source.columns[k]];
        parts := parts + ["  - " + source.columns[k]];
        k := k + 1;
      }
      assert source.columns[..k] == source.columns;
      i := i + 1;
    }
    assert sqlSources[..i] == sqlSources;
    text := Join("\n", parts);
  }

  /** The SQL schema text is empty exactly when no source has `mode: sql`. */
  lemma SqlSchemaEmptyIff(sources: seq<SourceConfig>)
    ensures (if SqlSources(sources) == [] then "" else Join("\n", SqlSchemaLines(SqlSources(sources)))) == ""
            <==> SqlSources(sources) == []
  {
    var ss := SqlSources(sources);
    if ss != [] {
      var lines := SqlSchemaLines(ss);
      JoinPrefix("\n", lines);
      var last := SqlSourceLines(ss[|ss| - 1]);
      assert lines == SqlSchemaLines(ss[..|ss| - 1]) + last;
      assert |lines[0]| >= 1 by {
        if |SqlSchemaLines(ss[..|ss| - 1])| == 0 {
          assert lines[0] == "Motor: " + ss[|ss| - 1].kind;
        } else {
          FirstSchemaLine(ss[..|ss| - 1]);
        }
      }
    }
  }

  /** Every non-empty SQL schema starts with an engine line. */
  lemma {:induction false} FirstSchemaLine(sources: seq<SourceConfig>)
    requires SqlSchemaLines(sources) != []
    ensures |SqlSchemaLines(sources)[0]| >= 1
  {
    var init := sources[..|sources| - 1];
    if SqlSchemaLines(init) == [] {
      assert SqlSchemaLines(sources)[0] == "Motor: " + sources[|sources| - 1].kind;
    } else {
      FirstSchemaLine(init);
      assert SqlSchemaLines(sources)[0] == SqlSchemaLines(init)[0];
    }
  }

  // ---------------------------------------------------------------- generated SQL

  /** `_extract_sql`: the stripped body of the first fenced block opened by three backticks and
      `sql` (any case), or None. Leading whitespace after the tag is skipped; the body ends at
      the next three backticks. */
  function ExtractSql(text: string): (r: Option<string>)
    ensures Find(text, "```sql", 0, true).None? ==> r.None?
  {
    match Find(text, "```sql", 0, true)
    case None => None
    case Some(i) =>
      var j := SkipSpaces(text, i + 6);
      match Find(text, "```", j, false)
      case None => None
      case Some(p) => Some(Strip(text[j..p]))
  }

  /** Skipping leading whitespace does not change what stripping gives. */
  lemma {:induction false} StripAfterSpaces(s: string, k: nat)
    requires k <= |s| && forall i :: 0 <= i < k ==> IsSpace(s[i])
    ensures Strip(s[k..]) == Strip(s)
    decreases k
  {
    if k > 0 {
      assert s[1..][k - 1..] == s[k..];
      StripAfterSpaces(s[1..], k - 1);
    }
  }

  /** A reply made of a fenced SQL block gives back the statement: what the model is asked to
      write is what is executed. */
  lemma ExtractFencedSql(body: string, post: string)
    requires '`' !in body
    ensures ExtractSql("```sql\n" + body + "```" + post) == Some(Strip(body))
  {
    var text := "```sql\n" + body + "```" + post;
    FenceLayout(body, post);
    OpeningFence(text);
    var j := SkipSpaces(text, 6);
    ClosingFence(text, body, j);
    FencedBody(text, body, j);
  }

  /** Where the parts of a fenced reply sit. */
  lemma FenceLayout(body: string, post: string)
    ensures var text := "```sql\n" + body + "```" + post;
            && |text| == 10 + |body| + |post|
            && text[..6] == "```sql" && text[6] == '\n'
            && text[7..7 + |body|] == body
            && text[7 + |body|..10 + |body|] == "```"
  {
  }

  /** The reply opens with the tag, so the search for it stops at once. */
  lemma OpeningFence(text: string)
    requires |text| >= 6 && text[..6] == "```sql"
    ensures Find(text, "```sql", 0, true) == Some(0)
  {
    assert text[0..6] == text[..6];
    FindAt(text, "```sql", 0, true, 0);
  }

  /** A body without backticks runs up to the closing fence. */
  lemma ClosingFence(text: string, body: string, j: nat)
    requires '`' !in body && |text| >= 10 + |body| && text[6] == '\n'
    requires text[7..7 + |body|] == body && text[7 + |body|..10 + |body|] == "```"
    requires j == SkipSpaces(text, 6)
    ensures 7 <= j <= 7 + |body|
    ensures Find(text, "```", j, false) == Some(7 + |body|)
  {
    var p := 7 + |body|;
    assert text[p] == '`';
    forall q | j <= q < p
      ensures !MatchesAt(text, q, "```", false)
    {
      assert text[q] == body[q - 7];
      assert text[q..q + 3][0] == text[q];
    }
    FindAt(text, "```", j, false, p);
  }

  /** The text between the skipped whitespace and the closing fence strips to the stripped body. */
  lemma FencedBody(text: string, body: string, j: nat)
    requires |text| >= 7 + |body| && text[7..7 + |body|] == body
    requires 7 <= j <= 7 + |body| && forall k :: 6 <= k < j ==> IsSpace(text[k])
    ensures Strip(text[j..7 + |body|]) == Strip(body)
  {
    assert text[j..7 + |body|] == body[j - 7..];
    forall i | 0 <= i < j - 7
      ensures IsSpace(body[i])
    {
      assert body[i] == text[i + 7];
    }
    StripAfterSpaces(body, j - 7);
  }

  /** `re.search(r'\b' + re.escape(table) + r'\b', sql, re.IGNORECASE)` for a SQL source. */
  predicate Mentions(sql: string, s: SourceConfig)
  {
    ContainsWord(sql, s.TableName())
  }

  /** The position of the first source whose table the SQL mentions. */
  function FirstMentioned(sources: seq<SourceConfig>, sql: string): (r: Option<nat>)
    ensures r.Some? ==> r.value < |sources| && Mentions(sql, sources[r.value])
    ensures r.Some? ==> forall i :: 0 <= i < r.value ==> !Mentions(sql, sources[i])
    ensures r.None? ==> forall i :: 0 <= i < |sources| ==> !Mentions(sql, sources[i])
  {
    if sources == [] then None
    else if Mentions(sql, sources[0]) then Some(0)
    else
      match FirstMentioned(sources[1..], sql)
      case None => None
      case Some(k) => Some(k + 1)
  }

  /** What `_find_sql_source` returns: the first mentioned SQL source, else the first SQL source. */
  function SqlSourceFor(sources: seq<SourceConfig>, sql: string): Option<SourceConfig>
  {
    var ss := SqlSources(sources);
    match FirstMentioned(ss, sql)
    case Some(i) => Some(ss[i])
    case None => if ss == [] then None else Some(ss[0])
  }

  /** `_find_sql_source`: there is an answer exactly when some source has `mode: sql`; it is
      always one of them; a mentioned table wins, earliest first. */
  lemma SqlSourceForSpec(sources: seq<SourceConfig>, sql: string)
    ensures SqlSourceFor(sources, sql).Some? <==> SqlSources(sources) != []
    ensures SqlSourceFor(sources, sql).Some? ==>
              SqlSourceFor(sources, sql).value in sources && SqlSourceFor(sources, sql).value.IsSqlMode()
    ensures (exists s :: s in SqlSources(sources) && Mentions(sql, s)) ==> Mentions(sql, SqlSourceFor(sources, sql).value)
  {
    var ss := SqlSources(sources);
    SqlSourcesMembers(sources);
    if exists s :: s in ss && Mentions(sql, s) {
      var s :| s in ss && Mentions(sql, s);
      var k :| 0 <= k < |ss| && ss[k] == s;
    }
    if ss != [] {
      assert ss[0] in ss;
    }
  }

  /** The loop of `_find_sql_source`. */
  method FindSqlSource(sources: seq<SourceConfig>, sql: string) returns (r: Option<SourceConfig>)
    ensures r == SqlSourceFor(sources, sql)
  {
    var sqlSources := SqlSources(sources);
    var i := 0;
    while i < |sqlSources|
      invariant 0 <= i <= |sqlSources|
      invariant forall k :: 0 <= k < i ==> !Mentions(sql, sqlSources[k])
    {
      if ContainsWord(sql, sqlSources[i].TableName()) {
        assert FirstMentioned(sqlSources, sql) == Some(i);
        return Some(sqlSources[i]);
      }
      i := i + 1;
    }
    assert FirstMentioned(sqlSources, sql).None?;
    if sqlSources == [] {
      return None;
    }
    r := Some(sqlSources[0]);
  }

  // ---------------------------------------------------------------- streamed replies

  /** One line of a streamed reply: empty, or a record with its `response` text (missing
      means "") and its `done` flag (missing means false). */
  datatype StreamLine = EmptyLine | Record(response: string, done: bool)

  /** The tokens a streamed reply yields: non-empty responses, up to the first record marked done. */
  function StreamTokens(lines: seq<StreamLine>): (r: seq<string>)
    ensures forall k :: 0 <= k < |r| ==> r[k] != ""
  {
    if lines == [] then []
    else match lines[0]
      case EmptyLine => StreamTokens(lines[1..])
      case Record(token, done) =>
        (if token != "" then [token] else []) + (if done then [] else StreamTokens(lines[1..]))
  }

  /** Nothing after the first record marked done is read. */
  lemma {:induction false} StreamStopsAtDone(lines: seq<StreamLine>, k: nat, more: seq<StreamLine>)
    requires k < |lines| && lines[k].Record? && lines[k].done
    ensures StreamTokens(lines[..k + 1] + more) == StreamTokens(lines[..k + 1])
    ensures StreamTokens(lines) == StreamTokens(lines[..k + 1])
  {
    if k > 0 {
      StreamStopsAtDone(lines[1..], k - 1, more);
      assert (lines[..k + 1] + more)[1..] == lines[1..][..k] + more;
      assert lines[..k + 1][1..] == lines[1..][..k];
    } else {
      assert (lines[..1] + more)[0] == lines[0];
    }
  }

  /** Every token is the response text of some record. */
  lemma {:induction false} StreamTokensFromRecords(lines: seq<StreamLine>)
    ensures forall t :: t in StreamTokens(lines) ==> Record(t, false) in lines || Record(t, true) in lines
  {
    if lines != [] {
      StreamTokensFromRecords(lines[1..]);
      forall t | t in StreamTokens(lines)
        ensures Record(t, false) in lines || Record(t, true) in lines
      {
        if t in StreamTokens(lines[1..]) {
          InTail(lines, Record(t, false));
          InTail(lines, Record(t, true));
        } else {
          assert lines[0] == Record(t, lines[0].done);
        }
      }
    }
  }

  lemma InTail<T>(xs: seq<T>, x: T)
    requires xs != []
    ensures x in xs[1..] ==> x in xs
  {
    if x in xs[1..] {
      var i :| 0 <= i < |xs| - 1 && xs[1..][i] == x;
      assert xs[i + 1] == x;
    }
  }

  /** The loop over `iter_lines()`: skip empty lines, yield non-empty tokens, stop after done. */
  method DecodeStream(lines: seq<StreamLine>) returns (tokens: seq<string>)
    ensures tokens == StreamTokens(lines)
  {
    tokens := [];
    var i := 0;
    while i < |lines|
      invariant 0 <= i <= |lines|
      invariant DecodedSoFar(tokens, lines, i)
    {
      var line := lines[i];
      DecodeStep(tokens, lines, i);
      if line.EmptyLine? {
        i := i + 1;
        continue;
      }
      var yielded := if line.response != "" then [line.response] else [];
      tokens := tokens + yielded;
      if line.done {
        return;
      }
      i := i + 1;
    }
    DecodedAll(tokens, lines);
  }

  /** The tokens read so far, followed by those of the lines left, are the tokens of the
      whole stream. */
  predicate DecodedSoFar(tokens: seq<string>, lines: seq<StreamLine>, i: nat)
    requires i <= |lines|
  {
    tokens + StreamTokens(lines[i..]) == StreamTokens(lines)
  }

  /** With no line left, the tokens read are all of them. */
  lemma DecodedAll(tokens: seq<string>, lines: seq<StreamLine>)
    requires DecodedSoFar(tokens, lines, |lines|)
    ensures tokens == StreamTokens(lines)
  {
    assert lines[|lines|..] == [];
  }

  /** One line of the decoding loop keeps the invariant, and a line marked done completes
      the tokens. */
  lemma DecodeStep(tokens: seq<string>, lines: seq<StreamLine>, i: nat)
    requires i < |lines| && DecodedSoFar(tokens, lines, i)
    ensures lines[i].EmptyLine? ==> DecodedSoFar(tokens, lines, i + 1)
    ensures lines[i].Record? ==>
              var next := tokens + (if lines[i].response != "" then [lines[i].response] else []);
              if lines[i].done then next == StreamTokens(lines) else DecodedSoFar(next, lines, i + 1)
  {
    StreamTokensAt(lines, i);
    if lines[i].Record? {
      var head := if lines[i].response != "" then [lines[i].response] else [];
      var rest := if lines[i].done then [] else StreamTokens(lines[i + 1..]);
      ConcatAssoc(tokens, head, rest);
    }
  }

  /** The tokens from line i on: that line's own, then, unless it is done, the following ones. */
  lemma StreamTokensAt(lines: seq<StreamLine>, i: nat)
    requires i < |lines|
    ensures lines[i].EmptyLine? ==> StreamTokens(lines[i..]) == StreamTokens(lines[i + 1..])
    ensures lines[i].Record? ==>
              StreamTokens(lines[i..]) ==
                (if lines[i].response != "" then [lines[i].response] else [])
                + (if lines[i].done then [] else StreamTokens(lines[i + 1..]))
  {
    assert lines[i..][1..] == lines[i + 1..];
  }

  lemma ConcatAssoc<T>(a: seq<T>, b: seq<T>, c: seq<T>)
    ensures a + (b + c) == (a + b) + c
  {
  }

  // ---------------------------------------------------------------- the answer paths

  /** What an answer path does and yields, in order. */
  datatype Event =
    | Status(name: Step)         // the status callback is called
    | Generate(stream: bool)     // a generation request is sent
    | Confirm(sql: string)       // the ("__SQL_CONFIRM__", sql) item is yielded
    | Executed(sql: string)      // execute_query is called
    | AuditWritten(text: string) // the audit file is written
    | Token(text: string)        // a streamed token is yielded
    | Message(text: string)      // a final text is yielded
    | Raised(error: string)      // an exception leaves the generator

  /** The status callback's argument. */
  datatype Step = Thinking | Executing | Interpreting | Searching | Answering
  {
    function Name(): string
    {
      match this
      case Thinking => "thinking"
      case Executing => "executing"
      case Interpreting => "interpreting"
      case Searching => "searching"
      case Answering => "answering"
    }
  }

  /** A non-streamed reply of the model. */
  datatype GenReply = GenReply(status: int, response: string, body: string)

  /** A streamed reply of the model. */
  datatype StreamReply = StreamReply(status: int, lines: seq<StreamLine>, body: string)

  const NoResults: string := "No encontré información relevante para responder."

  function OllamaError(body: string): string { "Error de Ollama: " + body }

  function NoSqlMessage(response: string): string
  {
    "No se pudo generar SQL.\n\nRespuesta del modelo:\n" + response
  }

  function ExecutionError(error: string, sql: string): string
  {
    "Error ejecutando SQL: " + error + "\n\nSQL generado:\n" + sql
  }

  /** The step of either path at which an event may happen. */
  function Phase(e: Event): nat
  {
    match e
    case Status(s) => (match s
      case Thinking => 0
      case Searching => 0
      case Executing => 3
      case Interpreting => 6
      case Answering => 6)
    case Generate(stream) => if stream then 7 else 1
    case Confirm(_) => 2
    case Executed(_) => 4
    case AuditWritten(_) => 5
    case Token(_) => 8
    case Message(_) => 9
    case Raised(_) => 9
  }

  predicate Final(e: Event) { e.Message? || e.Raised? }

  /** The events keep the path's order, none comes before step `lo`, and a final text or an
      exception ends the path. */
  predicate WellOrdered(ev: seq<Event>, lo: nat)
  {
    && (forall i :: 0 <= i < |ev| ==> lo <= Phase(ev[i]))
    && (forall i, j :: 0 <= i < j < |ev| ==> Phase(ev[i]) <= Phase(ev[j]))
    && (forall i :: 0 <= i < |ev| - 1 ==> !Final(ev[i]))
  }

  lemma Prepend(e: Event, ev: seq<Event>, lo: nat)
    requires WellOrdered(ev, lo) && Phase(e) <= lo && !Final(e)
    ensures WellOrdered([e] + ev, Phase(e))
  {
    var r := [e] + ev;
    forall i | 1 <= i < |r|
      ensures r[i] == ev[i - 1]
    {
    }
  }

  /** The status event, when a callback is given. */
  function StatusIf(callback: bool, name: Step): (r: seq<Event>)
    ensures |r| <= 1 && forall e :: e in r ==> e == Status(name)
    ensures callback <==> Status(name) in r
  {
    if callback then [Status(name)] else []
  }

  lemma PrependStatus(callback: bool, name: Step, ev: seq<Event>, lo: nat)
    requires WellOrdered(ev, lo) && Phase(Status(name)) <= lo
    ensures WellOrdered(StatusIf(callback, name) + ev, if callback then Phase(Status(name)) else lo)
  {
    if callback {
      Prepend(Status(name), ev, lo);
    } else {
      assert StatusIf(callback, name) + ev == ev;
    }
  }

  /** The tokens of a streamed reply as events. */
  function TokenEvents(tokens: seq<string>): (r: seq<Event>)
    ensures |r| == |tokens| && forall i :: 0 <= i < |r| ==> r[i] == Token(tokens[i])
  {
    seq(|tokens|, i requires 0 <= i < |tokens| => Token(tokens[i]))
  }

  /** The answer stream: an error text on a non-200 reply, else the decoded tokens. */
  function Streamed(reply: StreamReply): seq<Event>
  {
    if reply.status != 200 then [Message(OllamaError(reply.body))] else TokenEvents(StreamTokens(reply.lines))
  }

  lemma StreamedOrdered(reply: StreamReply)
    ensures WellOrdered(Streamed(reply), 8)
    ensures forall e :: e in Streamed(reply) ==> e.Token? || e.Message?
  {
    var ev := Streamed(reply);
    forall e | e in ev
      ensures e.Token? || e.Message?
    {
      var i :| 0 <= i < |ev| && ev[i] == e;
    }
  }

  // The SQL path, stage by stage from its end. Each stage takes what the earlier steps
  // computed, so that its lemma does not look into how it was computed.

  /** Facts about events follow from their steps. */
  lemma AtLeast(ev: seq<Event>, lo: nat)
    requires WellOrdered(ev, lo)
    ensures forall e :: e in ev ==> lo <= Phase(e)
  {
  }

  /** After the audit file: the interpreting status, the streamed interpretation. */
  function Interpretation(callback: bool, reply: StreamReply): seq<Event>
  {
    StatusIf(callback, Interpreting) + ([Generate(true)] + Streamed(reply))
  }

  lemma InterpretationOrdered(callback: bool, reply: StreamReply)
    ensures WellOrdered(Interpretation(callback, reply), 6)
    ensures forall e :: e in Interpretation(callback, reply) ==> 6 <= Phase(e)
  {
    StreamedOrdered(reply);
    Prepend(Generate(true), Streamed(reply), 8);
    PrependStatus(callback, Interpreting, [Generate(true)] + Streamed(reply), 7);
    AtLeast(Interpretation(callback, reply), 6);
  }

  /** What the audit file holds: the question, the SQL, the row count and the rendered rows. */
  function AuditText(query: string, sql: string, rows: nat, resultText: string): string
  {
    "Pregunta: " + query + "\n\n" + "SQL:\n" + sql + "\n\n" + "Resultados (" + NatToString(rows) + " filas):\n"
    + resultText + "\n"
  }

  /** `df.to_string(index=False)` unless the frame is empty. */
  function ResultText(df: Frame, render: Frame -> string): string
  {
    if !FrameEmpty(df) then render(df) else "(sin resultados)"
  }

  /** After `execute_query`: its error ends the path; otherwise the audit file, then the
      interpretation. */
  function AfterExecution(query: string, sql: string, res: Result<Frame>, render: Frame -> string,
                          callback: bool, reply: StreamReply): seq<Event>
  {
    if res.Failure? then [Message(ExecutionError(res.error, sql))]
    else [AuditWritten(AuditText(query, sql, |res.value.rows|, ResultText(res.value, render)))]
         + Interpretation(callback, reply)
  }

  lemma AfterExecutionSpec(query: string, sql: string, res: Result<Frame>, render: Frame -> string,
                           callback: bool, reply: StreamReply)
    ensures WellOrdered(AfterExecution(query, sql, res, render, callback, reply), 5)
    ensures forall e :: e in AfterExecution(query, sql, res, render, callback, reply) ==> !e.Executed? && !e.Confirm?
    ensures forall t :: AuditWritten(t) in AfterExecution(query, sql, res, render, callback, reply) ==>
              res.Success? && t == AuditText(query, sql, |res.value.rows|, ResultText(res.value, render))
  {
    if res.Success? {
      InterpretationOrdered(callback, reply);
      Prepend(AuditWritten(AuditText(query, sql, |res.value.rows|, ResultText(res.value, render))),
              Interpretation(callback, reply), 6);
    }
  }

  /** The source chosen for the statement and what `execute_query` gave on it. */
  datatype Choice = Choice(source: SourceConfig, result: Result<Frame>)

  /** The decisions `_sql_path` takes in turn: the first reply, the statement extracted from
      it, and, when there is one, the source chosen for it with the execution's result. */
  datatype SqlSteps = SqlSteps(reply: GenReply, stmt: Option<string>, chosen: Option<Choice>)

  /** The statement the path goes on with: a non-empty extraction from a 200 reply. */
  function Statement(reply: GenReply): (r: Option<string>)
    ensures r.Some? <==> reply.status == 200 && ExtractSql(reply.response).Some? && ExtractSql(reply.response).value != ""
    ensures r.Some? ==> ExtractSql(reply.response) == r
  {
    if reply.status != 200 then None
    else match ExtractSql(reply.response)
      case None => None
      case Some(sql) => if sql == "" then None else Some(sql)
  }

  /** The source `_find_sql_source` chooses and the result of running the statement there
      with `execute_query`'s defaults (at most 50 rows). */
  function ChoiceFor(sources: seq<SourceConfig>, sql: string, run: QueryOracle): (r: Option<Choice>)
    ensures r.Some? <==> SqlSources(sources) != []
    ensures r.Some? ==> r.value.source in sources && r.value.source.IsSqlMode()
    ensures r.Some? ==> r.value.result == ExecuteQuery(r.value.source.kind, sql, 50, run).result
  {
    SqlSourceForSpec(sources, sql);
    match SqlSourceFor(sources, sql)
    case None => None
    case Some(src) => Some(Choice(src, ExecuteQuery(src.kind, sql, 50, run).result))
  }

  /** The decisions taken on a given first reply, configuration and database. */
  function Steps(reply1: GenReply, sources: seq<SourceConfig>, run: QueryOracle): SqlSteps
  {
    var stmt := Statement(reply1);
    SqlSteps(reply1, stmt, if stmt.Some? then ChoiceFor(sources, stmt.value, run) else None)
  }

  const NoSourceMessage: string := "No se encontró una fuente SQL configurada."

  /** After the choice of source: none ends the path; otherwise execute and go on. */
  function AfterChoice(query: string, sql: string, chosen: Option<Choice>, callback: bool,
                       render: Frame -> string, reply: StreamReply): seq<Event>
  {
    match chosen
    case None => [Message(NoSourceMessage)]
    case Some(c) => [Executed(sql)] + AfterExecution(query, sql, c.result, render, callback, reply)
  }

  lemma AfterChoiceSpec(query: string, sql: string, chosen: Option<Choice>, callback: bool,
                        render: Frame -> string, reply: StreamReply)
    ensures WellOrdered(AfterChoice(query, sql, chosen, callback, render, reply), 4)
    ensures forall s :: Executed(s) in AfterChoice(query, sql, chosen, callback, render, reply) ==>
              s == sql && chosen.Some?
    ensures chosen.Some? && chosen.value.result.Failure? ==>
              AfterChoice(query, sql, chosen, callback, render, reply)
              == [Executed(sql), Message(ExecutionError(chosen.value.result.error, sql))]
    ensures forall t :: AuditWritten(t) in AfterChoice(query, sql, chosen, callback, render, reply) ==>
              && chosen.Some? && chosen.value.result.Success?
              && t == AuditText(query, sql, |chosen.value.result.value.rows|, ResultText(chosen.value.result.value, render))
  {
    if chosen.Some? {
      var res := chosen.value.result;
      AfterExecutionSpec(query, sql, res, render, callback, reply);
      Prepend(Executed(sql), AfterExecution(query, sql, res, render, callback, reply), 5);
    }
  }

  /** After the first reply: a missing statement shows the raw reply; otherwise it is yielded
      for confirmation, then the executing status and the rest. */
  function AfterStatement(query: string, st: SqlSteps, callback: bool, render: Frame -> string,
                          reply: StreamReply): seq<Event>
  {
    match st.stmt
    case None => [Message(NoSqlMessage(st.reply.response))]
    case Some(sql) =>
      [Confirm(sql)] + (StatusIf(callback, Executing) + AfterChoice(query, sql, st.chosen, callback, render, reply))
  }

  lemma AfterStatementOrdered(query: string, st: SqlSteps, callback: bool, render: Frame -> string,
                              reply: StreamReply)
    ensures WellOrdered(AfterStatement(query, st, callback, render, reply), 2)
    ensures forall s :: Confirm(s) in AfterStatement(query, st, callback, render, reply) <==> st.stmt == Some(s)
  {
    if st.stmt.Some? {
      var sql := st.stmt.value;
      var rest := AfterChoice(query, sql, st.chosen, callback, render, reply);
      AfterChoiceSpec(query, sql, st.chosen, callback, render, reply);
      PrependStatus(callback, Executing, rest, 4);
      Prepend(Confirm(sql), StatusIf(callback, Executing) + rest, 3);
      AtLeast(StatusIf(callback, Executing) + rest, 3);
    }
  }

  lemma AfterStatementEffects(query: string, st: SqlSteps, callback: bool, render: Frame -> string,
                              reply: StreamReply)
    ensures forall s :: Executed(s) in AfterStatement(query, st, callback, render, reply) ==>
              st.stmt == Some(s) && st.chosen.Some?
    ensures st.stmt.Some? && st.chosen.Some? && st.chosen.value.result.Failure? ==>
              AfterStatement(query, st, callback, render, reply)
              == [Confirm(st.stmt.value)] + (StatusIf(callback, Executing)
                 + [Executed(st.stmt.value), Message(ExecutionError(st.chosen.value.result.error, st.stmt.value))])
    ensures forall t :: AuditWritten(t) in AfterStatement(query, st, callback, render, reply) ==>
              && st.stmt.Some? && st.chosen.Some? && st.chosen.value.result.Success?
              && t == AuditText(query, st.stmt.value, |st.chosen.value.result.value.rows|,
                                ResultText(st.chosen.value.result.value, render))
  {
    if st.stmt.Some? {
      AfterChoiceSpec(query, st.stmt.value, st.chosen, callback, render, reply);
    }
  }

  /** `_sql_path`, as the events it produces for the given decisions and second reply. */
  function SqlEvents(query: string, callback: bool, st: SqlSteps, render: Frame -> string,
                     reply2: StreamReply): seq<Event>
  {
    StatusIf(callback, Thinking)
    + ([Generate(false)]
       + if st.reply.status != 200 then [Message(OllamaError(st.reply.body))]
         else AfterStatement(query, st, callback, render, reply2))
  }

  function Last(ev: seq<Event>): Event
    requires ev != []
  {
    ev[|ev| - 1]
  }

  /** The SQL path keeps its order (thinking, first request, confirmation, executing,
      execution, audit file, interpreting, second request, tokens) and an error text ends it.
      The confirmation item carries the extracted statement and appears exactly when there is
      one (for the decisions `Steps` takes, a non-empty SQL block in a 200 reply). */
  lemma SqlEventsOrdered(query: string, callback: bool, st: SqlSteps, render: Frame -> string,
                         reply2: StreamReply)
    requires st.reply.status != 200 ==> st.stmt.None?
    ensures WellOrdered(SqlEvents(query, callback, st, render, reply2), 0)
    ensures forall s :: Confirm(s) in SqlEvents(query, callback, st, render, reply2) <==> st.stmt == Some(s)
  {
    var rest := if st.reply.status != 200 then [Message(OllamaError(st.reply.body))]
      else AfterStatement(query, st, callback, render, reply2);
    AfterStatementOrdered(query, st, callback, render, reply2);
    Prepend(Generate(false), rest, 2);
    PrependStatus(callback, Thinking, [Generate(false)] + rest, 1);
  }

  /** A failing first request ends the path with the endpoint's text; a reply without a
      statement ends it with the raw reply. */
  lemma SqlEventsEarlyEnd(query: string, callback: bool, st: SqlSteps, render: Frame -> string,
                          reply2: StreamReply)
    ensures st.reply.status != 200 ==>
              Last(SqlEvents(query, callback, st, render, reply2)) == Message(OllamaError(st.reply.body))
    ensures st.reply.status == 200 && st.stmt.None? ==>
              Last(SqlEvents(query, callback, st, render, reply2)) == Message(NoSqlMessage(st.reply.response))
  {
  }

  /** The events after the first request: the endpoint's error, or the rest of the path. */
  lemma SqlEventsSplit(query: string, callback: bool, st: SqlSteps, render: Frame -> string,
                       reply2: StreamReply)
    ensures SqlEvents(query, callback, st, render, reply2) ==
              StatusIf(callback, Thinking) + [Generate(false)]
              + (if st.reply.status != 200 then [Message(OllamaError(st.reply.body))]
                 else AfterStatement(query, st, callback, render, reply2))
  {
  }

  /** Only the confirmed statement is executed, on the source chosen for it. */
  lemma SqlEventsExecuted(query: string, callback: bool, st: SqlSteps, render: Frame -> string,
                          reply2: StreamReply)
    ensures forall s :: Executed(s) in SqlEvents(query, callback, st, render, reply2) ==>
              st.stmt == Some(s) && st.chosen.Some? && Confirm(s) in SqlEvents(query, callback, st, render, reply2)
  {
    SqlEventsSplit(query, callback, st, render, reply2);
    AfterStatementEffects(query, st, callback, render, reply2);
    AfterStatementOrdered(query, st, callback, render, reply2);
  }

  /** A failing execution ends the path with its error and the statement, and writes no
      audit file. */
  lemma SqlEventsExecutionFails(query: string, callback: bool, st: SqlSteps, render: Frame -> string,
                                reply2: StreamReply)
    requires st.reply.status == 200 && st.stmt.Some? && st.chosen.Some? && st.chosen.value.result.Failure?
    ensures Last(SqlEvents(query, callback, st, render, reply2))
              == Message(ExecutionError(st.chosen.value.result.error, st.stmt.value))
    ensures forall e :: e in SqlEvents(query, callback, st, render, reply2) ==> !e.AuditWritten?
  {
    SqlEventsSplit(query, callback, st, render, reply2);
    AfterStatementEffects(query, st, callback, render, reply2);
  }

  /** An audit file follows only a successful execution and records the question, the
      statement, the row count and the rendered rows. */
  lemma SqlEventsAudit(query: string, callback: bool, st: SqlSteps, render: Frame -> string,
                       reply2: StreamReply)
    ensures forall t :: AuditWritten(t) in SqlEvents(query, callback, st, render, reply2) ==>
              && st.stmt.Some? && st.chosen.Some? && st.chosen.value.result.Success?
              && t == AuditText(query, st.stmt.value, |st.chosen.value.result.value.rows|,
                                ResultText(st.chosen.value.result.value, render))
  {
    SqlEventsSplit(query, callback, st, render, reply2);
    AfterStatementEffects(query, st, callback, render, reply2);
  }

  /** The steps `Steps` takes meet `SqlEventsOrdered`'s requirement, and a source is chosen only
      for an extracted statement, among the `mode: sql` sources. */
  lemma StepsSpec(reply1: GenReply, sources: seq<SourceConfig>, run: QueryOracle)
    ensures Steps(reply1, sources, run).reply == reply1
    ensures reply1.status != 200 ==> Steps(reply1, sources, run).stmt.None?
    ensures Steps(reply1, sources, run).stmt == Statement(reply1)
    ensures Steps(reply1, sources, run).chosen.Some? ==>
              && Statement(reply1).Some? && SqlSources(sources) != []
              && Steps(reply1, sources, run).chosen.value.source.IsSqlMode()
  {
  }

  /** Nothing before the confirmation item has executed SQL, written the audit file or asked
      for the interpretation: a consumer that stops there has run nothing. */
  lemma NothingBeforeConfirm(ev: seq<Event>, k: nat)
    requires WellOrdered(ev, 0) && k < |ev| && ev[k].Confirm?
    ensures forall i :: 0 <= i <= k ==> !ev[i].Executed? && !ev[i].AuditWritten? && ev[i] != Generate(true)
  {
  }

  /** Without a callback no status is reported on either path. */
  predicate NoStatus(ev: seq<Event>)
  {
    forall e :: e in ev ==> !e.Status?
  }

  lemma InterpretationNoStatus(reply: StreamReply)
    ensures NoStatus(Interpretation(false, reply))
  {
    StreamedOrdered(reply);
    assert Interpretation(false, reply) == [Generate(true)] + Streamed(reply);
  }

  lemma NoStatusConcat(a: seq<Event>, b: seq<Event>)
    requires NoStatus(a) && NoStatus(b)
    ensures NoStatus(a + b)
  {
  }

  lemma AfterChoiceNoStatus(query: string, sql: string, chosen: Option<Choice>, render: Frame -> string,
                            reply: StreamReply)
    ensures NoStatus(AfterChoice(query, sql, chosen, false, render, reply))
  {
    if chosen.Some? && chosen.value.result.Success? {
      InterpretationNoStatus(reply);
      var res := chosen.value.result;
      var audit := [AuditWritten(AuditText(query, sql, |res.value.rows|, ResultText(res.value, render)))];
      NoStatusConcat(audit, Interpretation(false, reply));
      NoStatusConcat([Executed(sql)], audit + Interpretation(false, reply));
    }
  }

  lemma AfterStatementNoStatus(query: string, st: SqlSteps, render: Frame -> string, reply: StreamReply)
    ensures NoStatus(AfterStatement(query, st, false, render, reply))
  {
    if st.stmt.Some? {
      var sql := st.stmt.value;
      AfterChoiceNoStatus(query, sql, st.chosen, render, reply);
      assert StatusIf(false, Executing) == [];
    }
  }

  lemma SqlEventsNoCallback(query: string, st: SqlSteps, render: Frame -> string, reply2: StreamReply)
    ensures NoStatus(SqlEvents(query, false, st, render, reply2))
    ensures SqlEvents(query, false, st, render, reply2)[0] == Generate(false)
  {
    AfterStatementNoStatus(query, st, render, reply2);
    assert StatusIf(false, Thinking) == [];
  }

  /** The loop of `_sql_path` as a generator run to its end. */
  method SqlPath(query: string, sources: seq<SourceConfig>, callback: bool, reply1: GenReply,
                 run: QueryOracle, render: Frame -> string, reply2: StreamReply)
    returns (events: seq<Event>)
    ensures events == SqlEvents(query, callback, Steps(reply1, sources, run), render, reply2)
  {
    ghost var st := Steps(reply1, sources, run);
    assert st.reply == reply1;
    var started := StatusIf(callback, Thinking);
    if reply1.status != 200 {
      return started + ([Generate(false)] + [Message(OllamaError(reply1.body))]);
    }
    var sql := ExtractSql(reply1.response);
    if sql.None? || sql.value == "" {
      assert st.stmt.None?;
      return started + ([Generate(false)] + [Message(NoSqlMessage(reply1.response))]);
    }
    var stmt := sql.value;
    assert st.stmt == Some(stmt);
    assert st.chosen == ChoiceFor(sources, stmt, run);
    var tail := SqlTail(query, stmt, sources, callback, run, render, reply2);
    assert AfterStatement(query, st, callback, render, reply2) == [Confirm(stmt)] + tail;
    events := started + ([Generate(false)] + ([Confirm(stmt)] + tail));
  }

  /** The rest of `_sql_path` once the statement is confirmed. */
  method SqlTail(query: string, stmt: string, sources: seq<SourceConfig>, callback: bool,
                 run: QueryOracle, render: Frame -> string, reply2: StreamReply)
    returns (events: seq<Event>)
    ensures events == StatusIf(callback, Executing) + AfterChoice(query, stmt, ChoiceFor(sources, stmt, run), callback, render, reply2)
  {
    var source := FindSqlSource(sources, stmt);
    if source.None? {
      events := StatusIf(callback, Executing) + [Message(NoSourceMessage)];
      return;
    }
    var res := ExecuteQuery(source.value.kind, stmt, 50, run).result;
    ghost var chosen := Choice(source.value, res);
    assert ChoiceFor(sources, stmt, run) == Some(chosen);
    var rest := Interpret(query, stmt, res, callback, render, reply2);
    events := StatusIf(callback, Executing) + ([Executed(stmt)] + rest);
  }

  /** The end of `_sql_path` once `execute_query` has answered. */
  method Interpret(query: string, stmt: string, res: Result<Frame>, callback: bool,
                   render: Frame -> string, reply2: StreamReply)
    returns (events: seq<Event>)
    ensures events == AfterExecution(query, stmt, res, render, callback, reply2)
  {
    if res.Failure? {
      return [Message(ExecutionError(res.error, stmt))];
    }
    var df := res.value;
    var audit := AuditWritten(AuditText(query, stmt, |df.rows|, ResultText(df, render)));
    var streamed := StreamAnswer(reply2);
    events := [audit] + (StatusIf(callback, Interpreting) + ([Generate(true)] + streamed));
  }

  /** The streamed reply: the error text of a non-200 reply, or one event per token decoded
      from its lines. */
  method StreamAnswer(reply: StreamReply) returns (events: seq<Event>)
    ensures events == Streamed(reply)
  {
    if reply.status != 200 {
      return [Message(OllamaError(reply.body))];
    }
    var tokens := DecodeStream(reply.lines);
    events := TokenEvents(tokens);
  }

  // The retrieval path.

  /** What `search` gives the path: the number of hits, or the embedding failure. */
  function HitCount(query: string, nResults: int, filters: map<string, string>,
                    post: string -> EmbedReply, index: IndexQuery): (r: Result<nat>)
    ensures r.Failure? <==> post(query).status != 200
  {
    match GetEmbedding(post, query)
    case Failure(e) => Failure(e)
    case Success(v) => Success(|index(v, nResults, WhereFilter(filters))|)
  }

  /** `_rag_path` (and `ask_stream`, which has no callback), as the events it produces. */
  function RagEvents(callback: bool, found: Result<nat>, reply: StreamReply): seq<Event>
  {
    StatusIf(callback, Searching)
    + if found.Failure? then [Raised(found.error)]
      else if found.value == 0 then [Message(NoResults)]
      else StatusIf(callback, Answering) + ([Generate(true)] + Streamed(reply))
  }

  /** The retrieval path keeps its order: searching, answering, request, tokens, and an error
      text ends it. */
  lemma RagEventsOrdered(callback: bool, found: Result<nat>, reply: StreamReply)
    ensures WellOrdered(RagEvents(callback, found, reply), 0)
  {
    if found.Success? && found.value > 0 {
      AnswerEventsSpec(callback, reply);
      PrependStatus(callback, Searching, AnswerEvents(callback, reply), if callback then 6 else 7);
    } else {
      var rest := if found.Failure? then [Raised(found.error)] else [Message(NoResults)];
      PrependStatus(callback, Searching, rest, 7);
    }
  }

  /** With no hits the path yields exactly the no-information text and sends no request. */
  lemma RagEventsNoHits(callback: bool, reply: StreamReply)
    ensures Last(RagEvents(callback, Success(0), reply)) == Message(NoResults)
    ensures forall e :: e in RagEvents(callback, Success(0), reply) ==> !e.Generate?
  {
    assert RagEvents(callback, Success(0), reply) == StatusIf(callback, Searching) + [Message(NoResults)];
  }

  /** The answer is requested exactly when the search found something. */
  lemma RagEventsRequests(callback: bool, found: Result<nat>, reply: StreamReply)
    ensures Generate(true) in RagEvents(callback, found, reply) <==> found.Success? && found.value > 0
  {
    if found.Success? && found.value > 0 {
      AnswerEventsSpec(callback, reply);
      assert RagEvents(callback, found, reply) == StatusIf(callback, Searching) + AnswerEvents(callback, reply);
    } else {
      var rest := if found.Failure? then [Raised(found.error)] else [Message(NoResults)];
      assert RagEvents(callback, found, reply) == StatusIf(callback, Searching) + rest;
    }
  }

  /** The answering stage of the retrieval path: its status, the request, the streamed reply. */
  function AnswerEvents(callback: bool, reply: StreamReply): seq<Event>
  {
    StatusIf(callback, Answering) + ([Generate(true)] + Streamed(reply))
  }

  lemma AnswerEventsSpec(callback: bool, reply: StreamReply)
    ensures WellOrdered(AnswerEvents(callback, reply), if callback then 6 else 7)
    ensures Generate(true) in AnswerEvents(callback, reply)
  {
    StreamedOrdered(reply);
    Prepend(Generate(true), Streamed(reply), 8);
    PrependStatus(callback, Answering, [Generate(true)] + Streamed(reply), 7);
  }

  lemma RagEventsNoCallback(found: Result<nat>, reply: StreamReply)
    ensures NoStatus(RagEvents(false, found, reply))
  {
    StreamedOrdered(reply);
    if found.Success? && found.value > 0 {
      assert RagEvents(false, found, reply) == [Generate(true)] + Streamed(reply);
    }
  }

  /** `_rag_path` run to its end. */
  method RagPath(query: string, nResults: int, filters: map<string, string>, post: string -> EmbedReply,
                 index: IndexQuery, callback: bool, reply: StreamReply)
    returns (events: seq<Event>)
    ensures events == RagEvents(callback, HitCount(query, nResults, filters, post, index), reply)
  {
    var results := SearchIndex(query, nResults, filters, post, index);
    var rest;
    if results.Failure? {
      rest := [Raised(results.error)];
    } else if results.value == [] {
      rest := [Message(NoResults)];
    } else {
      var streamed := StreamAnswer(reply);
      rest := StatusIf(callback, Answering) + ([Generate(true)] + streamed);
    }
    events := StatusIf(callback, Searching) + rest;
  }

  /** `chat_stream`: the SQL path when forced, else the retrieval path. */
  method ChatStream(query: string, forceSql: bool, sources: seq<SourceConfig>, nResults: int,
                    filters: map<string, string>, post: string -> EmbedReply, index: IndexQuery,
                    callback: bool, reply1: GenReply, run: QueryOracle, render: Frame -> string,
                    reply2: StreamReply)
    returns (events: seq<Event>)
    ensures forceSql ==> events == SqlEvents(query, callback, Steps(reply1, sources, run), render, reply2)
    ensures !forceSql ==> events == RagEvents(callback, HitCount(query, nResults, filters, post, index), reply2)
  {
    if forceSql {
      events := SqlPath(query, sources, callback, reply1, run, render, reply2);
    } else {
      events := RagPath(query, nResults, filters, post, index, callback, reply2);
    }
  }

  /** What `ask` returns, and whether it sent a generation request. */
  datatype Answer = Answer(result: Result<string>, requested: bool)

  /** `ask`: no hits answers the no-information text without a request; a non-200 reply raises. */
  function Ask(found: Result<nat>, reply: GenReply): (r: Answer)
    ensures found.Success? && found.value == 0 ==> r == Answer(Success(NoResults), false)
    ensures r.requested <==> found.Success? && found.value > 0
    ensures r.requested ==> (r.result.Success? <==> reply.status == 200)
    ensures r.requested && r.result.Success? ==> r.result.value == reply.response
    ensures found.Failure? ==> r.result == Failure(found.error)
  {
    if found.Failure? then Answer(Failure(found.error), false)
    else if found.value == 0 then Answer(Success(NoResults), false)
    else if reply.status != 200 then Answer(Failure(OllamaError(reply.body)), true)
    else Answer(Success(reply.response), true)
  }
}
