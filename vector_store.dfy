/** Indexing a source into a vector collection: one document, one metadata map and one id
    per row; optional catalog and schema documents looked up through the `sql_enrich`
    connection, each lookup made at most once per key; then storage in batches, each batch
    embedded text by text and added in one call. The lookups, the embedding endpoint and
    the collection are parameters or traces (see README). */
module VectorStore {
  import opened Wrappers
  import opened Text
  import opened Values
  import opened Sources
  import opened Embeddings

  // ---------------------------------------------------------------- prepare_document

  /** A vectorize column contributes when its value is truthy, not blank (see
      `StripEmptyIff`) and not "none"/"nan" in any letter case. */
  predicate DocQualifies(v: Value)
  {
    Truthy(v) && !AllSpace(Str(v)) && Lower(Str(v)) != "none" && Lower(Str(v)) != "nan"
  }

  function DocPart(col: string, v: Value): string
  {
    col + ": " + Str(v)
  }

  /** The parts of the qualifying columns, in column order. */
  function DocParts(row: Row, cols: seq<string>): seq<string>
  {
    if cols == [] then []
    else
      var v := Get(row, cols[0]);
      (if DocQualifies(v) then [DocPart(cols[0], v)] else []) + DocParts(row, cols[1..])
  }

  /** `prepare_document`: the parts joined by " | ", or the fallback text. */
  function PrepareDocument(row: Row, cols: seq<string>): string
  {
    var parts := DocParts(row, cols);
    if parts == [] then NoInformation else Join(" | ", parts)
  }

  /** Every qualifying column has its part, and every part is one of a qualifying column. */
  lemma {:induction false} DocPartsExactly(row: Row, cols: seq<string>)
    ensures forall c :: c in cols && DocQualifies(Get(row, c)) ==> DocPart(c, Get(row, c)) in DocParts(row, cols)
    ensures forall p :: p in DocParts(row, cols) ==>
              exists c :: c in cols && DocQualifies(Get(row, c)) && p == DocPart(c, Get(row, c))
  {
    if cols != [] {
      DocPartsExactly(row, cols[1..]);
      var v := Get(row, cols[0]);
      var head := if DocQualifies(v) then [DocPart(cols[0], v)] else [];
      assert DocParts(row, cols) == head + DocParts(row, cols[1..]);
      forall c | c in cols && DocQualifies(Get(row, c))
        ensures DocPart(c, Get(row, c)) in DocParts(row, cols)
      {
        if c != cols[0] {
          assert c in cols[1..];
        }
      }
      forall p | p in DocParts(row, cols)
        ensures exists c :: c in cols && DocQualifies(Get(row, c)) && p == DocPart(c, Get(row, c))
      {
        if p in head {
          assert cols[0] in cols;
        } else {
          assert p in DocParts(row, cols[1..]);
          var c :| c in cols[1..] && DocQualifies(Get(row, c)) && p == DocPart(c, Get(row, c));
          assert c in cols;
        }
      }
    }
  }

  /** The document is never empty, and it is the fallback text exactly when no vectorize
      column qualifies (every real part holds a ':', the fallback none). */
  lemma PrepareDocumentFallback(row: Row, cols: seq<string>)
    ensures PrepareDocument(row, cols) != ""
    ensures PrepareDocument(row, cols) == NoInformation <==> forall c :: c in cols ==> !DocQualifies(Get(row, c))
  {
    DocPartsExactly(row, cols);
    var parts := DocParts(row, cols);
    if parts != [] {
      assert parts[0] in parts;
      var c :| c in cols && DocQualifies(Get(row, c)) && parts[0] == DocPart(c, Get(row, c));
      JoinPrefix(" | ", parts);
      var doc := Join(" | ", parts);
      assert doc[|c|] == parts[0][|c|] == ':';
      assert NoneIn(NoInformation, {':'});
      assert doc != NoInformation;
    }
  }

  // ---------------------------------------------------------------- prepare_metadata

  /** A metadata column is kept when its value is not None and its text is not
      "none"/"nan"/"nat" in any letter case. */
  predicate MetaQualifies(v: Value)
  {
    !v.VNone? && Lower(Str(v)) != "none" && Lower(Str(v)) != "nan" && Lower(Str(v)) != "nat"
  }

  /** int, float and bool are stored as themselves, anything else as its str(). */
  function ToMeta(v: Value): Meta
  {
    match v
    case VBool(b) => MBool(b)
    case VInt(i) => MInt(i)
    case VFloat(r) => MFloat(r)
    case _ => MStr(Str(v))
  }

  /** The text a stored metadata value prints as. */
  function MetaText(m: Meta): string
  {
    match m
    case MStr(s) => s
    case MInt(i) => IntToString(i)
    case MFloat(r) => r
    case MBool(b) => if b then "True" else "False"
  }

  /** The loop of `prepare_metadata` over `cols`, starting from `m`. */
  function AddMetadata(m: map<string, Meta>, row: Row, cols: seq<string>): map<string, Meta>
    decreases |cols|
  {
    if cols == [] then m
    else
      var v := Get(row, cols[0]);
      AddMetadata(if MetaQualifies(v) then m[cols[0] := ToMeta(v)] else m, row, cols[1..])
  }

  /** `prepare_metadata`: the `_source` tag, then each kept column. */
  function PrepareMetadata(row: Row, cols: seq<string>, source: string): map<string, Meta>
  {
    AddMetadata(map["_source" := MStr(source)], row, cols)
  }

  lemma {:induction false} AddMetadataSpec(m: map<string, Meta>, row: Row, cols: seq<string>)
    ensures forall k :: k in AddMetadata(m, row, cols) <==> k in m || (k in cols && MetaQualifies(Get(row, k)))
    ensures forall k :: k in AddMetadata(m, row, cols) ==>
              AddMetadata(m, row, cols)[k] == if k in cols && MetaQualifies(Get(row, k)) then ToMeta(Get(row, k)) else m[k]
    decreases |cols|
  {
    if cols != [] {
      var v := Get(row, cols[0]);
      var m' := if MetaQualifies(v) then m[cols[0] := ToMeta(v)] else m;
      AddMetadataSpec(m', row, cols[1..]);
      assert forall k :: k in cols <==> k == cols[0] || k in cols[1..];
    }
  }

  /** The map holds `_source` (the source name, unless a kept metadata column of that
      name overwrote it) and exactly the kept columns, each as `ToMeta` of its value, and no
      column value reads "none", "nan" or "nat". */
  lemma PrepareMetadataSpec(row: Row, cols: seq<string>, source: string)
    ensures var m := PrepareMetadata(row, cols, source);
      && "_source" in m
      && m["_source"] == (if "_source" in cols && MetaQualifies(Get(row, "_source")) then ToMeta(Get(row, "_source")) else MStr(source))
      && (forall k :: k != "_source" ==> (k in m <==> k in cols && MetaQualifies(Get(row, k))))
      && (forall k :: k in m && k != "_source" ==> m[k] == ToMeta(Get(row, k)))
      && (forall k :: k in m && k != "_source" ==> Lower(MetaText(m[k])) !in ["none", "nan", "nat"])
  {
    var m := PrepareMetadata(row, cols, source);
    AddMetadataSpec(map["_source" := MStr(source)], row, cols);
    forall k | k in m && k != "_source"
      ensures Lower(MetaText(m[k])) !in ["none", "nan", "nat"]
    {
      assert MetaText(ToMeta(Get(row, k))) == Str(Get(row, k));
    }
  }

  // ---------------------------------------------------------------- _split_list

  /** `[x.strip() for x in xs if x.strip()]` */
  function StrippedNonEmpty(xs: seq<string>): (r: seq<string>)
    ensures forall k :: 0 <= k < |r| ==> r[k] != "" && Strip(r[k]) == r[k]
  {
    if xs == [] then []
    else
      var t := Strip(xs[0]);
      StripIdempotent(xs[0]);
      (if t != "" then [t] else []) + StrippedNonEmpty(xs[1..])
  }

  const ListSeparators: set<char> := {';', ','}

  /** `_split_list`: nothing for None, a list's items as text, any other value's text cut at
      ';' and ','; pieces stripped, empty pieces dropped. */
  function SplitList(v: Value): (r: seq<string>)
    ensures forall k :: 0 <= k < |r| ==> r[k] != "" && Strip(r[k]) == r[k]
  {
    match v
    case VNone => []
    case VList(items) => StrippedNonEmpty(seq(|items|, k requires 0 <= k < |items| => Str(items[k])))
    case _ => StrippedNonEmpty(Split(Str(v), ListSeparators))
  }

  lemma {:induction false} StrippedNonEmptyKeeps(xs: seq<string>)
    requires forall k :: 0 <= k < |xs| ==> xs[k] != "" && !IsSpace(xs[k][0]) && !IsSpace(xs[k][|xs[k]| - 1])
    ensures StrippedNonEmpty(xs) == xs
  {
    if xs != [] {
      StripTrimmed(xs[0]);
      StrippedNonEmptyKeeps(xs[1..]);
      assert xs == [xs[0]] + xs[1..];
    }
  }

  lemma {:induction false} StrippedNonEmptyNoneIn(xs: seq<string>, seps: set<char>)
    requires forall k :: 0 <= k < |xs| ==> NoneIn(xs[k], seps)
    ensures forall k :: 0 <= k < |StrippedNonEmpty(xs)| ==> NoneIn(StrippedNonEmpty(xs)[k], seps)
  {
    if xs != [] {
      StripNoneIn(xs[0], seps);
      StrippedNonEmptyNoneIn(xs[1..], seps);
    }
  }

  /** A text value yields pieces free of separators; and names with no separator and no
      surrounding space, written as one comma-separated text, are split back into
      themselves. */
  lemma SplitListRoundTrip(v: Value, names: seq<string>)
    requires forall k :: 0 <= k < |names| ==>
               names[k] != "" && NoneIn(names[k], ListSeparators) && !IsSpace(names[k][0]) && !IsSpace(names[k][|names[k]| - 1])
    ensures !v.VNone? && !v.VList? ==> forall k :: 0 <= k < |SplitList(v)| ==> NoneIn(SplitList(v)[k], ListSeparators)
    ensures names != [] ==> SplitList(VStr(Join([','], names))) == names
  {
    if !v.VNone? && !v.VList? {
      StrippedNonEmptyNoneIn(Split(Str(v), ListSeparators), ListSeparators);
    }
    if names != [] {
      SplitJoin(names, ',', ListSeparators);
      StrippedNonEmptyKeeps(names);
    }
  }

  // ---------------------------------------------------------------- row ids

  /** What follows `<source>_` in a row's id: the `id` column's text, or the row number. */
  function RowKey(frame: Frame, i: nat): string
    requires i < |frame.rows|
  {
    if "id" in frame.columns then Str(Get(frame.rows[i], "id")) else NatToString(i)
  }

  function RowKeys(frame: Frame): seq<string>
  {
    seq(|frame.rows|, i requires 0 <= i < |frame.rows| => RowKey(frame, i))
  }

  /** The ids of the row documents. */
  function RowIds(frame: Frame, source: string): (ids: seq<string>)
    ensures |ids| == |frame.rows|
  {
    seq(|frame.rows|, i requires 0 <= i < |frame.rows| => source + "_" + RowKey(frame, i))
  }

  /** Row ids are distinct exactly when the keys after the prefix are, and always are
      without an `id` column. */
  lemma {:induction false} RowIdsDistinct(frame: Frame, source: string)
    ensures NoDup(RowIds(frame, source)) <==> NoDup(RowKeys(frame))
    ensures "id" !in frame.columns ==> NoDup(RowIds(frame, source))
  {
    NoDupPrefixed(source + "_", RowKeys(frame), RowIds(frame, source));
    if "id" !in frame.columns {
      RowKeysDistinct(frame);
    }
  }

  /** Prefixing every text with the same prefix neither creates nor removes a repetition. */
  lemma NoDupPrefixed(p: string, keys: seq<string>, ids: seq<string>)
    requires |ids| == |keys| && forall i :: 0 <= i < |ids| ==> ids[i] == p + keys[i]
    ensures NoDup(ids) <==> NoDup(keys)
  {
    if NoDup(keys) {
      forall i, j | 0 <= i < j < |ids|
        ensures ids[i] != ids[j]
      {
        PrefixCancel(p, keys[i], keys[j]);
      }
    }
    if NoDup(ids) {
      forall i, j | 0 <= i < j < |keys|
        ensures keys[i] != keys[j]
      {
        assert ids[i] != ids[j];
      }
    }
  }

  /** Two texts with the same prefix are equal exactly when what follows it is. */
  lemma PrefixCancel(p: string, a: string, b: string)
    ensures p + a == p + b <==> a == b
  {
    if p + a == p + b {
      assert a == (p + a)[|p|..];
    }
  }

  /** Row numbers are distinct, and so are their decimal texts. */
  lemma RowKeysDistinct(frame: Frame)
    requires "id" !in frame.columns
    ensures NoDup(RowKeys(frame))
  {
    var keys := RowKeys(frame);
    forall i, j | 0 <= i < j < |keys|
      ensures keys[i] != keys[j]
    {
      assert keys[i] == NatToString(i) && keys[j] == NatToString(j);
      if keys[i] == keys[j] {
        NatToStringInjective(i, j);
      }
    }
  }

  // ---------------------------------------------------------------- enrichment

  /** `row.get("tabla") or row.get("table")` */
  function TableValue(row: Row): Value
  {
    PyOr(Get(row, "tabla"), Get(row, "table"))
  }

  /** The table's name as used in documents, ids and lookups. */
  function RowTable(row: Row): string
  {
    Str(TableValue(row))
  }

  /** The row's dimension list: `dimensiones` or `dimensions`, split. */
  function RowDims(row: Row): seq<string>
  {
    SplitList(PyOr(Get(row, "dimensiones"), Get(row, "dimensions")))
  }

  /** A schema document is considered when the table is truthy and, for a row without
      dimensions (whose table was replaced by its text), that text is not empty. */
  predicate SchemaApplies(row: Row)
  {
    Truthy(TableValue(row)) && (RowDims(row) != [] || RowTable(row) != "")
  }

  /** Catalog documents are considered when there is a table and a dimension. */
  predicate CatalogApplies(row: Row)
  {
    Truthy(TableValue(row)) && RowDims(row) != []
  }

  /** `row.get("id", idx)`, with `idx` the row's position. Python's `idx` is the DataFrame's
      index label, which is the position for the default index the readers produce. */
  function RuleId(row: Row, idx: nat): Value
  {
    if "id" in row then row["id"] else VInt(idx)
  }

  const PassthroughKeys: set<string> := {"cliente", "proyecto", "entidad"}

  /** The passthrough keys that are present and not blank, with their text. */
  function Passthrough(row: Row): map<string, string>
  {
    map k | k in PassthroughKeys && Get(row, k) != VNone && !AllSpace(Str(Get(row, k))) :: Str(Get(row, k))
  }

  /** An extra document: a table's columns, or the distinct values of one of its columns. */
  datatype Extra =
    | SchemaDoc(rule: Value, table: string, columns: seq<string>, passthrough: map<string, string>)
    | CatalogDoc(rule: Value, table: string, dim: string, values: seq<string>, passthrough: map<string, string>)

  function ExtraDocument(e: Extra): string
  {
    match e
    case SchemaDoc(_, t, cols, _) => "Esquema " + t + ": " + Join(", ", cols)
    case CatalogDoc(_, t, d, vals, _) => "Catalogo " + t + "." + d + ": " + Join(", ", vals)
  }

  function ExtraId(source: string, e: Extra): string
  {
    match e
    case SchemaDoc(r, t, _, _) => source + "_" + Str(r) + "_schema_" + t
    case CatalogDoc(r, t, d, _, _) => source + "_" + Str(r) + "_catalog_" + t + "_" + d
  }

  function ExtraMetadata(source: string, e: Extra): map<string, Meta>
  {
    var base := map["_source" := MStr(source), "rule_id" := MStr(Str(e.rule)), "tabla" := MStr(e.table)];
    var typed := if e.SchemaDoc? then base["kind" := MStr("schema")]
                 else base["kind" := MStr("catalog")]["columna" := MStr(e.dim)];
    typed + map k | k in e.passthrough :: MStr(e.passthrough[k])
  }

  /** One lookup made through the enrichment connection. */
  datatype Lookup = SchemaLookup(table: string) | DistinctLookup(table: string, dim: string)

  /** A lookup that fails counts as an empty answer. */
  function OrEmpty(r: Result<seq<string>>): seq<string>
  {
    if r.Success? then r.value else []
  }

  /** The loop's local state: both caches, the (rule, table) pairs already handled, the
      extra documents and the lookups made, in order. */
  datatype EnrichState = EnrichState(
    schemas: map<string, seq<string>>,
    distinct: map<(string, string), seq<string>>,
    schemaAdded: set<(Value, string)>,
    extras: seq<Extra>,
    lookups: seq<Lookup>)

  const EmptyEnrichState := EnrichState(map[], map[], {}, [], [])

  /** The enrichment lookups: a table's columns, and a column's distinct values. */
  type SchemaOracle = string -> Result<seq<string>>
  type DistinctOracle = (string, string) -> Result<seq<string>>

  /** Every extra document holds the non-empty answer of its lookup. */
  ghost predicate Grounded(e: Extra, schemaOf: SchemaOracle, distinctOf: DistinctOracle)
  {
    match e
    case SchemaDoc(_, t, cols, _) => cols == OrEmpty(schemaOf(t)) && cols != []
    case CatalogDoc(_, t, d, vals, _) => vals == OrEmpty(distinctOf(t, d)) && vals != []
  }

  ghost predicate HasSchemaDoc(extras: seq<Extra>, rule: Value, table: string)
  {
    exists k :: 0 <= k < |extras| && extras[k].SchemaDoc? && extras[k].rule == rule && extras[k].table == table
  }

  /** Each key is looked up once, and the caches hold exactly the looked-up keys' answers. */
  ghost predicate CachesMatch(st: EnrichState, schemaOf: SchemaOracle, distinctOf: DistinctOracle)
  {
    && NoDup(st.lookups)
    && (forall t :: t in st.schemas <==> SchemaLookup(t) in st.lookups)
    && (forall t, d :: (t, d) in st.distinct <==> DistinctLookup(t, d) in st.lookups)
    && (forall t :: t in st.schemas ==> st.schemas[t] == OrEmpty(schemaOf(t)))
    && (forall t, d :: (t, d) in st.distinct ==> st.distinct[(t, d)] == OrEmpty(distinctOf(t, d)))
  }

  /** Extra documents hold their lookups' answers; each schema document's (rule, table)
      pair is handled, no two share one, and a handled pair whose table has columns has
      its document. */
  ghost predicate ExtrasMatch(st: EnrichState, schemaOf: SchemaOracle, distinctOf: DistinctOracle)
  {
    && (forall k :: 0 <= k < |st.extras| ==> Grounded(st.extras[k], schemaOf, distinctOf))
    && (forall k :: 0 <= k < |st.extras| && st.extras[k].SchemaDoc? ==>
          (st.extras[k].rule, st.extras[k].table) in st.schemaAdded)
    && (forall r, t :: (r, t) in st.schemaAdded && OrEmpty(schemaOf(t)) != [] ==> HasSchemaDoc(st.extras, r, t))
    && (forall j, k :: 0 <= j < k < |st.extras| && st.extras[j].SchemaDoc? && st.extras[k].SchemaDoc? ==>
          (st.extras[j].rule, st.extras[j].table) != (st.extras[k].rule, st.extras[k].table))
  }

  /** Without `include_schema` no pair is handled and every lookup is a distinct-values one. */
  ghost predicate SchemaOff(st: EnrichState, includeSchema: bool)
  {
    !includeSchema ==> st.schemaAdded == {} && forall k :: 0 <= k < |st.lookups| ==> st.lookups[k].DistinctLookup?
  }

  /** What the enrichment loop keeps true. */
  ghost predicate Coherent(st: EnrichState, includeSchema: bool, schemaOf: SchemaOracle, distinctOf: DistinctOracle)
  {
    CachesMatch(st, schemaOf, distinctOf) && ExtrasMatch(st, schemaOf, distinctOf) && SchemaOff(st, includeSchema)
  }

  /** Caching a table's columns after looking them up. */
  lemma LookupSchema(st: EnrichState, t: string, includeSchema: bool, schemaOf: SchemaOracle, distinctOf: DistinctOracle)
    requires Coherent(st, includeSchema, schemaOf, distinctOf) && includeSchema && t !in st.schemas
    ensures Coherent(st.(schemas := st.schemas[t := OrEmpty(schemaOf(t))], lookups := st.lookups + [SchemaLookup(t)]),
                     includeSchema, schemaOf, distinctOf)
  {
    NoDupSnoc(st.lookups, SchemaLookup(t));
  }

  /** Caching a column's distinct values after looking them up. */
  lemma LookupDistinct(st: EnrichState, t: string, d: string, includeSchema: bool,
                       schemaOf: SchemaOracle, distinctOf: DistinctOracle)
    requires Coherent(st, includeSchema, schemaOf, distinctOf) && (t, d) !in st.distinct
    ensures Coherent(st.(distinct := st.distinct[(t, d) := OrEmpty(distinctOf(t, d))],
                         lookups := st.lookups + [DistinctLookup(t, d)]),
                     includeSchema, schemaOf, distinctOf)
  {
    NoDupSnoc(st.lookups, DistinctLookup(t, d));
  }

  lemma HasSchemaDocGrows(extras: seq<Extra>, e: Extra, r: Value, t: string)
    requires HasSchemaDoc(extras, r, t)
    ensures HasSchemaDoc(extras + [e], r, t)
  {
    var k :| 0 <= k < |extras| && extras[k].SchemaDoc? && extras[k].rule == r && extras[k].table == t;
    assert (extras + [e])[k] == extras[k];
  }

  /** Adding a catalog document with its lookup's answer. */
  lemma AppendCatalog(st: EnrichState, e: Extra, includeSchema: bool, schemaOf: SchemaOracle, distinctOf: DistinctOracle)
    requires Coherent(st, includeSchema, schemaOf, distinctOf) && e.CatalogDoc? && Grounded(e, schemaOf, distinctOf)
    ensures Coherent(st.(extras := st.extras + [e]), includeSchema, schemaOf, distinctOf)
  {
    var extras := st.extras + [e];
    forall r, t | (r, t) in st.schemaAdded && OrEmpty(schemaOf(t)) != []
      ensures HasSchemaDoc(extras, r, t)
    {
      HasSchemaDocGrows(st.extras, e, r, t);
    }
  }

  /** Adding the schema document of a pair not handled yet, and handling it. */
  lemma AppendSchema(st: EnrichState, e: Extra, includeSchema: bool, schemaOf: SchemaOracle, distinctOf: DistinctOracle)
    requires Coherent(st, includeSchema, schemaOf, distinctOf) && includeSchema
    requires e.SchemaDoc? && Grounded(e, schemaOf, distinctOf) && (e.rule, e.table) !in st.schemaAdded
    ensures Coherent(st.(extras := st.extras + [e], schemaAdded := st.schemaAdded + {(e.rule, e.table)}),
                     includeSchema, schemaOf, distinctOf)
  {
    var st' := st.(extras := st.extras + [e], schemaAdded := st.schemaAdded + {(e.rule, e.table)});
    var n := |st.extras|;
    assert st'.extras[n] == e;
    forall r, t | (r, t) in st'.schemaAdded && OrEmpty(schemaOf(t)) != []
      ensures HasSchemaDoc(st'.extras, r, t)
    {
      if (r, t) in st.schemaAdded {
        HasSchemaDocGrows(st.extras, e, r, t);
      }
    }
    forall j, k | 0 <= j < k < |st'.extras| && st'.extras[j].SchemaDoc? && st'.extras[k].SchemaDoc?
      ensures (st'.extras[j].rule, st'.extras[j].table) != (st'.extras[k].rule, st'.extras[k].table)
    {
      if k == n {
        assert (st.extras[j].rule, st.extras[j].table) in st.schemaAdded;
      }
    }
  }

  /** Handling a pair whose table has no columns: no document is needed. */
  lemma MarkSchema(st: EnrichState, r: Value, t: string, includeSchema: bool,
                   schemaOf: SchemaOracle, distinctOf: DistinctOracle)
    requires Coherent(st, includeSchema, schemaOf, distinctOf) && includeSchema && OrEmpty(schemaOf(t)) == []
    ensures Coherent(st.(schemaAdded := st.schemaAdded + {(r, t)}), includeSchema, schemaOf, distinctOf)
  {
  }

  /** What the enrichment loop reads from the row at position `idx`. */
  datatype RowInfo = RowInfo(rule: Value, table: string, dims: seq<string>, pass: map<string, string>,
                             schemaApplies: bool, catalogApplies: bool)

  function Info(row: Row, idx: nat): RowInfo
  {
    RowInfo(RuleId(row, idx), RowTable(row), RowDims(row), Passthrough(row), SchemaApplies(row), CatalogApplies(row))
  }

  /** The extra document `e` was made for the row described by `info`. */
  ghost predicate FromRow(e: Extra, info: RowInfo)
  {
    && e.rule == info.rule
    && e.table == info.table
    && e.passthrough == info.pass
    && (e.SchemaDoc? ==> info.schemaApplies)
    && (e.CatalogDoc? ==> info.catalogApplies && e.dim in info.dims)
  }

  /** The row has been handled: its (rule, table) pair is recorded when schema documents
      are on, and each of its dimensions with values has its catalog document. */
  ghost predicate RowDone(st: EnrichState, info: RowInfo, includeSchema: bool, distinctOf: DistinctOracle)
  {
    && (includeSchema && info.schemaApplies ==> (info.rule, info.table) in st.schemaAdded)
    && (info.catalogApplies ==>
          forall d :: d in info.dims && OrEmpty(distinctOf(info.table, d)) != [] ==>
            CatalogDoc(info.rule, info.table, d, OrEmpty(distinctOf(info.table, d)), info.pass) in st.extras)
  }

  /** Handled stays handled when the state only grows. */
  lemma RowDoneGrows(st: EnrichState, st': EnrichState, info: RowInfo, includeSchema: bool, distinctOf: DistinctOracle)
    requires RowDone(st, info, includeSchema, distinctOf)
    requires st.schemaAdded <= st'.schemaAdded
    requires |st.extras| <= |st'.extras| && st'.extras[..|st.extras|] == st.extras
    ensures RowDone(st', info, includeSchema, distinctOf)
  {
    forall e | e in st.extras
      ensures e in st'.extras
    {
      var k :| 0 <= k < |st.extras| && st.extras[k] == e;
      assert st'.extras[k] == e;
    }
  }

  /** The schema step of one row (lines 97-124). */
  method AddSchema(st: EnrichState, info: RowInfo, includeSchema: bool, schemaOf: SchemaOracle, distinctOf: DistinctOracle)
    returns (st': EnrichState)
    requires Coherent(st, includeSchema, schemaOf, distinctOf)
    ensures Coherent(st', includeSchema, schemaOf, distinctOf)
    ensures st.schemaAdded <= st'.schemaAdded
    ensures |st.extras| <= |st'.extras| && st'.extras[..|st.extras|] == st.extras
    ensures forall k :: |st.extras| <= k < |st'.extras| ==> FromRow(st'.extras[k], info)
    ensures includeSchema && info.schemaApplies ==> (info.rule, info.table) in st'.schemaAdded
  {
    st' := st;
    if includeSchema && info.schemaApplies && (info.rule, info.table) !in st.schemaAdded {
      var cached := CacheSchema(st, info.table, includeSchema, schemaOf, distinctOf);
      st' := RecordSchema(cached, info, includeSchema, schemaOf, distinctOf);
    }
  }

  /** Lines 100-107: the table's columns are looked up unless they are cached already. */
  method CacheSchema(st: EnrichState, table: string, includeSchema: bool, schemaOf: SchemaOracle, distinctOf: DistinctOracle)
    returns (st': EnrichState)
    requires Coherent(st, includeSchema, schemaOf, distinctOf) && includeSchema
    ensures Coherent(st', includeSchema, schemaOf, distinctOf)
    ensures table in st'.schemas
    ensures st'.extras == st.extras && st'.schemaAdded == st.schemaAdded
  {
    st' := st;
    if table !in st.schemas {
      LookupSchema(st, table, includeSchema, schemaOf, distinctOf);
      st' := st.(schemas := st.schemas[table := OrEmpty(schemaOf(table))],
                 lookups := st.lookups + [SchemaLookup(table)]);
    }
  }

  /** Lines 108-124: the pair is handled, with a schema document when the table has columns. */
  method RecordSchema(st: EnrichState, info: RowInfo, includeSchema: bool, schemaOf: SchemaOracle, distinctOf: DistinctOracle)
    returns (st': EnrichState)
    requires Coherent(st, includeSchema, schemaOf, distinctOf) && includeSchema && info.schemaApplies
    requires info.table in st.schemas && (info.rule, info.table) !in st.schemaAdded
    ensures Coherent(st', includeSchema, schemaOf, distinctOf)
    ensures st'.schemaAdded == st.schemaAdded + {(info.rule, info.table)}
    ensures st'.extras == st.extras || st'.extras == st.extras + [SchemaDoc(info.rule, info.table, st.schemas[info.table], info.pass)]
  {
    var cols := st.schemas[info.table];
    if cols != [] {
      var e := SchemaDoc(info.rule, info.table, cols, info.pass);
      AppendSchema(st, e, includeSchema, schemaOf, distinctOf);
      st' := st.(extras := st.extras + [e], schemaAdded := st.schemaAdded + {(info.rule, info.table)});
    } else {
      MarkSchema(st, info.rule, info.table, includeSchema, schemaOf, distinctOf);
      st' := st.(schemaAdded := st.schemaAdded + {(info.rule, info.table)});
    }
  }

  /** The catalog step of one row (lines 126-157): one document per dimension whose
      distinct values are not empty, looking each (table, dimension) up at most once. */
  method AddCatalogs(st: EnrichState, rule: Value, table: string, dims: seq<string>, pass: map<string, string>,
                     includeSchema: bool, schemaOf: SchemaOracle, distinctOf: DistinctOracle)
    returns (st': EnrichState)
    requires Coherent(st, includeSchema, schemaOf, distinctOf)
    ensures Coherent(st', includeSchema, schemaOf, distinctOf)
    ensures st'.schemaAdded == st.schemaAdded
    ensures |st.extras| <= |st'.extras| && st'.extras[..|st.extras|] == st.extras
    ensures forall k :: |st.extras| <= k < |st'.extras| ==>
              st'.extras[k].CatalogDoc? && st'.extras[k].rule == rule && st'.extras[k].table == table &&
              st'.extras[k].dim in dims && st'.extras[k].passthrough == pass
    ensures forall j :: 0 <= j < |dims| && OrEmpty(distinctOf(table, dims[j])) != [] ==>
              CatalogDoc(rule, table, dims[j], OrEmpty(distinctOf(table, dims[j])), pass) in st'.extras
  {
    st' := st;
    var k := 0;
    while k < |dims|
      invariant 0 <= k <= |dims|
      invariant Coherent(st', includeSchema, schemaOf, distinctOf)
      invariant st'.schemaAdded == st.schemaAdded
      invariant CatalogsSoFar(st.extras, st'.extras, rule, table, dims, pass, k, distinctOf)
    {
      ghost var before := st'.extras;
      st' := AddCatalog(st', rule, table, dims[k], pass, includeSchema, schemaOf, distinctOf);
      CatalogsStep(st.extras, before, st'.extras, rule, table, dims, pass, k, distinctOf);
      k := k + 1;
    }
  }

  /** After k dimensions: the earlier documents are kept, every new one is a catalog document
      of this row, and each of the first k dimensions with values has its document. */
  ghost predicate CatalogsSoFar(prior: seq<Extra>, extras: seq<Extra>, rule: Value, table: string, dims: seq<string>,
                                pass: map<string, string>, k: nat, distinctOf: DistinctOracle)
    requires k <= |dims|
  {
    && |prior| <= |extras| && extras[..|prior|] == prior
    && (forall i :: |prior| <= i < |extras| ==>
          extras[i].CatalogDoc? && extras[i].rule == rule && extras[i].table == table &&
          extras[i].dim in dims && extras[i].passthrough == pass)
    && (forall j :: 0 <= j < k && OrEmpty(distinctOf(table, dims[j])) != [] ==>
          CatalogDoc(rule, table, dims[j], OrEmpty(distinctOf(table, dims[j])), pass) in extras)
  }

  /** Handling dimension k keeps the catalog step's invariant. */
  lemma CatalogsStep(prior: seq<Extra>, before: seq<Extra>, after: seq<Extra>, rule: Value, table: string,
                     dims: seq<string>, pass: map<string, string>, k: nat, distinctOf: DistinctOracle)
    requires k < |dims| && CatalogsSoFar(prior, before, rule, table, dims, pass, k, distinctOf)
    requires var doc := CatalogDoc(rule, table, dims[k], OrEmpty(distinctOf(table, dims[k])), pass);
             after == if OrEmpty(distinctOf(table, dims[k])) == [] then before else before + [doc]
    ensures CatalogsSoFar(prior, after, rule, table, dims, pass, k + 1, distinctOf)
  {
    if OrEmpty(distinctOf(table, dims[k])) != [] {
      assert after[..|prior|] == before[..|prior|];
      assert after[|before|] == CatalogDoc(rule, table, dims[k], OrEmpty(distinctOf(table, dims[k])), pass);
      assert forall x :: x in before ==> x in after;
    }
  }

  /** One dimension of the catalog step: its distinct values are looked up unless cached,
      and a document is added when there are any. */
  method AddCatalog(st: EnrichState, rule: Value, table: string, dim: string, pass: map<string, string>,
                    includeSchema: bool, schemaOf: SchemaOracle, distinctOf: DistinctOracle)
    returns (st': EnrichState)
    requires Coherent(st, includeSchema, schemaOf, distinctOf)
    ensures Coherent(st', includeSchema, schemaOf, distinctOf)
    ensures st'.schemaAdded == st.schemaAdded
    ensures var doc := CatalogDoc(rule, table, dim, OrEmpty(distinctOf(table, dim)), pass);
            st'.extras == if OrEmpty(distinctOf(table, dim)) == [] then st.extras else st.extras + [doc]
  {
    st' := st;
    if (table, dim) !in st.distinct {
      LookupDistinct(st, table, dim, includeSchema, schemaOf, distinctOf);
      st' := st.(distinct := st.distinct[(table, dim) := OrEmpty(distinctOf(table, dim))],
                 lookups := st.lookups + [DistinctLookup(table, dim)]);
    }
    var values := st'.distinct[(table, dim)];
    if values != [] {
      var e := CatalogDoc(rule, table, dim, values, pass);
      AppendCatalog(st', e, includeSchema, schemaOf, distinctOf);
      st' := st'.(extras := st'.extras + [e]);
    }
  }

  /** One pass of the enrichment loop: the schema step, then the catalog step. */
  method EnrichRow(st: EnrichState, info: RowInfo, includeSchema: bool, schemaOf: SchemaOracle, distinctOf: DistinctOracle)
    returns (st': EnrichState)
    requires Coherent(st, includeSchema, schemaOf, distinctOf)
    ensures Coherent(st', includeSchema, schemaOf, distinctOf)
    ensures st.schemaAdded <= st'.schemaAdded
    ensures |st.extras| <= |st'.extras| && st'.extras[..|st.extras|] == st.extras
    ensures forall k :: |st.extras| <= k < |st'.extras| ==> FromRow(st'.extras[k], info)
    ensures RowDone(st', info, includeSchema, distinctOf)
  {
    var mid := AddSchema(st, info, includeSchema, schemaOf, distinctOf);
    st' := mid;
    if info.catalogApplies {
      st' := AddCatalogs(mid, info.rule, info.table, info.dims, info.pass, includeSchema, schemaOf, distinctOf);
      forall d | d in info.dims && OrEmpty(distinctOf(info.table, d)) != []
        ensures CatalogDoc(info.rule, info.table, d, OrEmpty(distinctOf(info.table, d)), info.pass) in st'.extras
      {
        var j :| 0 <= j < |info.dims| && info.dims[j] == d;
      }
      forall k | |st.extras| <= k < |st'.extras|
        ensures FromRow(st'.extras[k], info)
      {
        if k < |mid.extras| {
          assert st'.extras[k] == mid.extras[..|mid.extras|][k];
        }
      }
      assert st'.extras[..|st.extras|] == mid.extras[..|st.extras|];
    }
  }

  /** The enrichment loop of `index_source` over all rows (lines 76-157), given each row's
      `Info`. `origin[k]` is the row the k-th extra document was made for. */
  method Enrich(infos: seq<RowInfo>, includeSchema: bool, schemaOf: SchemaOracle, distinctOf: DistinctOracle)
    returns (st: EnrichState, ghost origin: seq<nat>)
    ensures Coherent(st, includeSchema, schemaOf, distinctOf)
    ensures |origin| == |st.extras|
    ensures forall k :: 0 <= k < |st.extras| ==> origin[k] < |infos| && FromRow(st.extras[k], infos[origin[k]])
    ensures forall j :: 0 <= j < |infos| ==> RowDone(st, infos[j], includeSchema, distinctOf)
  {
    st := EmptyEnrichState;
    origin := [];
    var i := 0;
    while i < |infos|
      invariant 0 <= i <= |infos|
      invariant Coherent(st, includeSchema, schemaOf, distinctOf)
      invariant |origin| == |st.extras|
      invariant forall k :: 0 <= k < |st.extras| ==> origin[k] < i && FromRow(st.extras[k], infos[origin[k]])
      invariant forall j :: 0 <= j < i ==> RowDone(st, infos[j], includeSchema, distinctOf)
    {
      var next := EnrichRow(st, infos[i], includeSchema, schemaOf, distinctOf);
      forall j | 0 <= j < i
        ensures RowDone(next, infos[j], includeSchema, distinctOf)
      {
        RowDoneGrows(st, next, infos[j], includeSchema, distinctOf);
      }
      ghost var origin' := origin + seq(|next.extras| - |st.extras|, _ => i);
      forall k | 0 <= k < |next.extras|
        ensures origin'[k] < i + 1 && FromRow(next.extras[k], infos[origin'[k]])
      {
        if k < |st.extras| {
          assert next.extras[k] == st.extras[k];
        }
      }
      st, origin := next, origin';
      i := i + 1;
    }
  }

  /** A handled row whose table has columns has a schema document under its own rule id;
      without `include_schema` there is no schema document and no schema lookup. */
  lemma EnrichSchemaDocs(st: EnrichState, infos: seq<RowInfo>, includeSchema: bool,
                         schemaOf: SchemaOracle, distinctOf: DistinctOracle)
    requires Coherent(st, includeSchema, schemaOf, distinctOf)
    requires forall i :: 0 <= i < |infos| ==> RowDone(st, infos[i], includeSchema, distinctOf)
    ensures forall i :: (0 <= i < |infos| && includeSchema && infos[i].schemaApplies
                         && OrEmpty(schemaOf(infos[i].table)) != []) ==>
                HasSchemaDoc(st.extras, infos[i].rule, infos[i].table)
    ensures !includeSchema ==> forall k :: 0 <= k < |st.extras| ==> st.extras[k].CatalogDoc?
    ensures !includeSchema ==> forall k :: 0 <= k < |st.lookups| ==> !st.lookups[k].SchemaLookup?
  {
    if !includeSchema {
      forall k | 0 <= k < |st.extras|
        ensures st.extras[k].CatalogDoc?
      {
        if st.extras[k].SchemaDoc? {
          assert false;
        }
      }
    }
  }

  // ---------------------------------------------------------------- batches

  function Min(a: nat, b: nat): nat { if a <= b then a else b }

  /** `range(start, total, size)` with each batch's end `min(i + size, total)`. There are
      batches exactly when `start < total`; the first starts at `start` and the last ends
      at `total`. */
  function BatchesFrom(total: nat, size: nat, start: nat): (bs: seq<(nat, nat)>)
    requires size > 0
    ensures |bs| > 0 <==> start < total
    ensures |bs| > 0 ==> bs[0].0 == start && bs[|bs| - 1].1 == total
    decreases total - start
  {
    if start >= total then [] else [(start, Min(start + size, total))] + BatchesFrom(total, size, start + size)
  }

  function Batches(total: nat, size: nat): seq<(nat, nat)>
    requires size > 0
  {
    BatchesFrom(total, size, 0)
  }

  /** Batches in order: each is non-empty, at most `size` long and within `total`, and
      each starts where the one before ended. */
  predicate Tiles(bs: seq<(nat, nat)>, size: nat, total: nat)
  {
    && (forall k :: 0 <= k < |bs| ==> bs[k].0 < bs[k].1 <= bs[k].0 + size && bs[k].1 <= total)
    && (forall j, k :: 0 <= j < |bs| && 0 <= k < |bs| && k == j + 1 ==> bs[k].0 == bs[j].1)
  }

  lemma {:induction false} BatchesTile(total: nat, size: nat, start: nat)
    requires size > 0
    ensures Tiles(BatchesFrom(total, size, start), size, total)
    decreases total - start
  {
    if start < total {
      BatchesTile(total, size, start + size);
      var rest := BatchesFrom(total, size, start + size);
      var bs := BatchesFrom(total, size, start);
      assert bs == [(start, Min(start + size, total))] + rest;
      forall k | 0 <= k < |bs|
        ensures bs[k].0 < bs[k].1 <= bs[k].0 + size && bs[k].1 <= total
      {
        if k > 0 {
          assert bs[k] == rest[k - 1];
        }
      }
      forall j, k | 0 <= j < |bs| && 0 <= k < |bs| && k == j + 1
        ensures bs[k].0 == bs[j].1
      {
        assert bs[k] == rest[j];
        if j > 0 {
          assert bs[j] == rest[j - 1];
        }
      }
    }
  }

  /** The slices of `s` the batches name, concatenated. */
  function Slices<T>(s: seq<T>, bs: seq<(nat, nat)>): seq<T>
  {
    if bs == [] then []
    else (if bs[0].0 <= bs[0].1 <= |s| then s[bs[0].0..bs[0].1] else []) + Slices(s, bs[1..])
  }

  lemma SlicesCons<T>(s: seq<T>, lo: nat, hi: nat, rest: seq<(nat, nat)>)
    requires lo <= hi <= |s|
    ensures Slices(s, [(lo, hi)] + rest) == s[lo..hi] + Slices(s, rest)
  {
    assert ([(lo, hi)] + rest)[1..] == rest;
  }

  /** Storing batch after batch stores every element once, in order. */
  lemma {:induction false} BatchesCover<T>(s: seq<T>, size: nat, start: nat)
    requires size > 0 && start <= |s|
    ensures Slices(s, BatchesFrom(|s|, size, start)) == s[start..]
    decreases |s| - start
  {
    var bs := BatchesFrom(|s|, size, start);
    if start < |s| {
      var end := Min(start + size, |s|);
      var rest := BatchesFrom(|s|, size, start + size);
      assert bs == [(start, end)] + rest;
      SlicesCons(s, start, end, rest);
      if start + size <= |s| {
        BatchesCover(s, size, start + size);
      } else {
        assert rest == [];
      }
      assert s[start..] == s[start..end] + s[end..];
    }
  }

  /** One `collection.add` call. */
  datatype AddCall = AddCall(ids: seq<string>, embeddings: seq<Embedding>, documents: seq<string>,
                             metadatas: seq<map<string, Meta>>)

  /** `call` stores the batch `lo..hi`, each document with its embedding. */
  predicate StoresBatch(call: AddCall, ids: seq<string>, documents: seq<string>, metadatas: seq<map<string, Meta>>,
                        lo: nat, hi: nat, post: string -> EmbedReply)
  {
    && lo <= hi <= |ids| == |documents| == |metadatas|
    && call.ids == ids[lo..hi]
    && call.documents == documents[lo..hi]
    && call.metadatas == metadatas[lo..hi]
    && |call.embeddings| == hi - lo
    && forall j :: 0 <= j < hi - lo ==> EmbedsTo(post, documents[lo + j], call.embeddings[j])
  }

  /** One pass of the storage loop: embed the batch `lo..hi`, then add it in one call. */
  method StoreBatch(ids: seq<string>, documents: seq<string>, metadatas: seq<map<string, Meta>>,
                    lo: nat, hi: nat, post: string -> EmbedReply)
    returns (r: Result<AddCall>)
    requires lo <= hi <= |ids| == |documents| == |metadatas|
    ensures r.Success? ==> StoresBatch(r.value, ids, documents, metadatas, lo, hi, post)
    ensures r.Failure? ==> exists j :: lo <= j < hi && post(Sanitize(documents[j])).status != 200
  {
    var e, _ := GetEmbeddingsBatch(documents[lo..hi], post);
    if e.Failure? {
      var j0 :| 0 <= j0 < hi - lo && post(Sanitize(documents[lo..hi][j0])).status != 200;
      assert documents[lo..hi][j0] == documents[lo + j0];
      return Failure(e.error);
    }
    r := Success(AddCall(ids[lo..hi], e.value, documents[lo..hi], metadatas[lo..hi]));
  }

  lemma BatchesStep(bs: seq<(nat, nat)>, n: nat, total: nat, size: nat, i: nat)
    requires size > 0 && i < total && n <= |bs| && bs[n..] == BatchesFrom(total, size, i)
    ensures n < |bs| && bs[n] == (i, Min(i + size, total))
    ensures bs[n + 1..] == BatchesFrom(total, size, i + size)
  {
    assert BatchesFrom(total, size, i) == [(i, Min(i + size, total))] + BatchesFrom(total, size, i + size);
    assert bs[n + 1..] == bs[n..][1..];
  }

  /** The storage loop of `index_source` (lines 166-180): a failing embedding request
      ends it, with the batches before it stored. */
  method StoreBatches(ids: seq<string>, documents: seq<string>, metadatas: seq<map<string, Meta>>,
                      size: nat, post: string -> EmbedReply)
    returns (calls: seq<AddCall>, err: Option<string>)
    requires |ids| == |documents| == |metadatas|
    requires size > 0
    ensures |calls| <= |Batches(|documents|, size)|
    ensures err.None? ==> |calls| == |Batches(|documents|, size)|
    ensures forall k :: 0 <= k < |calls| ==>
        StoresBatch(calls[k], ids, documents, metadatas, Batches(|documents|, size)[k].0,
                    Batches(|documents|, size)[k].1, post)
    ensures err.Some? ==>
              && |calls| < |Batches(|documents|, size)|
              && exists j :: 0 <= j < |documents| &&
                   Batches(|documents|, size)[|calls|].0 <= j < Batches(|documents|, size)[|calls|].1 &&
                   post(Sanitize(documents[j])).status != 200
  {
    var total := |documents|;
    ghost var bs := Batches(total, size);
    calls := [];
    err := None;
    var i := 0;
    while i < total
      invariant |calls| <= |bs|
      invariant bs[|calls|..] == BatchesFrom(total, size, i)
      invariant forall k :: 0 <= k < |calls| ==> StoresBatch(calls[k], ids, documents, metadatas, bs[k].0, bs[k].1, post)
      decreases total - i
    {
      var end := Min(i + size, total);
      BatchesStep(bs, |calls|, total, size, i);
      var r := StoreBatch(ids, documents, metadatas, i, end, post);
      if r.Failure? {
        err := Some(r.error);
        return;
      }
      calls := calls + [r.value];
      i := i + size;
    }
  }

  // ---------------------------------------------------------------- index_source

  function RowDocuments(frame: Frame, cols: seq<string>): seq<string>
  {
    seq(|frame.rows|, i requires 0 <= i < |frame.rows| => PrepareDocument(frame.rows[i], cols))
  }

  function RowMetadatas(frame: Frame, cols: seq<string>, source: string): seq<map<string, Meta>>
  {
    seq(|frame.rows|, i requires 0 <= i < |frame.rows| => PrepareMetadata(frame.rows[i], cols, source))
  }

  /** `index_source`: the row documents, then the extra documents when `sql_enrich` is set,
      stored batch by batch. `schemaOf` and `distinctOf` answer the enrichment lookups
      (`fetch_table_schema` and `fetch_distinct_values` with the configured limits). */
  method IndexSource(frame: Frame, src: SourceConfig, batchSize: nat,
                     schemaOf: SchemaOracle, distinctOf: DistinctOracle,
                     post: string -> EmbedReply)
    returns (documents: seq<string>, metadatas: seq<map<string, Meta>>, ids: seq<string>,
             extras: seq<Extra>, ghost origin: seq<nat>, ghost enriched: EnrichState, lookups: seq<Lookup>,
             calls: seq<AddCall>, err: Option<string>)
    requires batchSize > 0
    ensures |documents| == |metadatas| == |ids| == |frame.rows| + |extras|
    ensures documents[..|frame.rows|] == RowDocuments(frame, src.vectorize)
    ensures metadatas[..|frame.rows|] == RowMetadatas(frame, src.metadata, src.name)
    ensures ids[..|frame.rows|] == RowIds(frame, src.name)
    ensures forall k :: 0 <= k < |extras| ==>
              documents[|frame.rows| + k] == ExtraDocument(extras[k]) &&
              ids[|frame.rows| + k] == ExtraId(src.name, extras[k]) &&
              metadatas[|frame.rows| + k] == ExtraMetadata(src.name, extras[k])
    ensures src.sqlEnrich.None? ==> extras == [] && lookups == [] && enriched == EmptyEnrichState
    ensures extras == enriched.extras && lookups == enriched.lookups
    ensures src.sqlEnrich.Some? ==> Coherent(enriched, src.sqlEnrich.value.IncludeSchema(), schemaOf, distinctOf)
    ensures src.sqlEnrich.Some? ==>
              forall j :: 0 <= j < |frame.rows| ==>
                RowDone(enriched, Info(frame.rows[j], j), src.sqlEnrich.value.IncludeSchema(), distinctOf)
    ensures NoDup(lookups)
    ensures forall k :: 0 <= k < |extras| ==> Grounded(extras[k], schemaOf, distinctOf)
    ensures |origin| == |extras|
    ensures forall k :: 0 <= k < |extras| ==>
              origin[k] < |frame.rows| && FromRow(extras[k], Info(frame.rows[origin[k]], origin[k]))
    ensures |calls| <= |Batches(|documents|, batchSize)|
    ensures err.None? ==> |calls| == |Batches(|documents|, batchSize)|
    ensures forall k :: 0 <= k < |calls| ==>
        StoresBatch(calls[k], ids, documents, metadatas, Batches(|documents|, batchSize)[k].0,
                    Batches(|documents|, batchSize)[k].1, post)
  {
    extras, origin, enriched, lookups := EnrichFrame(frame, src, schemaOf, distinctOf);
    documents, metadatas, ids := AllDocuments(frame, src, extras);
    calls, err := StoreBatches(ids, documents, metadatas, batchSize, post);
  }

  /** Lines 76-157 of `index_source`: the enrichment of every row when `sql_enrich` is set,
      with the final state of the loop. */
  method EnrichFrame(frame: Frame, src: SourceConfig, schemaOf: SchemaOracle, distinctOf: DistinctOracle)
    returns (extras: seq<Extra>, ghost origin: seq<nat>, ghost enriched: EnrichState, lookups: seq<Lookup>)
    ensures src.sqlEnrich.None? ==> extras == [] && lookups == [] && enriched == EmptyEnrichState
    ensures extras == enriched.extras && lookups == enriched.lookups
    ensures src.sqlEnrich.Some? ==> Coherent(enriched, src.sqlEnrich.value.IncludeSchema(), schemaOf, distinctOf)
    ensures src.sqlEnrich.Some? ==>
              forall j :: 0 <= j < |frame.rows| ==>
                RowDone(enriched, Info(frame.rows[j], j), src.sqlEnrich.value.IncludeSchema(), distinctOf)
    ensures NoDup(lookups)
    ensures forall k :: 0 <= k < |extras| ==> Grounded(extras[k], schemaOf, distinctOf)
    ensures |origin| == |extras|
    ensures forall k :: 0 <= k < |extras| ==>
              origin[k] < |frame.rows| && FromRow(extras[k], Info(frame.rows[origin[k]], origin[k]))
  {
    extras := [];
    origin := [];
    enriched := EmptyEnrichState;
    lookups := [];
    if src.sqlEnrich.Some? {
      var st;
      var infos := seq(|frame.rows|, i requires 0 <= i < |frame.rows| => Info(frame.rows[i], i));
      st, origin := Enrich(infos, src.sqlEnrich.value.IncludeSchema(), schemaOf, distinctOf);
      forall j | 0 <= j < |frame.rows|
        ensures RowDone(st, Info(frame.rows[j], j), src.sqlEnrich.value.IncludeSchema(), distinctOf)
      {
        assert infos[j] == Info(frame.rows[j], j);
      }
      enriched := st;
      extras := st.extras;
      lookups := st.lookups;
    }
  }

  /** Lines 67-74 and 159-163: the row documents followed by the extra ones, with their
      metadata and ids. */
  method AllDocuments(frame: Frame, src: SourceConfig, extras: seq<Extra>)
    returns (documents: seq<string>, metadatas: seq<map<string, Meta>>, ids: seq<string>)
    ensures |documents| == |metadatas| == |ids| == |frame.rows| + |extras|
    ensures documents[..|frame.rows|] == RowDocuments(frame, src.vectorize)
    ensures metadatas[..|frame.rows|] == RowMetadatas(frame, src.metadata, src.name)
    ensures ids[..|frame.rows|] == RowIds(frame, src.name)
    ensures forall k :: 0 <= k < |extras| ==>
              documents[|frame.rows| + k] == ExtraDocument(extras[k]) &&
              ids[|frame.rows| + k] == ExtraId(src.name, extras[k]) &&
              metadatas[|frame.rows| + k] == ExtraMetadata(src.name, extras[k])
  {
    documents := RowDocuments(frame, src.vectorize) + seq(|extras|, k requires 0 <= k < |extras| => ExtraDocument(extras[k]));
    metadatas := RowMetadatas(frame, src.metadata, src.name)
                 + seq(|extras|, k requires 0 <= k < |extras| => ExtraMetadata(src.name, extras[k]));
    ids := RowIds(frame, src.name) + seq(|extras|, k requires 0 <= k < |extras| => ExtraId(src.name, extras[k]));
  }

  // ---------------------------------------------------------------- clear_collection

  /** `clear_collection` over the collections by name: the named one is gone (the flag says
      whether it existed, which picks the message), the others are untouched. */
  function ClearCollection<C>(store: map<string, C>, name: string): (r: (map<string, C>, bool))
    ensures name !in r.0 && r.1 == (name in store)
    ensures forall n :: n != name ==> (n in r.0 <==> n in store) && (n in r.0 ==> r.0[n] == store[n])
  {
    (store - {name}, name in store)
  }

  /** Clearing twice is clearing once, and the second time reports nothing to delete. */
  lemma ClearCollectionIdempotent<C>(store: map<string, C>, name: string)
    ensures ClearCollection(ClearCollection(store, name).0, name).0 == ClearCollection(store, name).0
    ensures !ClearCollection(ClearCollection(store, name).0, name).1
  {
  }
}
