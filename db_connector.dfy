/** The database side of the tool: the engine dispatch, the read-only guard on ad-hoc
    queries, the identifier whitelist, quoting, the DISTINCT and INFORMATION_SCHEMA
    builders, the row-limit rewrite of configured queries and the post-processing of
    catalog and schema lookups. A database is an oracle `run` from SQL text to a frame or
    an error; what happens to the connection is recorded as a list of events. */
module DbConnector {
  import opened Wrappers
  import opened Text
  import opened Values
  import opened Sources

  // ---------------------------------------------------------------- engines

  datatype Engine = Mssql | Mariadb | Duckdb

  function EngineName(e: Engine): string
  {
    match e
    case Mssql => "mssql"
    case Mariadb => "mariadb"
    case Duckdb => "duckdb"
  }

  /** `get_connection`: the engine for a source `type`, or the error it raises. */
  function EngineOf(kind: string): (r: Result<Engine>)
    ensures r.Success? <==> kind in {"mssql", "mariadb", "duckdb"}
    ensures r.Success? ==> EngineName(r.value) == kind
    ensures r.Failure? ==> r.error == "Motor de BD no soportado: " + kind
  {
    if kind == "mssql" then Success(Mssql)
    else if kind == "mariadb" then Success(Mariadb)
    else if kind == "duckdb" then Success(Duckdb)
    else Failure("Motor de BD no soportado: " + kind)
  }

  /** What is done with a connection, in order. */
  datatype DbEvent = Connect | Execute(sql: string) | Close

  /** An operation's outcome together with what it did to the connection. */
  datatype Run<T> = Run(result: Result<T>, events: seq<DbEvent>)

  /** A connection is never left open: once opened, the last thing done is closing it. */
  predicate ClosesConnection(events: seq<DbEvent>)
  {
    Connect in events ==> events[|events| - 1] == Close
  }

  /** The database: a SQL text answers with every row it selects, or raises. */
  type QueryOracle = string -> Result<Frame>

  // ---------------------------------------------------------------- execute_query guards

  /** The text the SELECT test looks at: stripped, then leading `(` removed. */
  function NormalizedQuery(sql: string): string
  {
    LStripChar(Strip(sql), '(')
  }

  /** `re.match(r'(?i)^SELECT\b', ...)` on the normalised text: the word SELECT, in any case, first. */
  predicate StartsWithSelect(sql: string)
  {
    var n := NormalizedQuery(sql);
    MatchesAt(n, 0, "SELECT", true) && Boundary(n, 6)
  }

  const ForbiddenWords: seq<string> :=
    ["INSERT", "UPDATE", "DELETE", "DROP", "ALTER", "TRUNCATE", "CREATE", "EXEC", "EXECUTE"]

  /** The forbidden-keyword regex finds one of the words, whole and in any case, anywhere. */
  predicate HasForbiddenWord(sql: string)
  {
    exists w :: w in ForbiddenWords && ContainsWord(sql, w)
  }

  /** The error `execute_query` raises before connecting, if any. */
  function QueryError(sql: string): (r: Option<string>)
    ensures r.None? <==> StartsWithSelect(sql) && !HasForbiddenWord(sql)
    ensures !StartsWithSelect(sql) ==> r == Some("Solo se permiten consultas SELECT")
    ensures StartsWithSelect(sql) && HasForbiddenWord(sql) ==> r == Some("Consulta contiene operaciones no permitidas")
  {
    if !StartsWithSelect(sql) then Some("Solo se permiten consultas SELECT")
    else if HasForbiddenWord(sql) then Some("Consulta contiene operaciones no permitidas")
    else None
  }

  /** `cursor.fetchmany(n)`: the first n rows. */
  function Take<T>(xs: seq<T>, n: nat): (r: seq<T>)
    ensures |r| == if n < |xs| then n else |xs|
    ensures r == xs[..|r|]
  {
    if n < |xs| then xs[..n] else xs
  }

  /** `execute_query`: guards first, then connect, execute, fetch at most `maxRows` rows, and
      close in `finally`. */
  function ExecuteQuery(kind: string, sql: string, maxRows: nat, run: QueryOracle): (r: Run<Frame>)
    ensures r.result.Success? <==> QueryError(sql).None? && EngineOf(kind).Success? && run(sql).Success?
    ensures QueryError(sql).Some? ==> r.result == Failure(QueryError(sql).value)
    ensures r.result.Success? ==>
              && r.result.value.columns == run(sql).value.columns
              && |r.result.value.rows| <= maxRows
              && r.result.value.rows == Take(run(sql).value.rows, maxRows)
    ensures Connect in r.events <==> QueryError(sql).None? && EngineOf(kind).Success?
    ensures Execute(sql) in r.events ==> QueryError(sql).None?
    ensures ClosesConnection(r.events)
  {
    match QueryError(sql)
    case Some(e) => Run(Failure(e), [])
    case None =>
      match EngineOf(kind)
      case Failure(e) => Run(Failure(e), [])
      case Success(_) =>
        var events := [Connect, Execute(sql), Close];
        match run(sql)
        case Failure(e) => Run(Failure(e), events)
        case Success(df) => Run(Success(Frame(df.columns, Take(df.rows, maxRows))), events)
  }

  /** Case mapping commutes with the normalisation of the SELECT test. */
  lemma NormalizedLower(sql: string)
    ensures NormalizedQuery(Lower(sql)) == Lower(NormalizedQuery(sql))
  {
    LowerStrip(sql);
    LowerLStripParen(Strip(sql));
  }

  /** The SELECT test ignores case. */
  lemma StartsWithSelectIgnoresCase(sql: string)
    ensures StartsWithSelect(Lower(sql)) == StartsWithSelect(sql)
  {
    NormalizedLower(sql);
    var n := NormalizedQuery(sql);
    MatchIgnoresCase(n, 0, "SELECT");
    if |n| >= 6 {
      BoundaryIgnoresCase(n, 6);
    }
  }

  /** A case-blind match reads the same on the lower-cased text. */
  lemma MatchIgnoresCase(s: string, i: nat, w: string)
    ensures MatchesAt(Lower(s), i, w, true) == MatchesAt(s, i, w, true)
  {
    if i + |w| <= |s| {
      LowerSlice(s, i, i + |w|);
      LowerIdempotent(s[i..i + |w|]);
    }
  }

  /** Lower-casing moves no word boundary. */
  lemma BoundaryIgnoresCase(s: string, i: nat)
    requires i <= |s|
    ensures Boundary(Lower(s), i) == Boundary(s, i)
  {
    var l := Lower(s);
    if i > 0 {
      assert l[i - 1] == LowerChar(s[i - 1]);
      LowerWordChar(s[i - 1]);
    }
    if i < |s| {
      assert l[i] == LowerChar(s[i]);
      LowerWordChar(s[i]);
    }
  }

  /** A whole-word match ignores case. */
  lemma WordAtIgnoresCase(s: string, w: string, i: nat)
    requires i <= |s|
    ensures WordAt(Lower(s), w, i) == WordAt(s, w, i)
  {
    if i + |w| <= |s| {
      LowerSlice(s, i, i + |w|);
      LowerIdempotent(s[i..i + |w|]);
      BoundaryIgnoresCase(s, i);
      BoundaryIgnoresCase(s, i + |w|);
    }
  }

  /** The forbidden-keyword test ignores case. */
  lemma ForbiddenIgnoresCase(sql: string)
    ensures HasForbiddenWord(Lower(sql)) == HasForbiddenWord(sql)
  {
    forall w, i | 0 <= i <= |sql|
      ensures WordAt(Lower(sql), w, i) == WordAt(sql, w, i)
    {
      WordAtIgnoresCase(sql, w, i);
    }
  }

  /** Reading is case-blind: lower-casing a query changes nothing the guards decide. */
  lemma QueryErrorIgnoresCase(sql: string)
    ensures QueryError(Lower(sql)) == QueryError(sql)
  {
    StartsWithSelectIgnoresCase(sql);
    ForbiddenIgnoresCase(sql);
  }

  lemma LowerIdempotent(s: string)
    ensures Lower(Lower(s)) == Lower(s)
  {
  }

  lemma LowerStrip(s: string)
    ensures Strip(Lower(s)) == Lower(Strip(s))
  {
    LowerLStrip(s);
    LowerRStrip(LStrip(s));
  }

  lemma {:induction false} LowerLStrip(s: string)
    ensures LStrip(Lower(s)) == Lower(LStrip(s))
    decreases |s|
  {
    if |s| > 0 {
      var l := Lower(s);
      assert l[0] == LowerChar(s[0]);
      SpaceLower(s[0]);
      if IsSpace(s[0]) {
        assert l[1..] == Lower(s[1..]);
        LowerLStrip(s[1..]);
      }
    }
  }

  lemma {:induction false} LowerRStrip(s: string)
    ensures RStrip(Lower(s)) == Lower(RStrip(s))
    decreases |s|
  {
    if |s| > 0 {
      var l := Lower(s);
      assert l[|s| - 1] == LowerChar(s[|s| - 1]);
      SpaceLower(s[|s| - 1]);
      if IsSpace(s[|s| - 1]) {
        assert l[..|s| - 1] == Lower(s[..|s| - 1]);
        LowerRStrip(s[..|s| - 1]);
      }
    }
  }

  lemma {:induction false} LowerLStripParen(s: string)
    ensures LStripChar(Lower(s), '(') == Lower(LStripChar(s, '('))
    decreases |s|
  {
    if |s| > 0 {
      var l := Lower(s);
      assert l[0] == LowerChar(s[0]);
      if s[0] == '(' {
        assert l[1..] == Lower(s[1..]);
        LowerLStripParen(s[1..]);
      }
    }
  }

  // ---------------------------------------------------------------- identifiers

  /** `[A-Za-z0-9_.]` */
  predicate IsIdentChar(c: char)
  {
    IsUpperAscii(c) || IsLowerAscii(c) || IsDigit(c) || c == '_' || c == '.'
  }

  predicate IdentChars(s: string)
  {
    forall i :: 0 <= i < |s| ==> IsIdentChar(s[i])
  }

  /** `re.match(r"^[A-Za-z0-9_.]+$", name)` as Python evaluates it: `$` also matches just before
      a final newline, so one trailing newline gets through. */
  predicate IdentifierMatchesAsWritten(name: string)
  {
    || (|name| >= 1 && IdentChars(name))
    || (|name| >= 2 && name[|name| - 1] == '\n' && IdentChars(name[..|name| - 1]))
  }

  /** The whitelist as intended: one or more characters, all from `[A-Za-z0-9_.]`. */
  predicate ValidIdentifier(name: string)
  {
    |name| >= 1 && IdentChars(name)
  }

  /** The as-written pattern lets a name with a trailing newline through the whitelist. */
  lemma IdentifierTrailingNewline()
    ensures IdentifierMatchesAsWritten("orders\n")
    ensures !ValidIdentifier("orders\n")
  {
    assert "orders\n"[..6] == "orders";
    assert !IsIdentChar("orders\n"[6]);
  }

  /** The two patterns differ only on that newline: everything else is decided alike. */
  lemma IdentifierPatternsAgree(name: string)
    requires |name| == 0 || name[|name| - 1] != '\n'
    ensures IdentifierMatchesAsWritten(name) == ValidIdentifier(name)
  {
  }

  /** `_validate_identifier` (with the intended pattern): the error it raises, if any. */
  function CheckIdentifier(name: string): (r: Option<string>)
    ensures r.None? <==> ValidIdentifier(name)
    ensures r.Some? ==> r.value == "Identificador SQL no permitido: " + name
  {
    if ValidIdentifier(name) then None else Some("Identificador SQL no permitido: " + name)
  }

  /** A whitelisted name cannot close a quote or a string literal, or start another statement. */
  lemma ValidIdentifierInert(name: string)
    requires ValidIdentifier(name)
    ensures NoneIn(name, {'[', ']', '`', '"', '\'', ';', ' ', '\n'})
  {
  }

  /** A table name, optionally qualified by its schema. */
  datatype TableRef = TableRef(schema: Option<string>, table: string)

  /** `_split_table_name`: no dot is a bare table, one dot is schema.table, more is refused. */
  function SplitTableName(table: string): (r: Result<TableRef>)
    ensures r.Success? <==> multiset(table)['.'] <= 1
    ensures r.Success? && r.value.schema.None? ==> r.value.table == table
    ensures r.Success? && r.value.schema.Some? ==>
              && table == r.value.schema.value + "." + r.value.table
              && '.' !in r.value.schema.value && '.' !in r.value.table
    ensures r.Failure? ==> r.error == "Nombre de tabla no permitido: " + table
  {
    var parts := Split(table, {'.'});
    SplitCount(table, '.');
    JoinSplit(table, '.');
    if |parts| == 1 then Success(TableRef(None, parts[0]))
    else if |parts| == 2 then
      assert NoneIn(parts[0], {'.'}) && NoneIn(parts[1], {'.'});
      Success(TableRef(Some(parts[0]), parts[1]))
    else Failure("Nombre de tabla no permitido: " + table)
  }

  /** The characters `_quote_identifier` puts around each part, by engine. */
  function Quotes(kind: string): (q: (char, char))
    ensures q.0 != '.' && q.1 != '.'
  {
    if kind == "mssql" then ('[', ']') else if kind == "mariadb" then ('`', '`') else ('"', '"')
  }

  function Wrap(p: string, q: (char, char)): string
  {
    [q.0] + p + [q.1]
  }

  /** `_quote_identifier`: every dot-separated part quoted, joined by dots again. */
  function QuoteIdentifier(kind: string, name: string): (r: string)
  {
    var parts := Split(name, {'.'});
    Join(".", seq(|parts|, i requires 0 <= i < |parts| => Wrap(parts[i], Quotes(kind))))
  }

  /** Reading a quoted name back: split on dots, drop each part's first and last character. */
  function Unquote(quoted: string): (r: string)
  {
    var parts := Split(quoted, {'.'});
    Join(".", seq(|parts|, i requires 0 <= i < |parts| =>
                    if |parts[i]| >= 2 then parts[i][1..|parts[i]| - 1] else parts[i]))
  }

  /** Quoting loses nothing: the name is recovered from its quoted form, for every engine. */
  lemma QuoteUnquote(kind: string, name: string)
    ensures Unquote(QuoteIdentifier(kind, name)) == name
  {
    var q := Quotes(kind);
    var parts := Split(name, {'.'});
    var wrapped := seq(|parts|, i requires 0 <= i < |parts| => Wrap(parts[i], q));
    forall k | 0 <= k < |wrapped|
      ensures NoneIn(wrapped[k], {'.'})
    {
      assert NoneIn(parts[k], {'.'});
    }
    SplitJoin(wrapped, '.', {'.'});
    var inner := seq(|wrapped|, i requires 0 <= i < |wrapped| =>
                       if |wrapped[i]| >= 2 then wrapped[i][1..|wrapped[i]| - 1] else wrapped[i]);
    assert inner == parts;
    JoinSplit(name, '.');
  }

  // ---------------------------------------------------------------- query builders

  /** `build_distinct_query`: both names whitelisted, then the engine's DISTINCT form. */
  function BuildDistinctQuery(kind: string, table: string, column: string, limit: int): (r: Result<string>)
    ensures r.Success? <==> ValidIdentifier(table) && ValidIdentifier(column)
    ensures !ValidIdentifier(table) ==> r == Failure(CheckIdentifier(table).value)
    ensures ValidIdentifier(table) && !ValidIdentifier(column) ==> r == Failure(CheckIdentifier(column).value)
    ensures r.Success? && kind == "mssql" ==>
              StartsWith(r.value, "SELECT DISTINCT TOP " + IntToString(limit) + " ") && EndsWith(r.value, " IS NOT NULL")
    ensures r.Success? && kind != "mssql" ==>
              StartsWith(r.value, "SELECT DISTINCT ") && EndsWith(r.value, " LIMIT " + IntToString(limit))
  {
    if CheckIdentifier(table).Some? then Failure(CheckIdentifier(table).value)
    else if CheckIdentifier(column).Some? then Failure(CheckIdentifier(column).value)
    else
      var tq := QuoteIdentifier(kind, table);
      var cq := QuoteIdentifier(kind, column);
      var filter := cq + " FROM " + tq + " WHERE " + cq + " IS NOT NULL";
      if kind == "mssql" then
        var head := "SELECT DISTINCT TOP " + IntToString(limit) + " ";
        StartsWithAppend(head, filter);
        EndsWithAppend(head + cq + " FROM " + tq + " WHERE " + cq, " IS NOT NULL");
        Success(head + filter)
      else
        var head := "SELECT DISTINCT ";
        var tail := " LIMIT " + IntToString(limit);
        StartsWithAppend(head, filter + tail);
        EndsWithAppend(head + filter, tail);
        Success(head + filter + tail)
  }

  /** A text made of the word SELECT, a space and more, with no space at its end, passes the
      SELECT test. */
  lemma SelectPrefixPasses(rest: string)
    requires |rest| > 0 && !IsSpace(rest[|rest| - 1])
    ensures StartsWithSelect("SELECT " + rest)
  {
    var s := "SELECT " + rest;
    assert s[..7] == "SELECT " && s[|s| - 1] == rest[|rest| - 1];
    SelectWordAt(s);
    NormalizedKept(s);
  }

  /** A text that starts with neither whitespace nor `(` and does not end in whitespace is
      left as it is by the normalisation. */
  lemma NormalizedKept(s: string)
    requires |s| > 0 && !IsSpace(s[0]) && s[0] != '(' && !IsSpace(s[|s| - 1])
    ensures NormalizedQuery(s) == s
  {
    StripTrimmed(s);
    assert LStripChar(s, '(') == s;
  }

  lemma SelectWordAt(s: string)
    requires |s| >= 7 && s[..7] == "SELECT "
    ensures s[0] == 'S'
    ensures MatchesAt(s, 0, "SELECT", true) && Boundary(s, 6)
  {
    assert s[..6] == s[..7][..6] == "SELECT";
    assert s[0] == s[..7][0] && s[5] == s[..7][5] && s[6] == s[..7][6];
  }

  /** Every query the DISTINCT builder produces gets past the SELECT test of `execute_query`. */
  lemma DistinctQueryStartsWithSelect(kind: string, table: string, column: string, limit: int)
    requires BuildDistinctQuery(kind, table, column, limit).Success?
    ensures StartsWithSelect(BuildDistinctQuery(kind, table, column, limit).value)
  {
    DistinctShapePasses(kind, BuildDistinctQuery(kind, table, column, limit).value, IntToString(limit));
  }

  /** The two DISTINCT shapes pass the SELECT test whatever lies between their ends. */
  lemma DistinctShapePasses(kind: string, s: string, n: string)
    requires |n| > 0 && IsDigit(n[|n| - 1])
    requires kind == "mssql" ==> StartsWith(s, "SELECT DISTINCT TOP " + n + " ") && EndsWith(s, " IS NOT NULL")
    requires kind != "mssql" ==> StartsWith(s, "SELECT DISTINCT ") && EndsWith(s, " LIMIT " + n)
    ensures StartsWithSelect(s)
  {
    if kind == "mssql" {
      var head := "SELECT DISTINCT TOP ";
      StartsWithAppend(head, n + " ");
      StartsWithTrans(s, head + n + " ", head);
      StartsWithTrans(s, head, "SELECT ");
      EndsWithLast(s, " IS NOT NULL");
      assert |s| >= |head| + |n| + 1;
    } else {
      StartsWithTrans(s, "SELECT DISTINCT ", "SELECT ");
      EndsWithLast(s, " LIMIT " + n);
      LastOfAppend(" LIMIT ", n);
      DigitNotSpace(n[|n| - 1]);
      assert |s| >= 16;
    }
    SelectHeaded(s);
  }

  /** A text that starts with `SELECT ` followed by more, and does not end in whitespace,
      passes the SELECT test. */
  lemma SelectHeaded(s: string)
    requires StartsWith(s, "SELECT ") && |s| > 7 && !IsSpace(s[|s| - 1])
    ensures StartsWithSelect(s)
  {
    var rest := s[7..];
    assert s == "SELECT " + rest;
    assert rest[|rest| - 1] == s[|s| - 1];
    SelectPrefixPasses(rest);
  }

  /** A `schema` that Python finds truthy: given and not empty. */
  predicate HasSchema(t: TableRef)
  {
    t.schema.Some? && t.schema.value != ""
  }

  /** `build_schema_query`: the name is split and whitelisted (the schema only when truthy),
      then the engine's INFORMATION_SCHEMA form; a falsy `max_columns` adds no row limit. */
  function BuildSchemaQuery(kind: string, table: string, maxColumns: int): (r: Result<string>)
    ensures r.Success? <==>
              && SplitTableName(table).Success?
              && ValidIdentifier(SplitTableName(table).value.table)
              && (HasSchema(SplitTableName(table).value) ==> ValidIdentifier(SplitTableName(table).value.schema.value))
    ensures r.Success? ==> r.value == SchemaSql(kind, SplitTableName(table).value, maxColumns)
  {
    match SplitTableName(table)
    case Failure(e) => Failure(e)
    case Success(t) =>
      if CheckIdentifier(t.table).Some? then Failure(CheckIdentifier(t.table).value)
      else if HasSchema(t) && CheckIdentifier(t.schema.value).Some? then Failure(CheckIdentifier(t.schema.value).value)
      else Success(SchemaSql(kind, t, maxColumns))
  }

  /** The INFORMATION_SCHEMA query text for a split, whitelisted name. */
  function SchemaSql(kind: string, t: TableRef, maxColumns: int): string
  {
    if kind == "mssql" then "SELECT " + (MssqlTop(maxColumns) + MssqlColumns(t.table, MssqlSchemaClause(t)))
    else "SELECT " + (OtherColumns(t.table, OtherSchemaClause(t)) + OtherLimit(maxColumns))
  }

  /** `f"TOP {max_columns} " if max_columns else ""` */
  function MssqlTop(maxColumns: int): string
  {
    if maxColumns != 0 then "TOP " + IntToString(maxColumns) + " " else ""
  }

  /** `f" LIMIT {max_columns}" if max_columns else ""` */
  function OtherLimit(maxColumns: int): string
  {
    if maxColumns != 0 then " LIMIT " + IntToString(maxColumns) else ""
  }

  /** The SQL Server schema clause, only for a truthy schema. */
  function MssqlSchemaClause(t: TableRef): string
  {
    if HasSchema(t) then " AND TABLE_SCHEMA = '" + t.schema.value + "'" else ""
  }

  /** The MariaDB and DuckDB schema clause, only for a truthy schema. */
  function OtherSchemaClause(t: TableRef): string
  {
    if HasSchema(t) then " AND table_schema = '" + t.schema.value + "'" else ""
  }

  /** The SQL Server column query after its optional TOP, given the schema clause. */
  function MssqlColumns(table: string, schemaClause: string): string
  {
    MssqlTableFilter(table) + schemaClause + " ORDER BY ORDINAL_POSITION"
  }

  function MssqlTableFilter(table: string): (r: string)
    ensures |r| > 0 && r[0] == 'C'
  {
    "COLUMN_NAME" + ", DATA_TYPE FROM INFORMATION_SCHEMA.COLUMNS WHERE TABLE_NAME = '" + table + "'"
  }

  /** The MariaDB and DuckDB column query before its optional LIMIT, given the schema clause. */
  function OtherColumns(table: string, schemaClause: string): string
  {
    OtherTableFilter(table) + schemaClause + " ORDER BY ordinal_position"
  }

  function OtherTableFilter(table: string): string
  {
    "column_name, data_type FROM information_schema.columns WHERE table_name = '" + table + "'"
  }

  /** Every query the INFORMATION_SCHEMA builder produces gets past the SELECT test too. */
  lemma SchemaQueryStartsWithSelect(kind: string, table: string, maxColumns: int)
    requires BuildSchemaQuery(kind, table, maxColumns).Success?
    ensures StartsWithSelect(BuildSchemaQuery(kind, table, maxColumns).value)
  {
    SchemaSqlStartsWithSelect(kind, SplitTableName(table).value, maxColumns);
  }

  lemma SchemaSqlStartsWithSelect(kind: string, t: TableRef, maxColumns: int)
    ensures StartsWithSelect(SchemaSql(kind, t, maxColumns))
  {
    if kind == "mssql" {
      MssqlSchemaSql(kind, t, maxColumns);
    } else {
      OtherSchemaSql(kind, t, maxColumns);
    }
  }

  /** The SQL Server form ends with the ORDER BY column. */
  lemma MssqlSchemaSql(kind: string, t: TableRef, maxColumns: int)
    requires kind == "mssql"
    ensures StartsWithSelect(SchemaSql(kind, t, maxColumns))
  {
    var order := " ORDER BY ORDINAL_POSITION";
    var front := MssqlTableFilter(t.table) + MssqlSchemaClause(t);
    assert order[|order| - 1] == 'N';
    LastOfAppend(front, order);
    LastOfAppend(MssqlTop(maxColumns), front + order);
    SelectPrefixPasses(MssqlTop(maxColumns) + MssqlColumns(t.table, MssqlSchemaClause(t)));
  }

  /** The MariaDB and DuckDB form ends with the ORDER BY column or the limit's last digit. */
  lemma OtherSchemaSql(kind: string, t: TableRef, maxColumns: int)
    requires kind != "mssql"
    ensures StartsWithSelect(SchemaSql(kind, t, maxColumns))
  {
    OtherLast(t, maxColumns);
    SelectPrefixPasses(OtherColumns(t.table, OtherSchemaClause(t)) + OtherLimit(maxColumns));
  }

  /** The last character of the MariaDB and DuckDB form: the limit's last digit, or the `n`
      that ends `ordinal_position`. */
  lemma OtherLast(t: TableRef, maxColumns: int)
    ensures var rest := OtherColumns(t.table, OtherSchemaClause(t)) + OtherLimit(maxColumns);
            |rest| > 0 && !IsSpace(rest[|rest| - 1])
            && (maxColumns == 0 <==> rest[|rest| - 1] == 'n')
  {
    var order := " ORDER BY ordinal_position";
    var front := OtherTableFilter(t.table) + OtherSchemaClause(t);
    var cols := OtherColumns(t.table, OtherSchemaClause(t));
    assert order[|order| - 1] == 'n';
    LastOfAppend(front, order);
    if maxColumns != 0 {
      var n := IntToString(maxColumns);
      LastOfAppend(" LIMIT ", n);
      LastOfAppend(cols, OtherLimit(maxColumns));
      DigitNotSpace(n[|n| - 1]);
    } else {
      assert cols + OtherLimit(maxColumns) == cols;
    }
  }

  /** SQL Server: `TOP max_columns` follows SELECT exactly when `max_columns` is truthy. */
  lemma SchemaSqlTop(kind: string, t: TableRef, maxColumns: int)
    requires kind == "mssql"
    ensures StartsWith(SchemaSql(kind, t, maxColumns), "SELECT TOP ") <==> maxColumns != 0
    ensures maxColumns != 0 ==>
              StartsWith(SchemaSql(kind, t, maxColumns), "SELECT TOP " + IntToString(maxColumns) + " ")
  {
    var clause := MssqlSchemaClause(t);
    FirstOfAppend(MssqlTableFilter(t.table), clause);
    FirstOfAppend(MssqlTableFilter(t.table) + clause, " ORDER BY ORDINAL_POSITION");
    var d := if maxColumns != 0 then IntToString(maxColumns) else "";
    TopShape(SchemaSql(kind, t, maxColumns), MssqlTop(maxColumns), MssqlColumns(t.table, clause), d);
  }

  lemma TopShape(s: string, top: string, cols: string, d: string)
    requires s == "SELECT " + (top + cols)
    requires |cols| > 0 && cols[0] == 'C'
    requires d != [] ==> top == "TOP " + d + " "
    requires d == [] ==> top == []
    ensures StartsWith(s, "SELECT TOP ") <==> d != []
    ensures d != [] ==> StartsWith(s, "SELECT TOP " + d + " ")
  {
    if d != [] {
      assert s == "SELECT TOP " + d + " " + cols;
      StartsWithAppend("SELECT TOP " + d + " ", cols);
      StartsWithAppend("SELECT TOP ", d + " ");
      StartsWithTrans(s, "SELECT TOP " + d + " ", "SELECT TOP ");
    } else {
      assert s == "SELECT " + cols;
      assert s[7] == 'C';
      assert |s| < 11 || s[..11][7] == 'C';
    }
  }

  /** MariaDB and DuckDB: the query ends with ` LIMIT max_columns` when `max_columns` is truthy,
      and with the ORDER BY column exactly when it is not. */
  lemma SchemaSqlLimit(kind: string, t: TableRef, maxColumns: int)
    requires kind != "mssql"
    ensures maxColumns != 0 ==> EndsWith(SchemaSql(kind, t, maxColumns), " LIMIT " + IntToString(maxColumns))
    ensures EndsWith(SchemaSql(kind, t, maxColumns), " ORDER BY ordinal_position") <==> maxColumns == 0
  {
    var clause := OtherSchemaClause(t);
    EndsWithAppend(OtherTableFilter(t.table) + clause, " ORDER BY ordinal_position");
    var d := if maxColumns != 0 then IntToString(maxColumns) else "";
    LimitShape(SchemaSql(kind, t, maxColumns), OtherColumns(t.table, clause), OtherLimit(maxColumns), d);
  }

  lemma LimitShape(s: string, cols: string, lim: string, d: string)
    requires s == "SELECT " + (cols + lim)
    requires EndsWith(cols, " ORDER BY ordinal_position")
    requires d != [] ==> lim == " LIMIT " + d && IsDigit(d[|d| - 1])
    requires d == [] ==> lim == []
    ensures d != [] ==> EndsWith(s, " LIMIT " + d)
    ensures EndsWith(s, " ORDER BY ordinal_position") <==> d == []
  {
    var order := " ORDER BY ordinal_position";
    if d != [] {
      assert s == ("SELECT " + cols) + lim;
      EndsWithAppend("SELECT " + cols, lim);
      EndsWithLast(s, lim);
      LastOfAppend(" LIMIT ", d);
      assert order[|order| - 1] == 'n';
      assert s[|s| - 1] != 'n';
      if |order| <= |s| {
        assert s[|s| - |order|..][|order| - 1] == s[|s| - 1];
      }
    } else {
      assert s == "SELECT " + cols;
      EndsWithPrepend("SELECT ", cols, order);
    }
  }

  /** A truthy schema is part of the query, in the engine's own clause. */
  lemma SchemaSqlSchemaClause(kind: string, t: TableRef, maxColumns: int)
    requires HasSchema(t)
    ensures kind == "mssql" ==>
              Contains(SchemaSql(kind, t, maxColumns), " AND TABLE_SCHEMA = '" + t.schema.value + "'")
    ensures kind != "mssql" ==>
              Contains(SchemaSql(kind, t, maxColumns), " AND table_schema = '" + t.schema.value + "'")
  {
    if kind == "mssql" {
      ContainsMssqlClause(SchemaSql(kind, t, maxColumns), MssqlTop(maxColumns), MssqlTableFilter(t.table),
                          MssqlSchemaClause(t), " ORDER BY ORDINAL_POSITION");
    } else {
      ContainsOtherClause(SchemaSql(kind, t, maxColumns), OtherTableFilter(t.table), OtherSchemaClause(t),
                          " ORDER BY ordinal_position", OtherLimit(maxColumns));
    }
  }

  /** A falsy schema (absent or empty) leaves the query that of the bare table name. */
  lemma SchemaSqlNoSchema(kind: string, t: TableRef, maxColumns: int)
    requires !HasSchema(t)
    ensures SchemaSql(kind, t, maxColumns) == SchemaSql(kind, TableRef(None, t.table), maxColumns)
  {
    var bare := TableRef(None, t.table);
    assert MssqlSchemaClause(t) == "" == MssqlSchemaClause(bare);
    assert OtherSchemaClause(t) == "" == OtherSchemaClause(bare);
  }

  lemma ContainsMssqlClause(s: string, a: string, b: string, x: string, c: string)
    requires s == "SELECT " + (a + (b + x + c))
    ensures Contains(s, x)
  {
    assert s == ("SELECT " + a + b) + x + c;
    ContainsMiddle("SELECT " + a + b, x, c);
  }

  lemma ContainsOtherClause(s: string, b: string, x: string, c: string, d: string)
    requires s == "SELECT " + (b + x + c + d)
    ensures Contains(s, x)
  {
    assert s == ("SELECT " + b) + x + (c + d);
    ContainsMiddle("SELECT " + b, x, c + d);
  }

  lemma EndsWithLast(s: string, p: string)
    requires EndsWith(s, p) && p != []
    ensures s[|s| - 1] == p[|p| - 1]
  {
    assert s[|s| - |p|..][|p| - 1] == s[|s| - 1];
  }

  lemma FirstOfAppend(a: string, b: string)
    requires a != []
    ensures (a + b)[0] == a[0]
  {
  }

  lemma LastOfAppend(a: string, b: string)
    requires b != []
    ensures (a + b)[|a + b| - 1] == b[|b| - 1]
  {
  }

  lemma SplitEmptySchema(name: string)
    requires '.' !in name
    ensures SplitTableName("." + name) == Success(TableRef(Some(""), name))
    ensures SplitTableName(name) == Success(TableRef(None, name))
  {
    assert NoneIn(name, {'.'});
    SplitJoin(["", name], '.', {'.'});
    assert Join(".", ["", name]) == "." + name;
    SplitJoin([name], '.', {'.'});
  }

  /** A name with an empty schema part (".orders") is looked up in every schema, as if unqualified. */
  lemma EmptySchemaUnqualified(kind: string, name: string, maxColumns: int)
    requires '.' !in name
    ensures SplitTableName("." + name) == Success(TableRef(Some(""), name))
    ensures BuildSchemaQuery(kind, "." + name, maxColumns) == BuildSchemaQuery(kind, name, maxColumns)
  {
    SplitEmptySchema(name);
    SchemaSqlEmptySchema(kind, name, maxColumns);
  }

  lemma SchemaSqlEmptySchema(kind: string, name: string, maxColumns: int)
    ensures SchemaSql(kind, TableRef(Some(""), name), maxColumns) == SchemaSql(kind, TableRef(None, name), maxColumns)
  {
    SchemaSqlNoSchema(kind, TableRef(Some(""), name), maxColumns);
  }

  // ---------------------------------------------------------------- lookups

  /** A cell `fetch_distinct_values` keeps, as the text it keeps: not NA, not blank. */
  function DistinctEntry(v: Value): (r: Option<string>)
    ensures r.Some? <==> !IsNA(v) && !AllSpace(Str(v))
    ensures r.Some? ==> r.value == Str(v)
  {
    if IsNA(v) || AllSpace(Str(v)) then None else Some(Str(v))
  }

  /** The column's cells, in row order. */
  function ColumnValues(rows: seq<Row>, column: string): seq<Value>
  {
    seq(|rows|, i requires 0 <= i < |rows| => Get(rows[i], column))
  }

  /** The values of a DISTINCT result: every non-NA, non-blank cell as text, in order. */
  function DistinctValues(values: seq<Value>): seq<string>
  {
    Somes(DistinctEntries(values))
  }

  function DistinctEntries(values: seq<Value>): (r: seq<Option<string>>)
    ensures |r| == |values| && forall i :: 0 <= i < |values| ==> r[i] == DistinctEntry(values[i])
  {
    seq(|values|, i requires 0 <= i < |values| => DistinctEntry(values[i]))
  }

  /** Exactly the non-NA, non-blank cells come back, as their text; none comes back blank. */
  lemma DistinctValuesSpec(values: seq<Value>)
    ensures |DistinctValues(values)| <= |values|
    ensures forall i :: 0 <= i < |values| && !IsNA(values[i]) && !AllSpace(Str(values[i])) ==>
              Str(values[i]) in DistinctValues(values)
    ensures forall s :: s in DistinctValues(values) ==>
              exists i :: 0 <= i < |values| && !IsNA(values[i]) && !AllSpace(Str(values[i])) && s == Str(values[i])
    ensures forall s :: s in DistinctValues(values) ==> !AllSpace(s)
  {
    var entries := DistinctEntries(values);
    SomesSpec(entries);
    forall i | 0 <= i < |values| && !IsNA(values[i]) && !AllSpace(Str(values[i]))
      ensures Str(values[i]) in DistinctValues(values)
    {
      assert entries[i] == Some(Str(values[i]));
    }
    forall s | s in DistinctValues(values)
      ensures exists i :: 0 <= i < |values| && !IsNA(values[i]) && !AllSpace(Str(values[i])) && s == Str(values[i])
    {
      var i :| 0 <= i < |entries| && entries[i] == Some(s);
    }
  }

  /** One more cell adds its text at the end exactly when it is kept. */
  lemma {:induction false} DistinctValuesSnoc(values: seq<Value>, v: Value)
    ensures DistinctValues(values + [v]) ==
              DistinctValues(values) + (if !IsNA(v) && !AllSpace(Str(v)) then [Str(v)] else [])
  {
    var entries := DistinctEntries(values + [v]);
    assert entries[..|values|] == DistinctEntries(values);
    assert entries[|values|] == DistinctEntry(v);
  }

  /** `fetch_distinct_values`: build, execute with `max_rows = limit`, and keep each usable value;
      an empty frame or a missing column gives `[]`. */
  method FetchDistinctValues(kind: string, table: string, column: string, limit: nat, run: QueryOracle)
    returns (r: Result<seq<string>>)
    ensures BuildDistinctQuery(kind, table, column, limit).Failure? ==>
              r == Failure(BuildDistinctQuery(kind, table, column, limit).error)
    ensures BuildDistinctQuery(kind, table, column, limit).Success? ==>
              var res := ExecuteQuery(kind, BuildDistinctQuery(kind, table, column, limit).value, limit, run).result;
              && (res.Failure? ==> r == Failure(res.error))
              && (res.Success? && (FrameEmpty(res.value) || column !in res.value.columns) ==> r == Success([]))
              && (res.Success? && !FrameEmpty(res.value) && column in res.value.columns ==>
                    r == Success(DistinctValues(ColumnValues(res.value.rows, column))))
    ensures r.Success? ==> |r.value| <= limit
  {
    var sql := BuildDistinctQuery(kind, table, column, limit);
    if sql.Failure? {
      return Failure(sql.error);
    }
    var res := ExecuteQuery(kind, sql.value, limit, run).result;
    if res.Failure? {
      return Failure(res.error);
    }
    var df := res.value;
    if FrameEmpty(df) || column !in df.columns {
      return Success([]);
    }
    var values := KeepDistinct(ColumnValues(df.rows, column));
    DistinctValuesSpec(ColumnValues(df.rows, column));
    r := Success(values);
  }

  /** The loop of `fetch_distinct_values` over the column's cells. */
  method KeepDistinct(cells: seq<Value>) returns (values: seq<string>)
    ensures values == DistinctValues(cells)
  {
    values := [];
    var i := 0;
    while i < |cells|
      invariant 0 <= i <= |cells|
      invariant values == DistinctValues(cells[..i])
    {
      var v := cells[i];
      assert cells[..i + 1] == cells[..i] + [v];
      DistinctValuesSnoc(cells[..i], v);
      if IsNA(v) || AllSpace(Str(v)) {
        i := i + 1;
        continue;
      }
      values := values + [Str(v)];
      i := i + 1;
    }
    assert cells[..i] == cells;
  }

  /** The first column whose name equals `key` ignoring case, or |columns| when there is none. */
  function FirstColumnCi(columns: seq<string>, key: string): (i: nat)
    ensures i <= |columns|
    ensures i < |columns| ==> Lower(columns[i]) == Lower(key)
    ensures forall j :: 0 <= j < i ==> Lower(columns[j]) != Lower(key)
  {
    if columns == [] then 0
    else if Lower(columns[0]) == Lower(key) then 0
    else 1 + FirstColumnCi(columns[1..], key)
  }

  /** `_get_ci(row, key)`: the cell under that column, or None. */
  function GetCi(columns: seq<string>, row: Row, key: string): Value
  {
    var i := FirstColumnCi(columns, key);
    if i < |columns| then Get(row, columns[i]) else VNone
  }

  /** One schema row as `fetch_table_schema` renders it: "name (type)", "name" without a type,
      nothing without a name. */
  function SchemaEntry(columns: seq<string>, row: Row): (r: Option<string>)
    ensures r.Some? <==> !GetCi(columns, row, "column_name").VNone?
    ensures r.Some? ==> StartsWith(r.value, Str(GetCi(columns, row, "column_name")))
    ensures r.Some? && GetCi(columns, row, "data_type").VNone? ==> r.value == Str(GetCi(columns, row, "column_name"))
  {
    var name := GetCi(columns, row, "column_name");
    var dtype := GetCi(columns, row, "data_type");
    if name.VNone? then None
    else if dtype.VNone? then Some(Str(name))
    else Some(Str(name) + " (" + Str(dtype) + ")")
  }

  function SchemaEntries(columns: seq<string>, rows: seq<Row>): (r: seq<Option<string>>)
    ensures |r| == |rows| && forall i :: 0 <= i < |rows| ==> r[i] == SchemaEntry(columns, rows[i])
  {
    seq(|rows|, i requires 0 <= i < |rows| => SchemaEntry(columns, rows[i]))
  }

  /** The column list `fetch_table_schema` builds from the rows of a schema query. */
  function SchemaColumns(columns: seq<string>, rows: seq<Row>): seq<string>
  {
    Somes(SchemaEntries(columns, rows))
  }

  /** A result column named in any letter case is found, and its rows are rendered in order. */
  lemma SchemaColumnsSpec(columns: seq<string>, rows: seq<Row>)
    ensures |SchemaColumns(columns, rows)| <= |rows|
    ensures forall i :: 0 <= i < |rows| && !GetCi(columns, rows[i], "column_name").VNone? ==>
              SchemaEntry(columns, rows[i]).value in SchemaColumns(columns, rows)
    ensures forall s :: s in SchemaColumns(columns, rows) ==>
              exists i :: 0 <= i < |rows| && SchemaEntry(columns, rows[i]) == Some(s)
  {
    var entries := SchemaEntries(columns, rows);
    SomesSpec(entries);
    forall i | 0 <= i < |rows| && !GetCi(columns, rows[i], "column_name").VNone?
      ensures SchemaEntry(columns, rows[i]).value in SchemaColumns(columns, rows)
    {
      assert entries[i] == SchemaEntry(columns, rows[i]);
    }
    forall s | s in SchemaColumns(columns, rows)
      ensures exists i :: 0 <= i < |rows| && SchemaEntry(columns, rows[i]) == Some(s)
    {
      var i :| 0 <= i < |entries| && entries[i] == Some(s);
    }
  }

  /** Upper-case column names, as SQL Server reports them, are read like lower-case ones. */
  lemma GetCiExample(row: Row)
    ensures GetCi(["COLUMN_NAME", "DATA_TYPE"], row, "column_name") == Get(row, "COLUMN_NAME")
    ensures GetCi(["COLUMN_NAME", "DATA_TYPE"], row, "data_type") == Get(row, "DATA_TYPE")
  {
    assert Lower("COLUMN_NAME") == "column_name";
    assert Lower("DATA_TYPE") == "data_type";
    assert Lower("COLUMN_NAME") != Lower("data_type");
  }

  /** `fetch_table_schema`: build, execute with `max_rows = max_columns`, render each row. */
  method FetchTableSchema(kind: string, table: string, maxColumns: nat, run: QueryOracle)
    returns (r: Result<seq<string>>)
    ensures BuildSchemaQuery(kind, table, maxColumns).Failure? ==>
              r == Failure(BuildSchemaQuery(kind, table, maxColumns).error)
    ensures BuildSchemaQuery(kind, table, maxColumns).Success? ==>
              var res := ExecuteQuery(kind, BuildSchemaQuery(kind, table, maxColumns).value, maxColumns, run).result;
              && (res.Failure? ==> r == Failure(res.error))
              && (res.Success? && FrameEmpty(res.value) ==> r == Success([]))
              && (res.Success? && !FrameEmpty(res.value) ==>
                    r == Success(SchemaColumns(res.value.columns, res.value.rows)))
    ensures r.Success? ==> |r.value| <= maxColumns
  {
    var sql := BuildSchemaQuery(kind, table, maxColumns);
    if sql.Failure? {
      return Failure(sql.error);
    }
    var res := ExecuteQuery(kind, sql.value, maxColumns, run).result;
    if res.Failure? {
      return Failure(res.error);
    }
    var df := res.value;
    if FrameEmpty(df) {
      return Success([]);
    }
    var columns := RenderSchema(df.columns, df.rows);
    SchemaColumnsSpec(df.columns, df.rows);
    r := Success(columns);
  }

  /** The loop of `fetch_table_schema` over the result rows. */
  method RenderSchema(names: seq<string>, rows: seq<Row>) returns (columns: seq<string>)
    ensures columns == SchemaColumns(names, rows)
  {
    ghost var entries := SchemaEntries(names, rows);
    columns := [];
    var i := 0;
    while i < |rows|
      invariant 0 <= i <= |rows|
      invariant columns == Somes(entries[..i])
    {
      var row := rows[i];
      assert entries[..i + 1][..i] == entries[..i];
      assert entries[i] == SchemaEntry(names, row);
      var name := GetCi(names, row, "column_name");
      var dtype := GetCi(names, row, "data_type");
      if name.VNone? {
        i := i + 1;
        continue;
      }
      if dtype.VNone? {
        columns := columns + [Str(name)];
      } else {
        columns := columns + [Str(name) + " (" + Str(dtype) + ")"];
      }
      i := i + 1;
    }
    assert entries[..i] == entries;
  }

  // ---------------------------------------------------------------- the row-limit rewrite

  /** `\b<kw>\s+\d+` (ignoring case) matches at i. */
  predicate ClauseAt(q: string, kw: string, i: nat)
  {
    && i + |kw| <= |q|
    && Boundary(q, i)
    && MatchesAt(q, i, kw, true)
    && SkipSpaces(q, i + |kw|) > i + |kw|
    && SkipDigits(q, SkipSpaces(q, i + |kw|)) > SkipSpaces(q, i + |kw|)
  }

  /** Where a clause found at i ends: after the greedy spaces and digits. */
  function ClauseEnd(q: string, kw: string, i: nat): (e: nat)
    requires i + |kw| <= |q|
    ensures i + |kw| <= e <= |q|
  {
    SkipDigits(q, SkipSpaces(q, i + |kw|))
  }

  /** `re.search`: the first position at or after `from` where the clause matches. */
  function FindClause(q: string, kw: string, from: nat): (r: Option<nat>)
    ensures r.Some? ==> from <= r.value && ClauseAt(q, kw, r.value)
    ensures r.Some? ==> forall j :: from <= j < r.value ==> !ClauseAt(q, kw, j)
    ensures r.None? ==> forall j :: from <= j ==> !ClauseAt(q, kw, j)
    decreases |q| - from
  {
    if from + |kw| > |q| then None
    else if ClauseAt(q, kw, from) then Some(from)
    else FindClause(q, kw, from + 1)
  }

  /** The number a clause at i carries: the digits after the keyword and its spaces. */
  function ClauseNumber(q: string, kw: string, i: nat): string
    requires i + |kw| <= |q|
  {
    q[SkipSpaces(q, i + |kw|)..ClauseEnd(q, kw, i)]
  }

  /** `re.sub(pattern, f"{kw} {n}", q, count=1)`: the first clause gives way to `kw n`, in the
      keyword's own case; the text before and after it is kept. */
  function ReplaceClause(q: string, kw: string, n: int): (r: string)
    ensures FindClause(q, kw, 0).None? ==> r == q
    ensures FindClause(q, kw, 0).Some? ==>
              var i := FindClause(q, kw, 0).value;
              var rest := q[ClauseEnd(q, kw, i)..];
              && |r| == i + |kw| + 1 + |IntToString(n)| + |rest|
              && StartsWith(r, q[..i])
              && EndsWith(r, rest)
              && r[i..|r| - |rest|] == kw + " " + IntToString(n)
  {
    match FindClause(q, kw, 0)
    case None => q
    case Some(i) =>
      var rest := q[ClauseEnd(q, kw, i)..];
      WrittenParts(q[..i], kw, IntToString(n), rest);
      q[..i] + kw + " " + IntToString(n) + rest
  }

  /** Where the three parts of a text with one piece rewritten sit. */
  lemma WrittenParts(pre: string, kw: string, d: string, post: string)
    ensures var w := pre + kw + " " + d + post;
            && |w| == |pre| + |kw| + 1 + |d| + |post|
            && StartsWith(w, pre)
            && EndsWith(w, post)
            && w[|pre|..|w| - |post|] == kw + " " + d
  {
    var w := pre + kw + " " + d + post;
    assert w[..|pre|] == pre;
    assert w[|w| - |post|..] == post;
    assert w[|pre|..|w| - |post|] == kw + " " + d;
  }

  /** The limit rewrite of `_fetch_sql`. A falsy limit changes nothing. SQL Server: replace the
      first `TOP n`, or else put `TOP limit` after the first literal, case-sensitive `SELECT`.
      MariaDB and DuckDB: drop trailing whitespace and semicolons, then replace the first
      `LIMIT n` or else append ` LIMIT limit`. */
  function LimitQuery(kind: string, query: string, limit: Option<int>): string
  {
    if limit.None? || limit.value == 0 then query
    else if kind == "mssql" then LimitTop(query, limit.value)
    else if kind == "mariadb" || kind == "duckdb" then LimitOther(RStripChar(RStrip(query), ';'), limit.value)
    else query
  }

  /** The SQL Server branch of the rewrite. */
  function LimitTop(query: string, n: int): string
  {
    if FindClause(query, "TOP", 0).Some? then ReplaceClause(query, "TOP", n)
    else ReplaceFirst(query, "SELECT", "SELECT TOP " + IntToString(n))
  }

  /** The MariaDB and DuckDB branch, on the query already stripped. */
  function LimitOther(q: string, n: int): string
  {
    if FindClause(q, "LIMIT", 0).Some? then ReplaceClause(q, "LIMIT", n)
    else q + " LIMIT " + IntToString(n)
  }

  /** A falsy limit, or an engine without a rewrite, leaves the query as it is. */
  lemma LimitQueryFalsy(kind: string, query: string, limit: Option<int>)
    ensures LimitQuery(kind, query, None) == query
    ensures LimitQuery(kind, query, Some(0)) == query
    ensures kind !in {"mssql", "mariadb", "duckdb"} ==> LimitQuery(kind, query, limit) == query
  {
  }

  lemma DigitNotSpace(c: char)
    requires IsDigit(c)
    ensures !IsSpace(c)
  {
  }

  /** A keyword the rewrite writes: upper-case ASCII letters. */
  predicate Keyword(kw: string)
  {
    |kw| >= 1 && forall k :: 0 <= k < |kw| ==> IsUpperAscii(kw[k])
  }

  /** No `\s*\d` starts at k: whatever spaces follow, no digit comes after them. */
  predicate NoNumberAt(q: string, k: nat)
    requires k <= |q|
  {
    SkipSpaces(q, k) == |q| || !IsDigit(q[SkipSpaces(q, k)])
  }

  lemma NoDigitAt(q: string, k: nat)
    requires k <= |q| && NoNumberAt(q, k)
    ensures k == |q| || !IsDigit(q[k])
  {
    if k < |q| && !IsSpace(q[k]) {
      assert SkipSpaces(q, k) == k;
    }
  }

  /** A letter stops both runs. */
  lemma LetterNoNumber(q: string, k: nat)
    requires k < |q| && (IsUpperAscii(q[k]) || IsLowerAscii(q[k]))
    ensures NoNumberAt(q, k)
  {
    assert SkipSpaces(q, k) == k;
  }

  /** A keyword followed directly by a letter is no clause. */
  lemma LetterAfterKeyword(q: string, kw: string, j: nat)
    requires j + |kw| < |q| && IsUpperAscii(q[j + |kw|])
    ensures !ClauseAt(q, kw, j)
  {
    assert SkipSpaces(q, j + |kw|) == j + |kw|;
  }

  /** Clauses that end before k are the same in two texts that agree below k, when no number
      can run on past k in either. */
  lemma ClauseAtLocal(a: string, b: string, kw: string, j: nat, k: nat)
    requires |kw| >= 1 && j + |kw| <= k <= |a| && k <= |b| && a[..k] == b[..k]
    requires NoNumberAt(a, k) && NoNumberAt(b, k)
    ensures ClauseAt(a, kw, j) == ClauseAt(b, kw, j)
  {
    KeywordLocal(a, b, kw, j, k);
    NumberLocal(a, b, j + |kw|, k);
  }

  lemma KeywordLocal(a: string, b: string, kw: string, j: nat, k: nat)
    requires |kw| >= 1 && j + |kw| <= k <= |a| && k <= |b| && a[..k] == b[..k]
    ensures Boundary(a, j) == Boundary(b, j)
    ensures MatchesAt(a, j, kw, true) == MatchesAt(b, j, kw, true)
  {
    AgreeBelow(a, b, k, j, j + |kw|);
    if j > 0 {
      AgreeBelow(a, b, k, j - 1, j);
    }
  }

  /** A clause-free stretch below k stays clause-free in a text that agrees with it below k. */
  lemma NoClauseBelow(a: string, b: string, kw: string, k: nat)
    requires |kw| >= 1 && k <= |a| && k <= |b| && a[..k] == b[..k]
    requires NoNumberAt(a, k) && NoNumberAt(b, k)
    requires forall j :: 0 <= j && j + |kw| <= k ==> !ClauseAt(a, kw, j)
    ensures forall j :: 0 <= j && j + |kw| <= k ==> !ClauseAt(b, kw, j)
  {
    forall j | 0 <= j && j + |kw| <= k
      ensures !ClauseAt(b, kw, j)
    {
      ClauseAtLocal(a, b, kw, j, k);
    }
  }

  lemma AgreeBelow(a: string, b: string, k: nat, x: nat, y: nat)
    requires x < y <= k <= |a| && k <= |b| && a[..k] == b[..k]
    ensures a[x..y] == b[x..y] && a[x] == b[x]
  {
    assert a[x..y] == a[..k][x..y];
    assert b[x..y] == b[..k][x..y];
  }

  /** `\s+\d+` from s0 matches in both texts or in neither. */
  predicate NumberFrom(q: string, s0: nat)
    requires s0 <= |q|
  {
    SkipSpaces(q, s0) > s0 && SkipDigits(q, SkipSpaces(q, s0)) > SkipSpaces(q, s0)
  }

  lemma NumberLocal(a: string, b: string, s0: nat, k: nat)
    requires s0 <= k <= |a| && k <= |b| && a[..k] == b[..k]
    requires NoNumberAt(a, k) && NoNumberAt(b, k)
    ensures NumberFrom(a, s0) == NumberFrom(b, s0)
  {
    NoDigitAt(a, k);
    NoDigitAt(b, k);
    SkipSpacesAgree(a, b, s0, k);
    if SkipSpaces(a, s0) < k {
      SkipDigitsLocal(a, b, SkipSpaces(a, s0), k);
    } else {
      SkipSpacesThrough(a, s0, k);
      SkipSpacesThrough(b, s0, k);
    }
  }

  /** A clause at t with none before it is what the search from the start finds. */
  lemma FindClauseIs(q: string, kw: string, t: nat)
    requires ClauseAt(q, kw, t)
    requires forall j :: 0 <= j < t ==> !ClauseAt(q, kw, j)
    ensures FindClause(q, kw, 0) == Some(t)
  {
  }

  /** `kw`, one space and the digits of n make a clause wherever a non-word character or the
      start of the text comes before them. */
  lemma ClauseWritten(pre: string, kw: string, n: nat, post: string)
    requires |kw| >= 1 && IsWordChar(kw[0])
    requires pre == [] || !IsWordChar(pre[|pre| - 1])
    ensures ClauseAt(pre + kw + " " + NatToString(n) + post, kw, |pre|)
  {
    var d := NatToString(n);
    var q := pre + kw + " " + d + post;
    var i := |pre|;
    assert q[i..i + |kw|] == kw;
    assert q[i + |kw|] == ' ';
    assert q[i + |kw| + 1] == d[0];
    ClauseAtIndex(q, kw, i);
  }

  /** The clause written as `kw d` carries exactly d when no digit follows. */
  lemma ClauseNumberWritten(pre: string, kw: string, d: string, post: string)
    requires |kw| >= 1 && |d| >= 1 && forall k :: 0 <= k < |d| ==> IsDigit(d[k])
    requires post == [] || !IsDigit(post[0])
    ensures |pre| + |kw| <= |pre + kw + " " + d + post|
    ensures ClauseEnd(pre + kw + " " + d + post, kw, |pre|) == |pre| + |kw| + 1 + |d|
    ensures ClauseNumber(pre + kw + " " + d + post, kw, |pre|) == d
  {
    var r := pre + kw + " " + d + post;
    var s0 := |pre| + |kw|;
    assert r[s0] == ' ' && r[s0 + 1] == d[0];
    DigitNotSpace(d[0]);
    assert SkipSpaces(r, s0 + 1) == s0 + 1;
    assert SkipSpaces(r, s0) == s0 + 1;
    assert r[s0 + 1..s0 + 1 + |d|] == d;
    forall k | s0 + 1 <= k < s0 + 1 + |d|
      ensures IsDigit(r[k])
    {
      assert r[k] == d[k - s0 - 1];
    }
    if post != [] {
      assert r[s0 + 1 + |d|] == post[0];
    }
    SkipDigitsOver(r, s0 + 1, |d|);
  }

  /** A clause read off position by position: the keyword at a word start, one space, a digit. */
  lemma ClauseAtIndex(q: string, kw: string, i: nat)
    requires |kw| >= 1 && IsWordChar(kw[0])
    requires i + |kw| + 2 <= |q|
    requires q[i..i + |kw|] == kw && q[i + |kw|] == ' ' && IsDigit(q[i + |kw| + 1])
    requires i == 0 || !IsWordChar(q[i - 1])
    ensures ClauseAt(q, kw, i)
  {
    assert q[i] == kw[0];
    DigitNotSpace(q[i + |kw| + 1]);
    assert SkipSpaces(q, i + |kw| + 1) == i + |kw| + 1;
  }

  /** Case mapping keeps a character a word character or not. */
  lemma LowerWordChar(c: char)
    ensures IsWordChar(LowerChar(c)) == IsWordChar(c)
  {
  }

  /** A clause of a letter keyword starts with a letter, at the start of a word. */
  lemma ClauseStartsWord(q: string, kw: string, i: nat)
    requires ClauseAt(q, kw, i) && Keyword(kw)
    ensures i == 0 || !IsWordChar(q[i - 1])
    ensures IsUpperAscii(q[i]) || IsLowerAscii(q[i])
  {
    assert Lower(q[i..i + |kw|])[0] == LowerChar(q[i]);
    assert Lower(kw)[0] == LowerChar(kw[0]);
    LowerWordChar(q[i]);
  }

  /** Replacing the first clause leaves a clause in its place, still the first one, carrying
      the new number. */
  lemma ReplaceClauseKeeps(q: string, kw: string, n: nat)
    requires FindClause(q, kw, 0).Some? && Keyword(kw)
    ensures FindClause(ReplaceClause(q, kw, n), kw, 0) == FindClause(q, kw, 0)
    ensures ClauseNumber(ReplaceClause(q, kw, n), kw, FindClause(q, kw, 0).value) == IntToString(n)
  {
    var i := FindClause(q, kw, 0).value;
    var e := ClauseEnd(q, kw, i);
    ReplacedText(q, kw, n);
    if e < |q| {
      assert q[e..][0] == q[e];
    }
    ClauseRewritten(q, kw, i, NatToString(n), q[e..]);
  }

  lemma ReplacedText(q: string, kw: string, n: nat)
    requires FindClause(q, kw, 0).Some?
    ensures ReplaceClause(q, kw, n) ==
              q[..FindClause(q, kw, 0).value] + kw + " " + NatToString(n)
              + q[ClauseEnd(q, kw, FindClause(q, kw, 0).value)..]
  {
  }

  /** The first clause of q rewritten as `kw d`: it stays the first clause, and carries d when
      no digit follows it. */
  lemma ClauseRewritten(q: string, kw: string, i: nat, d: string, post: string)
    requires Keyword(kw) && ClauseAt(q, kw, i) && forall j :: 0 <= j < i ==> !ClauseAt(q, kw, j)
    requires |d| >= 1 && forall k :: 0 <= k < |d| ==> IsDigit(d[k])
    requires post == [] || !IsDigit(post[0])
    ensures FindClause(q[..i] + kw + " " + d + post, kw, 0) == Some(i)
    ensures ClauseNumber(q[..i] + kw + " " + d + post, kw, i) == d
  {
    RewrittenClauseAt(q, kw, i, d, post);
    RewrittenNoEarlier(q, kw, i, d, post);
    FindClauseIs(q[..i] + kw + " " + d + post, kw, i);
    ClauseNumberWritten(q[..i], kw, d, post);
  }

  lemma RewrittenClauseAt(q: string, kw: string, i: nat, d: string, post: string)
    requires Keyword(kw) && ClauseAt(q, kw, i)
    requires |d| >= 1 && IsDigit(d[0])
    ensures ClauseAt(q[..i] + kw + " " + d + post, kw, i)
  {
    var w := q[..i] + kw + " " + d + post;
    ClauseStartsWord(q, kw, i);
    WrittenAt(q[..i], kw, d, post);
    if i > 0 {
      assert w[i - 1] == w[..i][i - 1] == q[i - 1];
    }
    ClauseAtIndex(w, kw, i);
  }

  lemma RewrittenNoEarlier(q: string, kw: string, i: nat, d: string, post: string)
    requires Keyword(kw) && ClauseAt(q, kw, i) && forall j :: 0 <= j < i ==> !ClauseAt(q, kw, j)
    requires |d| >= 1
    ensures forall j :: 0 <= j < i ==> !ClauseAt(q[..i] + kw + " " + d + post, kw, j)
  {
    ClauseStartsWord(q, kw, i);
    WrittenAt(q[..i], kw, d, post);
    ClauseReplacedFirst(q, kw, q[..i] + kw + " " + d + post, i);
  }

  /** Where the pieces of `pre + kw + " " + d + post` sit. */
  lemma WrittenAt(pre: string, kw: string, d: string, post: string)
    requires |d| >= 1
    ensures var w := pre + kw + " " + d + post;
            && |pre| + |kw| + 2 <= |w|
            && w[..|pre|] == pre
            && w[|pre|..|pre| + |kw|] == kw
            && w[|pre| + |kw|] == ' '
            && w[|pre| + |kw| + 1] == d[0]
  {
  }

  /** No clause of the rewritten text starts before the replaced one. */
  lemma ClauseReplacedFirst(q: string, kw: string, r: string, i: nat)
    requires Keyword(kw) && ClauseAt(q, kw, i) && forall j :: 0 <= j < i ==> !ClauseAt(q, kw, j)
    requires IsUpperAscii(q[i]) || IsLowerAscii(q[i])
    requires i + |kw| < |r| && r[..i] == q[..i] && r[i..i + |kw|] == kw
    ensures forall j :: 0 <= j < i ==> !ClauseAt(r, kw, j)
  {
    LetterNoNumber(q, i);
    assert r[i] == kw[0];
    LetterNoNumber(r, i);
    NoClauseBelow(q, r, kw, i);
    forall j | 0 <= j < i && j + |kw| > i
      ensures !ClauseAt(r, kw, j)
    {
      assert r[j + |kw|] == r[i..i + |kw|][j + |kw| - i] == kw[j + |kw| - i];
      LetterAfterKeyword(r, kw, j);
    }
  }

  /** ` LIMIT n` appended to a text without a clause is its first clause, and carries n. */
  lemma LimitAppended(q: string, n: nat)
    requires FindClause(q, "LIMIT", 0).None?
    ensures FindClause(q + " LIMIT " + IntToString(n), "LIMIT", 0) == Some(|q| + 1)
    ensures ClauseEnd(q + " LIMIT " + IntToString(n), "LIMIT", |q| + 1) == |q + " LIMIT " + IntToString(n)|
    ensures ClauseNumber(q + " LIMIT " + IntToString(n), "LIMIT", |q| + 1) == IntToString(n)
  {
    LimitWritten(q, NatToString(n));
  }

  lemma LimitWritten(q: string, d: string)
    requires FindClause(q, "LIMIT", 0).None?
    requires |d| >= 1 && forall k :: 0 <= k < |d| ==> IsDigit(d[k])
    ensures FindClause(q + " LIMIT " + d, "LIMIT", 0) == Some(|q| + 1)
    ensures ClauseEnd(q + " LIMIT " + d, "LIMIT", |q| + 1) == |q + " LIMIT " + d|
    ensures ClauseNumber(q + " LIMIT " + d, "LIMIT", |q| + 1) == d
  {
    var r := q + " LIMIT " + d;
    LimitWrittenAt(q, d);
    LimitWrittenPrefix(q, d);
    LimitAppendedFirst(q, r);
    FindClauseIs(r, "LIMIT", |q| + 1);
    assert r == (q + " ") + "LIMIT" + " " + d + [];
    ClauseNumberWritten(q + " ", "LIMIT", d, []);
  }

  lemma LimitWrittenAt(q: string, d: string)
    requires |d| >= 1 && IsDigit(d[0])
    ensures ClauseAt(q + " LIMIT " + d, "LIMIT", |q| + 1)
  {
    var r := q + " LIMIT " + d;
    assert r == (q + " ") + "LIMIT" + " " + d + [];
    WrittenAt(q + " ", "LIMIT", d, []);
    assert r[|q|] == (q + " ")[|q|] == ' ';
    ClauseAtIndex(r, "LIMIT", |q| + 1);
  }

  lemma LimitWrittenPrefix(q: string, d: string)
    ensures |q| + 7 <= |q + " LIMIT " + d| && (q + " LIMIT " + d)[..|q| + 7] == q + " LIMIT "
  {
  }

  /** No `LIMIT` clause starts before the appended one. */
  lemma LimitAppendedFirst(q: string, r: string)
    requires FindClause(q, "LIMIT", 0).None?
    requires |q| + 7 <= |r| && r[..|q| + 7] == q + " LIMIT "
    ensures forall j :: 0 <= j < |q| + 1 ==> !ClauseAt(r, "LIMIT", j)
  {
    var m := |q|;
    assert r[..m] == (q + " LIMIT ")[..m] == q[..m];
    assert r[m..m + 7] == (q + " LIMIT ")[m..m + 7] == " LIMIT ";
    LimitTailNoNumber(r, m);
    assert SkipSpaces(q, m) == m;
    NoClauseBelow(q, r, "LIMIT", m);
    forall j | 0 <= j < m + 1 && j + 5 > m
      ensures !ClauseAt(r, "LIMIT", j)
    {
      LimitNotInTail(r, m, j);
    }
  }

  lemma LimitTailNoNumber(r: string, m: nat)
    requires m + 7 <= |r| && r[m..m + 7] == " LIMIT "
    ensures NoNumberAt(r, m)
  {
    var s := r[m..m + 7];
    LimitLetters(s);
    assert r[m] == s[0] && r[m + 1] == s[1];
    assert SkipSpaces(r, m + 1) == m + 1;
  }

  /** No `LIMIT` clause starts inside the written ` LIMIT `, except at its `LIMIT`. */
  lemma LimitNotInTail(r: string, m: nat, j: nat)
    requires m + 7 <= |r| && r[m..m + 7] == " LIMIT "
    requires m < j + 5 <= m + 5
    ensures !ClauseAt(r, "LIMIT", j)
  {
    var s := r[m..m + 7];
    LimitLetters(s);
    assert r[j + 5] == s[j + 5 - m];
    LetterAfterKeyword(r, "LIMIT", j);
  }

  lemma LimitLetters(s: string)
    requires s == " LIMIT "
    ensures IsSpace(s[0])
    ensures forall k :: 1 <= k < 6 ==> IsUpperAscii(s[k])
  {
  }

  /** After the rewrite a MariaDB or DuckDB query carries `LIMIT limit` as its first `LIMIT`
      clause; the rewrite works on the query with trailing whitespace and semicolons dropped
      (what happens there is `LimitOtherSpec`). */
  lemma LimitQueryAddsLimit(kind: string, query: string, n: nat)
    requires kind == "mariadb" || kind == "duckdb"
    requires n > 0
    ensures LimitQuery(kind, query, Some(n)) == LimitOther(RStripChar(RStrip(query), ';'), n)
    ensures FindClause(LimitQuery(kind, query, Some(n)), "LIMIT", 0).Some?
    ensures ClauseNumber(LimitQuery(kind, query, Some(n)), "LIMIT",
                         FindClause(LimitQuery(kind, query, Some(n)), "LIMIT", 0).value) == IntToString(n)
  {
    var q := RStripChar(RStrip(query), ';');
    assert LimitQuery(kind, query, Some(n)) == LimitOther(q, n);
    LimitOtherSpec(q, n);
  }

  /** The MariaDB and DuckDB branch on a stripped query q. */
  lemma LimitOtherSpec(q: string, n: nat)
    ensures var r := LimitOther(q, n);
            && FindClause(r, "LIMIT", 0).Some?
            && ClauseNumber(r, "LIMIT", FindClause(r, "LIMIT", 0).value) == IntToString(n)
    ensures var r := LimitOther(q, n);
            FindClause(q, "LIMIT", 0).None? ==>
              && StartsWith(r, q + " ")
              && FindClause(r, "LIMIT", 0) == Some(|q| + 1)
              && ClauseEnd(r, "LIMIT", |q| + 1) == |r|
    ensures var r := LimitOther(q, n);
            FindClause(q, "LIMIT", 0).Some? ==>
              && FindClause(r, "LIMIT", 0) == FindClause(q, "LIMIT", 0)
              && StartsWith(r, q[..FindClause(q, "LIMIT", 0).value])
              && EndsWith(r, q[ClauseEnd(q, "LIMIT", FindClause(q, "LIMIT", 0).value)..])
  {
    if FindClause(q, "LIMIT", 0).Some? {
      ReplaceClauseKeeps(q, "LIMIT", n);
    } else {
      LimitAppended(q, n);
      AppendedStartsWith(q, IntToString(n));
    }
  }

  lemma AppendedStartsWith(q: string, d: string)
    ensures StartsWith(q + " LIMIT " + d, q + " ")
  {
    assert (q + " LIMIT " + d)[..|q| + 1] == q + " ";
  }

  /** The first literal `SELECT` is not directly followed by a digit. */
  predicate NoDigitAfterSelect(query: string)
    requires Find(query, "SELECT", 0, false).Some?
  {
    var p := Find(query, "SELECT", 0, false).value;
    p + 6 == |query| || !IsDigit(query[p + 6])
  }

  /** After the rewrite a SQL Server query carries `TOP limit` as its first `TOP` clause when it
      had a clause, or had the literal word `SELECT` to put one after (with no digit glued to
      it, which would lengthen the number). */
  lemma LimitQueryAddsTop(kind: string, query: string, n: nat)
    requires kind == "mssql"
    requires n > 0
    requires FindClause(query, "TOP", 0).Some? ||
             (Find(query, "SELECT", 0, false).Some? && NoDigitAfterSelect(query))
    ensures LimitQuery(kind, query, Some(n)) == LimitTop(query, n)
    ensures FindClause(LimitQuery(kind, query, Some(n)), "TOP", 0).Some?
    ensures ClauseNumber(LimitQuery(kind, query, Some(n)), "TOP",
                         FindClause(LimitQuery(kind, query, Some(n)), "TOP", 0).value) == IntToString(n)
  {
    assert LimitQuery(kind, query, Some(n)) == LimitTop(query, n);
    LimitTopSpec(query, n);
  }

  lemma LimitTopSpec(query: string, n: nat)
    requires FindClause(query, "TOP", 0).Some? ||
             (Find(query, "SELECT", 0, false).Some? && NoDigitAfterSelect(query))
    ensures FindClause(LimitTop(query, n), "TOP", 0).Some?
    ensures ClauseNumber(LimitTop(query, n), "TOP", FindClause(LimitTop(query, n), "TOP", 0).value) == IntToString(n)
  {
    if FindClause(query, "TOP", 0).Some? {
      ReplaceClauseKeeps(query, "TOP", n);
    } else {
      TopInserted(query, n);
    }
  }

  /** With no `TOP n` clause, `TOP n` goes right after the first literal `SELECT`, becomes the
      first clause, and carries n unless a digit was glued to that `SELECT`. */
  lemma TopInserted(query: string, n: nat)
    requires FindClause(query, "TOP", 0).None? && Find(query, "SELECT", 0, false).Some?
    ensures var p := Find(query, "SELECT", 0, false).value;
            var r := ReplaceFirst(query, "SELECT", "SELECT TOP " + IntToString(n));
            && StartsWith(r, query[..p] + "SELECT ")
            && EndsWith(r, query[p + 6..])
            && FindClause(r, "TOP", 0) == Some(p + 7)
            && (NoDigitAfterSelect(query) ==> ClauseNumber(r, "TOP", p + 7) == IntToString(n))
  {
    var p := Find(query, "SELECT", 0, false).value;
    InsertedText(query, n);
    TopWritten(query, p, NatToString(n));
  }

  lemma InsertedText(query: string, n: nat)
    requires Find(query, "SELECT", 0, false).Some?
    ensures var p := Find(query, "SELECT", 0, false).value;
            ReplaceFirst(query, "SELECT", "SELECT TOP " + IntToString(n)) ==
              (query[..p] + "SELECT ") + "TOP" + " " + NatToString(n) + query[p + 6..]
  {
  }

  /** `SELECT TOP d` written over the literal `SELECT` at p of a text without a clause. */
  lemma TopWritten(query: string, p: nat, d: string)
    requires FindClause(query, "TOP", 0).None?
    requires p + 6 <= |query| && query[p..p + 6] == "SELECT"
    requires |d| >= 1 && forall k :: 0 <= k < |d| ==> IsDigit(d[k])
    ensures var w := (query[..p] + "SELECT ") + "TOP" + " " + d + query[p + 6..];
            && StartsWith(w, query[..p] + "SELECT ")
            && EndsWith(w, query[p + 6..])
            && FindClause(w, "TOP", 0) == Some(p + 7)
            && (p + 6 == |query| || !IsDigit(query[p + 6]) ==> ClauseNumber(w, "TOP", p + 7) == d)
  {
    var pre := query[..p] + "SELECT ";
    var post := query[p + 6..];
    var w := pre + "TOP" + " " + d + post;
    TopPieces(query, p, d);
    WrittenAt(pre, "TOP", d, post);
    assert w[p + 6] == pre[p + 6] == ' ';
    ClauseAtIndex(w, "TOP", p + 7);
    TopInsertedFirst(query, w, p);
    FindClauseIs(w, "TOP", p + 7);
    if p + 6 == |query| || !IsDigit(query[p + 6]) {
      if p + 6 < |query| {
        assert post[0] == query[p + 6];
      }
      ClauseNumberWritten(pre, "TOP", d, post);
    }
  }

  lemma TopPieces(query: string, p: nat, d: string)
    requires p + 6 <= |query| && query[p..p + 6] == "SELECT" && |d| >= 1
    ensures var w := (query[..p] + "SELECT ") + "TOP" + " " + d + query[p + 6..];
            && p + 11 <= |w|
            && w[..p] == query[..p]
            && w[p..p + 11] == "SELECT TOP "
            && StartsWith(w, query[..p] + "SELECT ")
            && EndsWith(w, query[p + 6..])
  {
    var w := (query[..p] + "SELECT ") + "TOP" + " " + d + query[p + 6..];
    assert w == query[..p] + ("SELECT TOP " + d) + query[p + 6..];
  }

  /** No `TOP` clause starts before the one put after `SELECT`. */
  lemma TopInsertedFirst(query: string, r: string, p: nat)
    requires FindClause(query, "TOP", 0).None?
    requires p + 6 <= |query| && query[p..p + 6] == "SELECT"
    requires p + 11 <= |r| && r[..p] == query[..p] && r[p..p + 11] == "SELECT TOP "
    ensures forall j :: 0 <= j < p + 7 ==> !ClauseAt(r, "TOP", j)
  {
    assert query[p] == query[p..p + 6][0] == 'S';
    assert r[p] == r[p..p + 11][0] == 'S';
    LetterNoNumber(query, p);
    LetterNoNumber(r, p);
    NoClauseBelow(query, r, "TOP", p);
    forall j | 0 <= j < p + 7 && j + 3 > p
      ensures !ClauseAt(r, "TOP", j)
    {
      TopNotInSelect(r, p, j);
    }
  }

  /** No `TOP` clause starts inside the written `SELECT TOP `, except at its `TOP`. */
  lemma TopNotInSelect(r: string, p: nat, j: nat)
    requires p + 11 <= |r| && r[p..p + 11] == "SELECT TOP "
    requires p < j + 3 && j < p + 7
    ensures !ClauseAt(r, "TOP", j)
  {
    var s := r[p..p + 11];
    SelectTopLetters(s);
    assert r[j + 3] == s[j + 3 - p];
    if j == p + 3 {
      assert r[j] == s[3];
      assert Lower(r[j..j + 3])[0] == LowerChar(r[j]);
    } else {
      LetterAfterKeyword(r, "TOP", j);
    }
  }

  lemma SelectTopLetters(s: string)
    requires s == "SELECT TOP "
    ensures s[3] == 'E'
    ensures forall k :: 1 <= k < 10 && k != 6 ==> IsUpperAscii(s[k])
  {
  }

  /** With no `TOP n` and no upper-case `SELECT`, a SQL Server query runs without a row limit. */
  lemma LimitQueryLowercaseSelect(query: string, limit: Option<int>)
    requires FindClause(query, "TOP", 0).None? && Find(query, "SELECT", 0, false).None?
    ensures LimitQuery("mssql", query, limit) == query
  {
  }

  // ---------------------------------------------------------------- fetch_source

  /** The file readers, as oracles: `pd.read_csv(path, nrows=limit)` and `pd.read_json(path)`. */
  type CsvReader = (string, Option<int>) -> Result<Frame>
  type JsonReader = string -> Result<Frame>

  /** `df.head(n)`: the first n rows, or all but the last -n when n is negative. */
  function Head(rows: seq<Row>, n: int): (r: seq<Row>)
    ensures n >= 0 ==> r == Take(rows, n)
    ensures n < 0 ==> r == rows[..if |rows| + n > 0 then |rows| + n else 0]
  {
    if n >= 0 then Take(rows, n) else rows[..if |rows| + n > 0 then |rows| + n else 0]
  }

  /** `_fetch_sql` as written: the connection is opened first, and is closed only after the read
      succeeds, so a missing `query` or a failing read leaves it open. */
  function FetchSqlAsWritten(src: SourceConfig, limit: Option<int>, run: QueryOracle): (r: Run<Frame>)
    ensures EngineOf(src.kind).Failure? ==> r == Run(Failure(EngineOf(src.kind).error), [])
    ensures r.result.Success? ==> ClosesConnection(r.events)
  {
    match EngineOf(src.kind)
    case Failure(e) => Run(Failure(e), [])
    case Success(_) =>
      match src.query
      case None => Run(Failure("KeyError: 'query'"), [Connect])
      case Some(query) =>
        var sql := LimitQuery(src.kind, query, limit);
        match run(sql)
        case Failure(e) => Run(Failure(e), [Connect, Execute(sql)])
        case Success(df) => Run(Success(df), [Connect, Execute(sql), Close])
  }

  /** A read that fails leaves the connection open in the as-written `_fetch_sql`. */
  lemma FetchSqlLeaksConnection(src: SourceConfig, run: QueryOracle)
    requires src.kind == "duckdb" && src.query == Some("SELECT 1")
    requires run("SELECT 1").Failure?
    ensures FetchSqlAsWritten(src, None, run).events == [Connect, Execute("SELECT 1")]
    ensures !ClosesConnection(FetchSqlAsWritten(src, None, run).events)
  {
  }

  /** `_fetch_sql` with the close in a `finally`, as `execute_query` does it. */
  function FetchSql(src: SourceConfig, limit: Option<int>, run: QueryOracle): (r: Run<Frame>)
    ensures ClosesConnection(r.events)
    ensures r.result.Success? <==>
              (EngineOf(src.kind).Success? && src.query.Some? && run(LimitQuery(src.kind, src.query.value, limit)).Success?)
    ensures r.result.Success? ==> r.result == run(LimitQuery(src.kind, src.query.value, limit))
    ensures r.result == FetchSqlAsWritten(src, limit, run).result
  {
    match EngineOf(src.kind)
    case Failure(e) => Run(Failure(e), [])
    case Success(_) =>
      match src.query
      case None => Run(Failure("KeyError: 'query'"), [Connect, Close])
      case Some(query) =>
        var sql := LimitQuery(src.kind, query, limit);
        Run(run(sql), [Connect, Execute(sql), Close])
  }

  /** `fetch_source`: dispatch on the source type; an unknown type raises. A CSV source passes
      the limit to the reader as `nrows`; a JSON source is cut with `head` only when the limit
      is truthy. SQL sources go to `_fetch_sql` as written, so only a successful read is sure
      to close its connection. */
  function FetchSource(src: SourceConfig, limit: Option<int>, run: QueryOracle,
                       readCsv: CsvReader, readJson: JsonReader): (r: Run<Frame>)
    ensures r.result.Success? ==> ClosesConnection(r.events)
    ensures src.kind in {"mssql", "mariadb", "duckdb"} && src.query.Some? && EngineOf(src.kind).Success? ==>
              |r.events| >= 2 && r.events[0] == Connect && r.events[1] == Execute(LimitQuery(src.kind, src.query.value, limit))
    ensures src.kind !in {"mssql", "mariadb", "duckdb", "csv", "json"} ==>
              r == Run(Failure("Tipo de fuente no soportado: " + src.kind), [])
    ensures src.kind in {"csv", "json"} ==> r.events == []
    ensures src.kind in {"mssql", "mariadb", "duckdb"} ==> r.result == FetchSqlAsWritten(src, limit, run).result
    ensures src.kind == "csv" && src.path.Some? ==> r.result == readCsv(src.path.value, limit)
    ensures src.kind == "json" && src.path.Some? && readJson(src.path.value).Success? ==>
              r.result.Success? &&
              r.result.value.columns == readJson(src.path.value).value.columns &&
              (limit.None? || limit.value == 0 ==> r.result.value == readJson(src.path.value).value)
  {
    if src.kind in {"mssql", "mariadb", "duckdb"} then FetchSqlAsWritten(src, limit, run)
    else if src.kind == "csv" then
      match src.path
      case None => Run(Failure("KeyError: 'path'"), [])
      case Some(path) => Run(readCsv(path, limit), [])
    else if src.kind == "json" then
      match src.path
      case None => Run(Failure("KeyError: 'path'"), [])
      case Some(path) =>
        match readJson(path)
        case Failure(e) => Run(Failure(e), [])
        case Success(df) =>
          if limit.Some? && limit.value != 0 then Run(Success(Frame(df.columns, Head(df.rows, limit.value))), [])
          else Run(Success(df), [])
    else Run(Failure("Tipo de fuente no soportado: " + src.kind), [])
  }

  /** `fetch_source` with the corrected `_fetch_sql`: the same results, and every connection
      it opens is closed. */
  function FetchSourceClosing(src: SourceConfig, limit: Option<int>, run: QueryOracle,
                              readCsv: CsvReader, readJson: JsonReader): (r: Run<Frame>)
    ensures ClosesConnection(r.events)
    ensures r.result == FetchSource(src, limit, run, readCsv, readJson).result
  {
    if src.kind in {"mssql", "mariadb", "duckdb"} then FetchSql(src, limit, run)
    else FetchSource(src, limit, run, readCsv, readJson)
  }
}
