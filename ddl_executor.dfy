/** The guarded DDL runner: a statement is run against a collection's database only if it
    is one of the allowed structural operations, contains none of the forbidden data
    operations, and the operator types the confirmation word; every attempted run is
    appended to an operation log. The database, the clock and the terminal are parameters. */
module DdlExecutor {
  import opened Wrappers
  import opened Text
  import opened Config
  import DbConnector

  // ---------------------------------------------------------------- validation

  /** `w1\s+w2` at position i, on text that is already upper-case. */
  predicate PhraseAt(s: string, i: nat, w1: string, w2: string)
  {
    && MatchesAt(s, i, w1, false)
    && SkipSpaces(s, i + |w1|) > i + |w1|
    && MatchesAt(s, SkipSpaces(s, i + |w1|), w2, false)
  }

  /** The position just after `w2` in a phrase found at i. */
  function PhraseEnd(s: string, i: nat, w1: string, w2: string): (e: nat)
    requires PhraseAt(s, i, w1, w2)
    ensures e <= |s|
  {
    SkipSpaces(s, i + |w1|) + |w2|
  }

  /** The statement kinds `validate_ddl` accepts, each as `^\s*VERB\s+OBJECT\s+`. */
  const AllowedPhrases: seq<(string, string)> :=
    [("ALTER", "VIEW"), ("CREATE", "VIEW"), ("DROP", "VIEW"), ("ALTER", "TABLE"), ("CREATE", "TABLE")]

  predicate AllowedBy(s: string, p: (string, string))
  {
    && PhraseAt(s, SkipSpaces(s, 0), p.0, p.1)
    && PhraseEnd(s, SkipSpaces(s, 0), p.0, p.1) < |s|
    && IsSpace(s[PhraseEnd(s, SkipSpaces(s, 0), p.0, p.1)])
  }

  predicate IsAllowed(s: string)
  {
    exists p :: p in AllowedPhrases && AllowedBy(s, p)
  }

  /** `\bw\b`, exactly. */
  predicate ExactWordAt(s: string, w: string, i: nat)
  {
    i + |w| <= |s| && Boundary(s, i) && MatchesAt(s, i, w, false) && Boundary(s, i + |w|)
  }

  /** `\bw1\s+w2\b`, exactly. */
  predicate WordPhraseAt(s: string, i: nat, w1: string, w2: string)
  {
    i <= |s| && Boundary(s, i) && PhraseAt(s, i, w1, w2) && Boundary(s, PhraseEnd(s, i, w1, w2))
  }

  /** `\bUPDATE\s+\b`: the whitespace after UPDATE must be followed by a word character. */
  predicate UpdateAt(s: string, i: nat)
  {
    && i + 6 <= |s|
    && Boundary(s, i)
    && MatchesAt(s, i, "UPDATE", false)
    && SkipSpaces(s, i + 6) > i + 6
    && Boundary(s, SkipSpaces(s, i + 6))
  }

  /** One of the forbidden patterns matches at i. */
  predicate ForbiddenAt(s: string, i: nat)
  {
    || WordPhraseAt(s, i, "DROP", "DATABASE")
    || ExactWordAt(s, "TRUNCATE", i)
    || WordPhraseAt(s, i, "DELETE", "FROM")
    || WordPhraseAt(s, i, "INSERT", "INTO")
    || UpdateAt(s, i)
  }

  predicate HasForbidden(s: string)
  {
    exists i :: 0 <= i <= |s| && ForbiddenAt(s, i)
  }

  /** Why `validate_ddl` said no, if it did. */
  datatype Verdict = Accepted | NotAllowed | Prohibited

  /** `validate_ddl`: on the stripped, upper-cased text, an allowed statement kind first, then
      no forbidden pattern anywhere. */
  function CheckDdl(sql: string): (v: Verdict)
  {
    CheckClean(Clean(sql))
  }

  /** `sql.strip().upper()` */
  function Clean(sql: string): string
  {
    Upper(Strip(sql))
  }

  function CheckClean(clean: string): (v: Verdict)
    ensures v == Accepted <==> IsAllowed(clean) && !HasForbidden(clean)
    ensures v == NotAllowed <==> !IsAllowed(clean)
    ensures v == Prohibited <==> IsAllowed(clean) && HasForbidden(clean)
  {
    if !IsAllowed(clean) then NotAllowed
    else if HasForbidden(clean) then Prohibited
    else Accepted
  }

  predicate ValidateDdl(sql: string)
  {
    CheckDdl(sql) == Accepted
  }

  lemma WordCharNotSpace(c: char)
    ensures IsWordChar(c) ==> !IsSpace(c)
  {
  }

  /** The regular-expression reading of `\bUPDATE\s+\b`, where `\s+` may give back characters:
      some non-empty whitespace run after UPDATE ends at a word boundary. It agrees with the
      greedy reading `UpdateAt`, so a bracketed or quoted name after UPDATE is not caught. */
  predicate UpdateRegexAt(s: string, i: nat)
  {
    && i + 6 <= |s|
    && Boundary(s, i)
    && MatchesAt(s, i, "UPDATE", false)
    && exists k :: i + 6 < k <= |s| && AllSpace(s[i + 6..k]) && Boundary(s, k)
  }

  lemma UpdateBacktracking(s: string, i: nat)
    ensures UpdateRegexAt(s, i) <==> UpdateAt(s, i)
    ensures UpdateAt(s, i) ==> SkipSpaces(s, i + 6) < |s| && IsWordChar(s[SkipSpaces(s, i + 6)])
  {
    if UpdateRegexAt(s, i) {
      var k :| i + 6 < k <= |s| && AllSpace(s[i + 6..k]) && Boundary(s, k);
      RunEndsAtWord(s, i + 6, k);
    }
    if UpdateAt(s, i) {
      GreedyRunEndsAtWord(s, i + 6);
    }
  }

  /** A whitespace run that ends at a word boundary ends where the greedy run does. */
  lemma RunEndsAtWord(s: string, a: nat, k: nat)
    requires a < k <= |s| && AllSpace(s[a..k]) && Boundary(s, k)
    ensures SkipSpaces(s, a) == k && k < |s| && IsWordChar(s[k])
  {
    assert IsSpace(s[k - 1]) by { assert s[a..k][k - 1 - a] == s[k - 1]; }
    WordCharNotSpace(s[k - 1]);
    WordCharNotSpace(s[k]);
    forall m | a <= m < k
      ensures IsSpace(s[m])
    {
      assert s[a..k][m - a] == s[m];
    }
  }

  /** The greedy run, when non-empty and followed by a boundary, is a witness for the regex. */
  lemma GreedyRunEndsAtWord(s: string, a: nat)
    requires a <= |s| && SkipSpaces(s, a) > a && Boundary(s, SkipSpaces(s, a))
    ensures SkipSpaces(s, a) < |s| && IsWordChar(s[SkipSpaces(s, a)])
    ensures AllSpace(s[a..SkipSpaces(s, a)])
  {
    var j := SkipSpaces(s, a);
    WordCharNotSpace(s[j - 1]);
  }

  /** Statement kinds are found after stripping, so the verb opens the cleaned text and is
      followed by whitespace. */
  lemma AcceptedStartsWithVerb(sql: string)
    requires ValidateDdl(sql)
    ensures exists p :: p in AllowedPhrases && StartsWith(Clean(sql), p.0)
                        && |p.0| < |Clean(sql)| && IsSpace(Clean(sql)[|p.0|])
  {
    var clean := Clean(sql);
    var p :| p in AllowedPhrases && AllowedBy(clean, p);
    CleanUnspaced(sql);
    assert SkipSpaces(clean, 0) == 0;
    assert StartsWith(clean, p.0);
  }

  /** The cleaned text does not start with whitespace. */
  lemma CleanUnspaced(sql: string)
    ensures Clean(sql) == [] || !IsSpace(Clean(sql)[0])
  {
    var st := Strip(sql);
    if st != [] {
      var l := LStrip(sql);
      assert st[0] == l[0];
      assert Clean(sql)[0] == UpperChar(st[0]);
    }
  }

  lemma UpperLowerChar(c: char)
    ensures UpperChar(LowerChar(c)) == UpperChar(c)
  {
  }

  /** The validator ignores letter case. */
  lemma ValidateIgnoresCase(sql: string)
    ensures CheckDdl(Lower(sql)) == CheckDdl(sql)
  {
    DbConnector.LowerStrip(sql);
    var t := Strip(sql);
    forall k | 0 <= k < |t|
      ensures Upper(Lower(t))[k] == Upper(t)[k]
    {
      UpperLowerChar(t[k]);
    }
    assert Upper(Lower(t)) == Upper(t);
    assert Clean(Lower(sql)) == Clean(sql);
  }

  // ---------------------------------------------------------------- display and confirmation

  /** One display line: `f"  {n:3d} | {line}"`. */
  function NumberLine(n: nat, line: string): string
  {
    "  " + PadLeft3(NatToString(n)) + " | " + line
  }

  /** `format_sql_for_display`: the text's lines, numbered from 1. */
  function FormatSqlForDisplay(sql: string): string
  {
    var lines := Split(sql, {'\n'});
    Join("\n", seq(|lines|, k requires 0 <= k < |lines| => NumberLine(k + 1, lines[k])))
  }

  lemma NumberLineNoNewline(n: nat, line: string)
    requires NoneIn(line, {'\n'})
    ensures NoneIn(NumberLine(n, line), {'\n'})
  {
    var p := PadLeft3(NatToString(n));
    PadNoNewline(NatToString(n));
    NoneInConcat("  ", p, {'\n'});
    NoneInConcat("  " + p, " | ", {'\n'});
    NoneInConcat("  " + p + " | ", line, {'\n'});
  }

  lemma PadNoNewline(d: string)
    requires forall i :: 0 <= i < |d| ==> IsDigit(d[i])
    ensures NoneIn(PadLeft3(d), {'\n'})
  {
    var p := PadLeft3(d);
    forall j | 0 <= j < |p|
      ensures p[j] != '\n'
    {
      if |d| < 3 {
        assert p[j] == ' ' || p[j] == d[j - (3 - |d|)];
      }
    }
  }

  lemma NoneInConcat(a: string, b: string, seps: set<char>)
    requires NoneIn(a, seps) && NoneIn(b, seps)
    ensures NoneIn(a + b, seps)
  {
    forall j | 0 <= j < |a + b|
      ensures (a + b)[j] !in seps
    {
      if j >= |a| {
        assert (a + b)[j] == b[j - |a|];
      }
    }
  }

  /** The display has exactly one line per line of the statement (one more than its newlines),
      the k-th numbered k+1 and ending with the k-th line unchanged. */
  lemma FormatSqlLines(sql: string)
    ensures var lines := Split(sql, {'\n'});
            var out := Split(FormatSqlForDisplay(sql), {'\n'});
            && |out| == |lines| == multiset(sql)['\n'] + 1
            && forall k :: 0 <= k < |lines| ==> out[k] == NumberLine(k + 1, lines[k]) && EndsWith(out[k], lines[k])
  {
    var lines := Split(sql, {'\n'});
    var numbered := seq(|lines|, k requires 0 <= k < |lines| => NumberLine(k + 1, lines[k]));
    NumberedLines(lines, numbered);
    assert "\n" == ['\n'];
    SplitJoin(numbered, '\n', {'\n'});
    SplitCount(sql, '\n');
  }

  /** Numbering keeps each line free of newlines and leaves it at the end. */
  lemma NumberedLines(lines: seq<string>, numbered: seq<string>)
    requires forall k :: 0 <= k < |lines| ==> NoneIn(lines[k], {'\n'})
    requires |numbered| == |lines|
    requires forall k :: 0 <= k < |lines| ==> numbered[k] == NumberLine(k + 1, lines[k])
    ensures forall k :: 0 <= k < |numbered| ==> NoneIn(numbered[k], {'\n'}) && EndsWith(numbered[k], lines[k])
  {
    forall k | 0 <= k < |numbered|
      ensures NoneIn(numbered[k], {'\n'}) && EndsWith(numbered[k], lines[k])
    {
      NumberLineNoNewline(k + 1, lines[k]);
      NumberLineEnds(k + 1, lines[k]);
    }
  }

  lemma NumberLineEnds(n: nat, line: string)
    ensures EndsWith(NumberLine(n, line), line)
  {
    var pre := "  " + PadLeft3(NatToString(n)) + " | ";
    assert NumberLine(n, line) == pre + line;
    assert (pre + line)[|pre|..] == line;
  }

  /** `confirm_operation`: only the exact word CONFIRMO, surrounding whitespace aside. */
  predicate Confirmed(answer: string)
  {
    Strip(answer) == "CONFIRMO"
  }

  /** Whitespace around the word is accepted. */
  lemma ConfirmedPadded(pre: string, post: string)
    requires AllSpace(pre) && AllSpace(post)
    ensures Confirmed(pre + "CONFIRMO" + post)
  {
    var body := "CONFIRMO";
    assert body[0] == 'C' && body[7] == 'O';
    StripAround(pre, body, post);
  }

  /** Stripping removes exactly the whitespace around a text that starts and ends with
      something else. */
  lemma StripAround(pre: string, body: string, post: string)
    requires AllSpace(pre) && AllSpace(post)
    requires body != [] && !IsSpace(body[0]) && !IsSpace(body[|body| - 1])
    ensures Strip(pre + body + post) == body
  {
    assert (body + post)[0] == body[0];
    LStripSpaces(pre, body + post);
    assert pre + body + post == pre + (body + post);
    RStripSpaces(body, post);
  }

  lemma {:induction false} LStripSpaces(pre: string, rest: string)
    requires AllSpace(pre) && rest != [] && !IsSpace(rest[0])
    ensures LStrip(pre + rest) == rest
    decreases |pre|
  {
    if pre != [] {
      assert (pre + rest)[1..] == pre[1..] + rest;
      LStripSpaces(pre[1..], rest);
    }
  }

  lemma {:induction false} RStripSpaces(body: string, post: string)
    requires AllSpace(post) && body != [] && !IsSpace(body[|body| - 1])
    ensures RStrip(body + post) == body
    decreases |post|
  {
    if post != [] {
      assert (body + post)[..|body + post| - 1] == body + post[..|post| - 1];
      RStripSpaces(body, post[..|post| - 1]);
    }
  }

  /** The word is case-sensitive: the lower-case answer is refused. */
  lemma ConfirmedCaseSensitive(answer: string)
    requires Confirmed(answer)
    ensures !Confirmed(Lower(answer))
  {
    DbConnector.LowerStrip(answer);
    assert Lower("CONFIRMO")[0] == 'c';
  }

  /** Anything accepted is the word with whitespace around it: in particular a different
      case ("confirmo") or an abbreviation is refused. */
  lemma ConfirmedShape(answer: string)
    requires Confirmed(answer)
    ensures exists i :: 0 <= i && i + 8 <= |answer| && answer[i..i + 8] == "CONFIRMO"
              && AllSpace(answer[..i]) && AllSpace(answer[i + 8..])
  {
    StripSplits(answer);
  }

  /** A text is its strip with whitespace before and after. */
  lemma StripSplits(s: string)
    ensures var i := |s| - |LStrip(s)|;
            && i + |Strip(s)| <= |s| && s[i..i + |Strip(s)|] == Strip(s)
            && AllSpace(s[..i]) && AllSpace(s[i + |Strip(s)|..])
  {
    StripBody(s);
    LeadingSpaces(s);
    TrailingSpaces(s);
  }

  lemma StripBody(s: string)
    ensures var i := |s| - |LStrip(s)|;
            i + |Strip(s)| <= |s| && s[i..i + |Strip(s)|] == Strip(s)
  {
    var l := LStrip(s);
    var r := RStrip(l);
    assert r == Strip(s);
    PrefixOfSuffix(s, l, r, |s| - |l|);
  }

  lemma PrefixOfSuffix(s: string, l: string, r: string, i: nat)
    requires i + |l| == |s| && l == s[i..]
    requires |r| <= |l| && r == l[..|r|]
    ensures i + |r| <= |s| && s[i..i + |r|] == r
  {
    assert s[i..i + |r|] == s[i..][..|r|];
  }

  lemma LeadingSpaces(s: string)
    ensures AllSpace(s[..|s| - |LStrip(s)|])
  {
    var head := s[..|s| - |LStrip(s)|];
    forall j | 0 <= j < |head|
      ensures IsSpace(head[j])
    {
      assert head[j] == s[j];
    }
  }

  lemma TrailingSpaces(s: string)
    ensures |s| - |LStrip(s)| + |Strip(s)| <= |s|
    ensures AllSpace(s[|s| - |LStrip(s)| + |Strip(s)|..])
  {
    var l := LStrip(s);
    var i := |s| - |l|;
    var n := |RStrip(l)|;
    assert Strip(s) == RStrip(l);
    SuffixOfSuffix(s, l, i, n);
    SpacesAfter(l, n);
  }

  lemma SuffixOfSuffix(s: string, l: string, i: nat, n: nat)
    requires i + |l| == |s| && l == s[i..] && n <= |l|
    ensures s[i + n..] == l[n..]
  {
  }

  /** What `rstrip` removes is whitespace. */
  lemma SpacesAfter(l: string, n: nat)
    requires n == |RStrip(l)|
    ensures AllSpace(l[n..])
  {
    var tail := l[n..];
    forall j | 0 <= j < |tail|
      ensures IsSpace(tail[j])
    {
      assert tail[j] == l[n + j];
    }
  }

  // ---------------------------------------------------------------- the operation log

  /** One log line; its JSON serialisation is not modelled. */
  datatype LogEntry = LogEntry(timestamp: string, collection: string, status: string,
                               operation: string, error: Option<string>)

  /** The `operation` field: the first 100 characters, with "..." when the statement is longer. */
  function Abbreviate(sql: string): (r: string)
    ensures |sql| <= 100 ==> r == sql
    ensures |sql| > 100 ==> |r| == 103 && r[..100] == sql[..100] && r[100..] == "..."
    ensures |r| <= 103
  {
    if |sql| > 100 then sql[..100] + "..." else sql
  }

  /** The log file, opened for appending. */
  class OperationLog {
    var entries: seq<LogEntry>

    constructor(initial: seq<LogEntry>)
      ensures entries == initial
    {
      entries := initial;
    }

    /** `log_operation`: the entry is added after the existing ones. */
    method Append(collection: string, sql: string, status: string, error: Option<string>, now: string)
      modifies this
      ensures entries == old(entries) + [LogEntry(now, collection, status, Abbreviate(sql), error)]
    {
      entries := entries + [LogEntry(now, collection, status, Abbreviate(sql), error)];
    }
  }

  // ---------------------------------------------------------------- connection settings

  /** `v[key]`: a KeyError when the key is missing, a TypeError when `v` is no dictionary. */
  function Index(v: Json, key: string): (r: Result<Json>)
    ensures r.Success? <==> v.JDict? && key in Keys(v.fields)
    ensures r.Success? ==> Lookup(v.fields, key) == Some(r.value)
  {
    Section(v, key)
  }

  /** `d.get(key, default)` on a dictionary. */
  function GetOr(v: Json, key: string, default: Json): (r: Result<Json>)
    ensures r.Success? <==> v.JDict?
    ensures v.JDict? && key !in Keys(v.fields) ==> r == Success(default)
  {
    if v.JDict? then Success(Lookup(v.fields, key).GetOr(default)) else Failure("AttributeError: no mapping")
  }

  /** The credentials of the first secrets source that has an `sql_enrich` block. */
  function FirstCredentials(sources: seq<Json>): (r: Result<Option<(Json, Json)>>)
    ensures r == Success(None) <==>
              forall j :: 0 <= j < |sources| ==> sources[j].JDict? && "sql_enrich" !in Keys(sources[j].fields)
  {
    if sources == [] then Success(None)
    else
      var s := sources[0];
      if !s.JDict? then Failure("TypeError: secrets source is not a mapping")
      else if "sql_enrich" !in Keys(s.fields) then FirstCredentials(sources[1..])
      else
        var e := Lookup(s.fields, "sql_enrich").value;
        match (Index(e, "user"), Index(e, "password"))
        case (Success(u), Success(p)) => Success(Some((u, p)))
        case (Failure(m), _) => Failure(m)
        case (_, Failure(m)) => Failure(m)
  }

  /** Source j is the first with an `sql_enrich` block, and `cred` is that block's user and
      password. */
  predicate CredentialsAt(sources: seq<Json>, j: nat, cred: (Json, Json))
  {
    && j < |sources| && sources[j].JDict? && "sql_enrich" in Keys(sources[j].fields)
    && (forall i :: 0 <= i < j ==> sources[i].JDict? && "sql_enrich" !in Keys(sources[i].fields))
    && var e := Lookup(sources[j].fields, "sql_enrich").value;
       && e.JDict? && "user" in Keys(e.fields) && "password" in Keys(e.fields)
       && cred == (Lookup(e.fields, "user").value, Lookup(e.fields, "password").value)
  }

  /** The credentials `FirstCredentials` returns come from the first source with `sql_enrich`. */
  lemma {:induction false} FirstCredentialsFrom(sources: seq<Json>)
    requires FirstCredentials(sources).Success? && FirstCredentials(sources).value.Some?
    ensures exists j :: CredentialsAt(sources, j, FirstCredentials(sources).value.value)
  {
    var s := sources[0];
    if "sql_enrich" in Keys(s.fields) {
      assert CredentialsAt(sources, 0, FirstCredentials(sources).value.value);
    } else {
      FirstCredentialsFrom(sources[1..]);
      var j :| CredentialsAt(sources[1..], j, FirstCredentials(sources[1..]).value.value);
      CredentialsAtTail(sources, j, FirstCredentials(sources[1..]).value.value);
    }
  }

  lemma CredentialsAtTail(sources: seq<Json>, j: nat, cred: (Json, Json))
    requires sources != [] && sources[0].JDict? && "sql_enrich" !in Keys(sources[0].fields)
    requires CredentialsAt(sources[1..], j, cred)
    ensures CredentialsAt(sources, j + 1, cred)
  {
    assert sources[j + 1] == sources[1..][j];
    forall i | 0 <= i < j + 1
      ensures sources[i].JDict? && "sql_enrich" !in Keys(sources[i].fields)
    {
      if i > 0 {
        assert sources[i] == sources[1..][i - 1];
      }
    }
  }


  /** The settings with the credentials written over `user` and `password`. */
  function WithCredentials(settings: seq<Field>, creds: Option<(Json, Json)>): seq<Field>
  {
    match creds
    case None => settings
    case Some((u, p)) => SetField(SetField(settings, "user", u), "password", p)
  }

  /** Secrets for one collection: `secrets.get('collections', {}).get(name, {})`, then its
      `sources` list (only a list is modelled). */
  function SecretSources(secrets: Json, name: string): (r: Result<seq<Json>>)
  {
    match GetOr(secrets, "collections", JDict([]))
    case Failure(m) => Failure(m)
    case Success(cs) =>
      match GetOr(cs, name, JDict([]))
      case Failure(m) => Failure(m)
      case Success(col) =>
        if !Truthy(col) then Success([])
        else match GetOr(col, "sources", JList([]))
          case Failure(m) => Failure(m)
          case Success(srcs) => if srcs.JList? then Success(srcs.items) else Failure("TypeError: sources is not a list")
  }

  /** Subscripting a list with a string key. */
  const ListIndexError := "TypeError: list indices must be integers or slices, not str"

  /** `get_connection_config`: a copy of the `sql_enrich` block of the collection's first
      source in the configuration file (the files are read as they are, without the merge
      `_load_config` does), with `user` and `password` from the first secrets source that has
      one. A missing collection or an empty source list ends the program with a message. Only
      a mapping or a list has `.copy()`; a list is returned as it is when there are no
      credentials to write into it, and writing them into it raises. */
  function GetConnectionConfig(config: Json, secrets: Json, name: string): (r: Result<Json>)
  {
    match Index(config, "collections")
    case Failure(m) => Failure(m)
    case Success(cols) =>
      if !cols.JDict? then Failure("TypeError: collections is not a mapping")
      else if name !in Keys(cols.fields) then Failure("Colección '" + name + "' no encontrada")
      else match Index(Lookup(cols.fields, name).value, "sources")
        case Failure(m) => Failure(m)
        case Success(sources) =>
          if !Truthy(sources) then Failure("Colección '" + name + "' no tiene fuentes")
          else if !sources.JList? then Failure("TypeError: sources is not a list")
          else match Index(sources.items[0], "sql_enrich")
            case Failure(m) => Failure(m)
            case Success(enrich) =>
              if !enrich.JDict? && !enrich.JList? then Failure("AttributeError: sql_enrich has no attribute 'copy'")
              else match SecretSources(secrets, name)
                case Failure(m) => Failure(m)
                case Success(ss) =>
                  match FirstCredentials(ss)
                  case Failure(m) => Failure(m)
                  case Success(creds) =>
                    if enrich.JDict? then Success(JDict(WithCredentials(enrich.fields, creds)))
                    else if creds.Some? then Failure(ListIndexError)
                    else Success(enrich)
  }

  /** What the connection settings hold: for a mapping block, every key other than `user`
      and `password` unchanged, those two from the secrets when a secrets source has
      `sql_enrich`, otherwise as in the block; a list block comes back unchanged, and only
      when no secrets source has `sql_enrich`. */
  lemma ConnectionConfigSpec(config: Json, secrets: Json, name: string, k: string)
    requires GetConnectionConfig(config, secrets, name).Success?
    ensures var cols := Lookup(config.fields, "collections").value;
            var first := Lookup(Lookup(cols.fields, name).value.fields, "sources").value.items[0];
            var enrich := Lookup(first.fields, "sql_enrich").value;
            var r := GetConnectionConfig(config, secrets, name).value;
            var creds := FirstCredentials(SecretSources(secrets, name).value).value;
            && (enrich.JDict? || enrich.JList?)
            && (enrich.JDict? ==> r.JDict?)
            && (enrich.JDict? && k != "user" && k != "password" ==> Lookup(r.fields, k) == Lookup(enrich.fields, k))
            && (enrich.JDict? && creds.Some? ==>
                  Lookup(r.fields, "user") == Some(creds.value.0) && Lookup(r.fields, "password") == Some(creds.value.1))
            && (creds.None? ==> r == enrich)
            && (enrich.JList? ==> creds.None?)
  {
  }

  /** An unknown collection ends the program with the collection's name in the message. */
  lemma UnknownCollection(config: Json, secrets: Json, name: string)
    requires config.JDict? && Lookup(config.fields, "collections").Some?
    requires Lookup(config.fields, "collections").value.JDict?
    requires name !in Keys(Lookup(config.fields, "collections").value.fields)
    ensures GetConnectionConfig(config, secrets, name) == Failure("Colección '" + name + "' no encontrada")
  {
  }

  // ---------------------------------------------------------------- running the statement

  /** What the database does with each step; a `Some` is the exception that step raises. */
  datatype DbReply = DbReply(connect: Option<string>, execute: Option<string>,
                             commit: Option<string>, close: Option<string>)

  datatype DbStep = Connect | Execute(sql: string) | Commit | Close

  /** The `try` block: connect, execute, commit, close, stopping at the first exception. */
  function Session(sql: string, db: DbReply): (r: (seq<DbStep>, Option<string>))
    ensures r.1.None? <==> db == DbReply(None, None, None, None)
    ensures r.1.None? ==> r.0 == [Connect, Execute(sql), Commit, Close]
    ensures Close in r.0 <==> db.connect.None? && db.execute.None? && db.commit.None?
    ensures r.0 != [] && r.0[0] == Connect
  {
    if db.connect.Some? then ([Connect], db.connect)
    else if db.execute.Some? then ([Connect, Execute(sql)], db.execute)
    else if db.commit.Some? then ([Connect, Execute(sql), Commit], db.commit)
    else ([Connect, Execute(sql), Commit, Close], db.close)
  }

  datatype DdlOutcome = Rejected(verdict: Verdict) | Cancelled | ConfigExit(message: string) | Completed | Failed(error: string)

  /** A run of `execute_ddl`: how it ended, what reached the database, what was logged. */
  datatype DdlRun = DdlRun(outcome: DdlOutcome, steps: seq<DbStep>, entry: Option<LogEntry>)

  /** `execute_ddl` given its three decisions (the validator's verdict, the operator's answer,
      the connection settings): validate, then ask, then read the settings, then run; only a
      run is logged. */
  function PlanDdl(verdict: Verdict, confirmed: bool, settings: Result<Json>, collection: string,
                   sql: string, db: DbReply, now: string): DdlRun
  {
    if verdict != Accepted then DdlRun(Rejected(verdict), [], None)
    else if !confirmed then DdlRun(Cancelled, [], None)
    else match settings
      case Failure(m) => DdlRun(ConfigExit(m), [], None)
      case Success(s) =>
        var (steps, err) := Session(sql, Reaching(s, db));
        match err
        case None => DdlRun(Completed, steps, Some(LogEntry(now, collection, "SUCCESS", Abbreviate(sql), None)))
        case Some(e) => DdlRun(Failed(e), steps, Some(LogEntry(now, collection, "FAILED", Abbreviate(sql), Some(e))))
  }

  /** What the database does given the settings: `get_connection` reads `source["type"]`
      first, which raises on settings that are not a mapping. */
  function Reaching(settings: Json, db: DbReply): (r: DbReply)
    ensures settings.JDict? ==> r == db
    ensures !settings.JDict? ==> r.connect == Some(ListIndexError)
  {
    if settings.JDict? then db else db.(connect := Some(ListIndexError))
  }

  /** A list block that reaches the connection fails inside the `try`: the connection step
      raises, and the failure is logged. */
  lemma ListSettingsFail(items: seq<Json>, collection: string, sql: string, db: DbReply, now: string)
    ensures PlanDdl(Accepted, true, Success(JList(items)), collection, sql, db, now)
              == DdlRun(Failed(ListIndexError), [Connect],
                        Some(LogEntry(now, collection, "FAILED", Abbreviate(sql), Some(ListIndexError))))
  {
  }

  /** Nothing reaches the database and nothing is logged unless the statement passed the
      validator, the operator confirmed it and the settings were found; a statement that
      reaches the database is the one validated, and every run that connects is logged. */
  lemma PlanDdlGates(verdict: Verdict, confirmed: bool, settings: Result<Json>, collection: string,
                     sql: string, db: DbReply, now: string)
    ensures var run := PlanDdl(verdict, confirmed, settings, collection, sql, db, now);
            && (run.steps != [] <==> run.entry.Some?)
            && (run.steps != [] <==> verdict == Accepted && confirmed && settings.Success?)
            && (forall s :: Execute(s) in run.steps ==> s == sql)
            && (verdict != Accepted ==> run == DdlRun(Rejected(verdict), [], None))
            && (verdict == Accepted && !confirmed ==> run == DdlRun(Cancelled, [], None))
  {
  }

  /** A logged run records the abbreviated statement, SUCCESS exactly when every step went
      through, and FAILED with the exception otherwise; a failure after connecting leaves the
      connection unclosed. */
  lemma PlanDdlLogged(verdict: Verdict, confirmed: bool, settings: Result<Json>, collection: string,
                      sql: string, db: DbReply, now: string)
    requires PlanDdl(verdict, confirmed, settings, collection, sql, db, now).entry.Some?
    ensures var run := PlanDdl(verdict, confirmed, settings, collection, sql, db, now);
            var e := run.entry.value;
            && e.collection == collection && e.operation == Abbreviate(sql) && e.timestamp == now
            && (e.status == "SUCCESS" <==> run.outcome == Completed)
            && (run.outcome == Completed ==> run.steps == [Connect, Execute(sql), Commit, Close])
            && (run.outcome.Failed? ==> e.status == "FAILED" && e.error == Some(run.outcome.error))
            && (run.outcome.Failed? && db.close.None? ==> Close !in run.steps)
  {
  }

  /** The `try` block, one call at a time. */
  method RunSession(sql: string, db: DbReply) returns (steps: seq<DbStep>, error: Option<string>)
    ensures (steps, error) == Session(sql, db)
  {
    steps, error := [Connect], db.connect;
    if error.Some? {
      return;
    }
    steps, error := steps + [Execute(sql)], db.execute;
    assert steps == [Connect, Execute(sql)];
    if error.Some? {
      return;
    }
    steps, error := steps + [Commit], db.commit;
    assert steps == [Connect, Execute(sql), Commit];
    if error.Some? {
      return;
    }
    steps, error := steps + [Close], db.close;
    assert steps == [Connect, Execute(sql), Commit, Close];
  }

  /** `execute_ddl` step by step, appending to the log. */
  method ExecuteDdl(log: OperationLog, config: Json, secrets: Json, collection: string, sql: string,
                    answer: string, db: DbReply, now: string)
    returns (outcome: DdlOutcome, steps: seq<DbStep>)
    modifies log
    ensures var run := PlanDdl(CheckDdl(sql), Confirmed(answer), GetConnectionConfig(config, secrets, collection),
                               collection, sql, db, now);
            && outcome == run.outcome && steps == run.steps
            && log.entries == old(log.entries) + (if run.entry.Some? then [run.entry.value] else [])
  {
    var verdict := CheckDdl(sql);
    if verdict != Accepted {
      return Rejected(verdict), [];
    }
    if !Confirmed(answer) {
      return Cancelled, [];
    }
    var settings := GetConnectionConfig(config, secrets, collection);
    if settings.Failure? {
      return ConfigExit(settings.error), [];
    }
    var error;
    steps, error := RunSession(sql, Reaching(settings.value, db));
    if error.None? {
      log.Append(collection, sql, "SUCCESS", None, now);
      outcome := Completed;
    } else {
      log.Append(collection, sql, "FAILED", error, now);
      outcome := Failed(error.value);
    }
  }
}
