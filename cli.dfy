/** The command-line front end: the `chat` and `interactive` command loops with their
    filter commands, the `/sql` confirmation prompt, source selection for `index`, the
    literal table lookup of `schema`, and the `-f key=value` options of `search`/`ask`.
    Terminal input is one sequence of lines, read both at the command prompt and at the
    `/sql` confirmation prompt; running out of lines ends the loop at the command prompt and
    raises at the confirmation prompt. An exception raised by a request's stream ends the
    loop as well. Printing is left out, and what a loop sends on is recorded as requests. */
module Cli {
  import opened Wrappers
  import opened Text
  import opened Sources
  import Search

  // ---------------------------------------------------------------- words and key=value

  /** Position of the first whitespace character, or |s| when there is none. */
  function SpaceIndex(s: string): (i: nat)
    ensures i <= |s| && (i < |s| ==> IsSpace(s[i]))
    ensures forall j :: 0 <= j < i ==> !IsSpace(s[j])
  {
    if s == [] || IsSpace(s[0]) then 0 else 1 + SpaceIndex(s[1..])
  }

  /** No whitespace at all. */
  predicate Solid(s: string)
  {
    forall j :: 0 <= j < |s| ==> !IsSpace(s[j])
  }

  /** `s.split()`: the maximal runs of non-whitespace characters, in order. */
  function Words(s: string): (r: seq<string>)
    ensures forall k :: 0 <= k < |r| ==> r[k] != "" && Solid(r[k])
    decreases |s|
  {
    if s == [] then []
    else if IsSpace(s[0]) then Words(s[1..])
    else
      var n := SpaceIndex(s);
      [s[..n]] + Words(s[n..])
  }

  /** Words written with single spaces between them are split back into themselves. */
  lemma {:induction false} WordsJoin(ws: seq<string>)
    requires forall k :: 0 <= k < |ws| ==> ws[k] != "" && Solid(ws[k])
    ensures Words(Join(" ", ws)) == ws
  {
    if |ws| == 1 {
      WordsOne(ws[0], "");
      assert ws[0] + "" == ws[0];
    } else if |ws| > 1 {
      var rest := Join(" ", ws[1..]);
      WordsJoin(ws[1..]);
      assert Join(" ", ws) == ws[0] + (" " + rest);
      WordsOne(ws[0], " " + rest);
      WordsSpace(' ', rest);
      assert ws == [ws[0]] + ws[1..];
    }
  }

  /** A word followed by a space (or by nothing) is split off as the first word. */
  lemma WordsOne(w: string, tail: string)
    requires w != "" && Solid(w) && (tail == [] || IsSpace(tail[0]))
    ensures Words(w + tail) == [w] + Words(tail)
  {
    var s := w + tail;
    SpaceIndexAt(s, |w|);
    assert s[..|w|] == w && s[|w|..] == tail;
  }

  lemma SpaceIndexAt(s: string, n: nat)
    requires n <= |s| && (n < |s| ==> IsSpace(s[n])) && forall j :: 0 <= j < n ==> !IsSpace(s[j])
    ensures SpaceIndex(s) == n
  {
  }

  /** Leading whitespace adds no word. */
  lemma WordsSpace(c: char, rest: string)
    requires IsSpace(c)
    ensures Words([c] + rest) == Words(rest)
  {
    assert ([c] + rest)[1..] == rest;
  }

  /** `part.split("=", 1)` on a part that contains '=': the text before the first '=' and
      the text after it; nothing when there is no '='. */
  function SplitAtEq(part: string): (r: Option<(string, string)>)
    ensures r.None? <==> '=' !in part
    ensures r.Some? ==> part == r.value.0 + "=" + r.value.1 && '=' !in r.value.0
  {
    var i := IndexOfAny(part, {'='});
    if i == |part| then
      assert part[..i] == part;
      None
    else
      assert part == part[..i] + "=" + part[i + 1..];
      Some((part[..i], part[i + 1..]))
  }

  /** The split is at the first '=', so a key without '=' comes back unchanged. */
  lemma SplitAtEqRoundTrip(key: string, value: string)
    requires '=' !in key
    ensures SplitAtEq(key + "=" + value) == Some((key, value))
  {
    var part := key + "=" + value;
    IndexOfAnyConcat(key, '=', value, {'='});
    assert part[..|key|] == key && part[|key| + 1..] == value;
  }

  // ---------------------------------------------------------------- the filter commands

  /** What one `/filter` part does to the filters. */
  datatype Edit = Put(key: string, value: string) | Remove(key: string) | Ignore

  /** A part without '=' is ignored; `key=none` in any letter case removes the key; any other
      `key=value` sets it. */
  function EditOf(part: string): Edit
  {
    match SplitAtEq(part)
    case None => Ignore
    case Some(kv) => if Lower(kv.1) == "none" then Remove(kv.0) else Put(kv.0, kv.1)
  }

  function ApplyEdit(filters: map<string, string>, e: Edit): map<string, string>
  {
    match e
    case Put(k, v) => filters[k := v]
    case Remove(k) => filters - {k}
    case Ignore => filters
  }

  /** The parts applied in order. */
  function ApplyParts(filters: map<string, string>, parts: seq<string>): map<string, string>
  {
    if parts == [] then filters
    else ApplyEdit(ApplyParts(filters, parts[..|parts| - 1]), EditOf(parts[|parts| - 1]))
  }

  /** The last part that names key `k`, as its edit. */
  function LastEdit(parts: seq<string>, k: string): (r: Option<Edit>)
    ensures r.Some? ==> !r.value.Ignore? && r.value.key == k
  {
    if parts == [] then None
    else
      var e := EditOf(parts[|parts| - 1]);
      if !e.Ignore? && e.key == k then Some(e) else LastEdit(parts[..|parts| - 1], k)
  }

  /** The last part naming a key decides it: set to its value, or removed; a key no part
      names keeps what it had. */
  lemma {:induction false} LastEditWins(filters: map<string, string>, parts: seq<string>, k: string)
    ensures match LastEdit(parts, k)
            case None => (k in ApplyParts(filters, parts) <==> k in filters)
                         && (k in filters ==> ApplyParts(filters, parts)[k] == filters[k])
            case Some(e) => if e.Put? then k in ApplyParts(filters, parts) && ApplyParts(filters, parts)[k] == e.value
                            else k !in ApplyParts(filters, parts)
  {
    if parts != [] {
      var init := parts[..|parts| - 1];
      LastEditWins(filters, init, k);
      EditKey(ApplyParts(filters, init), EditOf(parts[|parts| - 1]), k);
    }
  }

  /** One edit changes only the key it names. */
  lemma EditKey(filters: map<string, string>, e: Edit, k: string)
    ensures (e.Ignore? || e.key != k) ==>
              (k in ApplyEdit(filters, e) <==> k in filters) && (k in filters ==> ApplyEdit(filters, e)[k] == filters[k])
    ensures e.Put? && e.key == k ==> k in ApplyEdit(filters, e) && ApplyEdit(filters, e)[k] == e.value
    ensures e.Remove? && e.key == k ==> k !in ApplyEdit(filters, e)
  {
  }

  /** Which command a stripped input line is. `/filters` is matched before the `/filter`
      prefix; `/sql` is a command only where the loop has it (chat). */
  datatype Command =
    | Blank
    | Quit
    | ClearFilters
    | ShowFilters
    | FilterCmd(parts: seq<string>)
    | SqlCmd(question: string)
    | Query(text: string)

  function Classify(query: string, sqlCommands: bool): (c: Command)
    ensures c.Blank? <==> query == ""
    ensures c.Query? ==> c.text == query
    ensures c.SqlCmd? ==> sqlCommands && Strip(c.question) == c.question
  {
    if query == "" then Blank
    else if query == "/quit" then Quit
    else if query == "/clear" then ClearFilters
    else if query == "/filters" then ShowFilters
    else if StartsWith(query, "/filter") then FilterCmd(Words(query[7..]))
    else if sqlCommands && StartsWith(query, "/sql") then
      StripIdempotent(query[4..]);
      SqlCmd(Strip(query[4..]))
    else Query(query)
  }

  /** `/filters` is matched before the `/filter` prefix and only lists; the parts after
      `/filter` are its space-separated words; the search loop, which has no `/sql`, sends
      `/sql ...` on as an ordinary query. */
  lemma ClassifyCases(query: string, q: string, sqlCommands: bool)
    ensures query == "/filters" ==> Classify(query, sqlCommands) == ShowFilters
    ensures query == "/sql " + q ==> Classify(query, false) == Query(query)
  {
    if query == "/sql " + q {
      assert query[..4] == "/sql";
      assert query[1] == 's';
    }
  }

  /** The parts after `/filter` are its space-separated words. */
  lemma ClassifyFilter(query: string, parts: seq<string>, sqlCommands: bool)
    requires parts != [] && forall k :: 0 <= k < |parts| ==> parts[k] != "" && Solid(parts[k])
    requires query == "/filter " + Join(" ", parts)
    ensures Classify(query, sqlCommands) == FilterCmd(parts)
  {
    var joined := Join(" ", parts);
    JoinPrefix(" ", parts);
    FilterShape(query, joined);
    ClassifyFilterPrefix(query, sqlCommands);
    WordsSpace(' ', joined);
    WordsJoin(parts);
  }

  lemma FilterShape(query: string, joined: string)
    requires joined != [] && query == "/filter " + joined
    ensures StartsWith(query, "/filter") && query != "/filters" && query[7..] == [' '] + joined
  {
    assert query[7] == ' ';
    assert query[..7] == "/filter";
  }

  lemma ClassifyFilterPrefix(query: string, sqlCommands: bool)
    requires StartsWith(query, "/filter") && query != "/filters"
    ensures Classify(query, sqlCommands) == FilterCmd(Words(query[7..]))
  {
    assert query[1] == 'f';
  }

  // ---------------------------------------------------------------- the command loops

  /** What the loop sends on: the `/sql` path of `chat_stream`, its retrieval path, or a
      plain `search` (the interactive loop). */
  datatype Kind = SqlChat | RagChat | SearchOnly

  datatype Request = Request(kind: Kind, question: string, filters: Option<map<string, string>>)

  /** What one input line leads to. */
  datatype Reply =
    | Silent
    | Goodbye
    | FiltersCleared
    | FiltersListed(filters: map<string, string>)
    | SqlUsage
    | Asked(request: Request)

  /** One pass of the loop on a classified input line: the new filters and what the line
      leads to. */
  function Step(filters: map<string, string>, sqlCommands: bool, c: Command): (map<string, string>, Reply)
  {
    match c
    case Blank => (filters, Silent)
    case Quit => (filters, Goodbye)
    case ClearFilters => (map[], FiltersCleared)
    case ShowFilters => (filters, FiltersListed(filters))
    case FilterCmd(parts) => (ApplyParts(filters, parts), FiltersListed(ApplyParts(filters, parts)))
    case SqlCmd(q) => (filters, if q == "" then SqlUsage else Asked(Request(SqlChat, q, Search.WhereFilter(filters))))
    case Query(q) => (filters, Asked(Request(if sqlCommands then RagChat else SearchOnly, q, Search.WhereFilter(filters))))
  }

  /** The stream `chat_stream` yields for each request of the chat loop, and for a request of
      the search loop the outcome of `search`, where a `Raised` item stands for its exception.
      It is produced outside the loop, so the loop takes it as a parameter. On the SQL path it
      reaches the confirmation item once a statement has been generated, and the answer to
      that prompt is the next input line. */
  type Streams = Request -> seq<Search.Event>

  /** The error of the first `Raised` item: the exception that leaves the loop when the
      stream is consumed that far. */
  function Thrown(events: seq<Search.Event>): Option<string>
  {
    if events == [] then None
    else if events[0].Raised? then Some(events[0].error)
    else Thrown(events[1..])
  }

  /** `Thrown` finds an error exactly when the stream has a `Raised` item, and the error it
      finds is the first such item's. */
  lemma {:induction false} ThrownFirst(events: seq<Search.Event>)
    ensures Thrown(events).Some? <==> exists i :: 0 <= i < |events| && events[i].Raised?
    ensures Thrown(events).Some? ==>
              exists i :: 0 <= i < |events| && events[i] == Search.Raised(Thrown(events).value)
                && forall j :: 0 <= j < i ==> !events[j].Raised?
  {
    if events != [] {
      ThrownFirst(events[1..]);
      if !events[0].Raised? {
        if Thrown(events).Some? {
          var i :| 0 <= i < |events[1..]| && events[1..][i] == Search.Raised(Thrown(events).value)
                   && forall j :: 0 <= j < i ==> !events[1..][j].Raised?;
          assert events[i + 1] == Search.Raised(Thrown(events).value);
          forall j | 0 <= j < i + 1
            ensures !events[j].Raised?
          {
            if j > 0 {
              assert events[j] == events[1..][j - 1];
            }
          }
        }
        if exists i :: 0 <= i < |events| && events[i].Raised? {
          var i :| 0 <= i < |events| && events[i].Raised?;
          assert events[1..][i - 1] == events[i];
        }
      } else {
        assert events[0] == Search.Raised(Thrown(events).value);
      }
    }
  }

  /** The stream yields its confirmation item before raising anything. */
  predicate Reaches(events: seq<Search.Event>)
  {
    FirstConfirm(events).Some? && Thrown(events[..FirstConfirm(events).value]).None?
  }

  /** What the loop consumes of a stream that reached the confirmation, once the answer is
      read: up to the confirmation when the answer cancels, all of it otherwise. */
  function Consumed(events: seq<Search.Event>, confirms: bool): (r: seq<Search.Event>)
    requires FirstConfirm(events).Some?
    ensures |r| <= |events| && r == events[..|r|]
  {
    if !confirms then events[..FirstConfirm(events).value + 1] else events
  }

  /** Does this reply leave the loop waiting at the confirmation prompt? */
  predicate AwaitsAnswer(reply: Reply, streams: Streams)
  {
    reply.Asked? && reply.request.kind == SqlChat && Reaches(streams(reply.request))
  }

  /** The request a reply sends, if any. */
  function Sent(reply: Reply): seq<Request>
  {
    if reply.Asked? then [reply.request] else []
  }

  /** How a session ends: the filters, the requests sent, the lines read as confirmation
      answers, whether the input ran out at the confirmation prompt (where the `EOFError` is
      not caught), and the exception a request's stream raised, which no `try` catches
      either. */
  datatype Outcome = Outcome(filters: map<string, string>, requests: seq<Request>, answers: seq<string>,
                             raised: bool, error: Option<string>)

  /** An input line with the command it is when read at the command prompt, and whether it
      confirms when read at the confirmation prompt. */
  datatype Input = Input(line: string, command: Command, confirms: bool)

  /** The input lines, each stripped and classified. */
  function Inputs(lines: seq<string>, sqlCommands: bool): (r: seq<Input>)
    ensures |r| == |lines|
    ensures forall k :: 0 <= k < |r| ==> r[k].line == lines[k]
  {
    if lines == [] then []
    else [Input(lines[0], Classify(Strip(lines[0]), sqlCommands), Lower(Strip(lines[0])) == "s")] + Inputs(lines[1..], sqlCommands)
  }

  /** Every input line is classified as a command that classification can produce. */
  lemma {:induction false} InputsParsed(lines: seq<string>, sqlCommands: bool)
    ensures forall x :: x in Inputs(lines, sqlCommands) ==> Parsed(x.command, sqlCommands)
  {
    if lines != [] {
      InputsParsed(lines[1..], sqlCommands);
      var c := Classify(Strip(lines[0]), sqlCommands);
      assert Parsed(c, sqlCommands);
      assert Inputs(lines, sqlCommands) == [Input(lines[0], c, Lower(Strip(lines[0])) == "s")] + Inputs(lines[1..], sqlCommands);
    }
  }

  lemma {:induction false} CommandAt(lines: seq<string>, sqlCommands: bool, k: nat)
    requires k < |lines|
    ensures Inputs(lines, sqlCommands)[k].command == Classify(Strip(lines[k]), sqlCommands)
  {
    if k > 0 {
      CommandAt(lines[1..], sqlCommands, k - 1);
    }
  }

  /** The line after line i, as the input from line i on sees it. */
  lemma NextInput(lines: seq<string>, sqlCommands: bool, i: nat)
    requires i + 1 < |lines|
    ensures Inputs(lines, sqlCommands)[i..][1].line == lines[i + 1]
    ensures Inputs(lines, sqlCommands)[i..][1].confirms == (Lower(Strip(lines[i + 1])) == "s")
  {
    ConfirmsAt(lines, sqlCommands, i + 1);
    assert Inputs(lines, sqlCommands)[i..][1] == Inputs(lines, sqlCommands)[i + 1];
  }

  lemma {:induction false} ConfirmsAt(lines: seq<string>, sqlCommands: bool, k: nat)
    requires k < |lines|
    ensures Inputs(lines, sqlCommands)[k].confirms == (Lower(Strip(lines[k])) == "s")
  {
    if k > 0 {
      ConfirmsAt(lines[1..], sqlCommands, k - 1);
    }
  }

  /** What one turn of the loop does: the filters after it, the request it sends and the
      answer it reads, if any, how many input lines it reads, and whether the session ends
      in it, at `/quit`, at the end of input at the confirmation prompt (`raised`), or with
      the exception the request's stream raises (`error`). */
  datatype Turn = Turn(filters: map<string, string>, sent: seq<Request>, answers: seq<string>, taken: nat,
                       ends: bool, raised: bool, error: Option<string>)

  /** One turn on the input from the command prompt on: its first line is handled as its
      command, and the turn goes on with what the reply calls for. */
  function TurnOf(filters: map<string, string>, sqlCommands: bool, streams: Streams, input: seq<Input>): (r: Turn)
    requires input != []
    ensures r.sent == Sent(Step(filters, sqlCommands, input[0].command).1) && 1 <= r.taken <= |input|
    ensures !r.ends ==> !r.raised && r.error.None?
  {
    var t := Step(filters, sqlCommands, input[0].command);
    After(t.0, t.1, streams, input)
  }

  /** The rest of a turn once its first line is handled: a request whose stream reaches the
      confirmation takes the next line as its answer, and the stream is consumed up to what
      that answer lets through; the stream of any other request is consumed whole. */
  function After(filters: map<string, string>, reply: Reply, streams: Streams, input: seq<Input>): (r: Turn)
    requires input != []
    ensures r.filters == filters && r.sent == Sent(reply) && 1 <= r.taken <= |input|
    ensures !r.ends ==> !r.raised && r.error.None?
  {
    if reply.Goodbye? then Turn(filters, [], [], 1, true, false, None)
    else if AwaitsAnswer(reply, streams) then Confirmation(filters, reply.request, streams, input)
    else
      var error := if reply.Asked? then Thrown(streams(reply.request)) else None;
      Turn(filters, Sent(reply), [], 1, error.Some?, false, error)
  }

  /** A request whose stream reaches the confirmation: the input runs out at the prompt, or
      the next line is the answer and the stream is consumed as far as that answer lets it. */
  function Confirmation(filters: map<string, string>, request: Request, streams: Streams, input: seq<Input>): (r: Turn)
    requires input != [] && FirstConfirm(streams(request)).Some?
    ensures r.filters == filters && r.sent == [request] && 1 <= r.taken <= |input|
    ensures !r.ends ==> !r.raised && r.error.None?
  {
    if |input| == 1 then Turn(filters, [request], [], 1, true, true, None)
    else
      var error := Thrown(Consumed(streams(request), input[1].confirms));
      Turn(filters, [request], [input[1].line], 2, error.Some?, false, error)
  }

  /** The loop over the input, turn by turn, until a turn ends the session or the input
      runs out at the command prompt. */
  function Loop(filters: map<string, string>, sqlCommands: bool, streams: Streams, input: seq<Input>): Outcome
    decreases |input|
  {
    if input == [] then Outcome(filters, [], [], false, None)
    else
      var turn := TurnOf(filters, sqlCommands, streams, input);
      if turn.ends then Outcome(turn.filters, turn.sent, turn.answers, turn.raised, turn.error)
      else
        var rest := Loop(turn.filters, sqlCommands, streams, input[turn.taken..]);
        Outcome(rest.filters, turn.sent + rest.requests, turn.answers + rest.answers, rest.raised, rest.error)
  }

  /** A whole session over the terminal's input lines. */
  function Session(filters: map<string, string>, sqlCommands: bool, streams: Streams, lines: seq<string>): Outcome
  {
    Loop(filters, sqlCommands, streams, Inputs(lines, sqlCommands))
  }

  /** A request is sent with the filters as None when there are none, never as an empty
      map; its question is never empty; `/sql` questions are stripped; and the kind matches
      the loop. */
  predicate WellFormed(r: Request, sqlCommands: bool)
  {
    && (r.filters.None? || r.filters.value != map[])
    && r.question != ""
    && (r.kind == SqlChat ==> Strip(r.question) == r.question)
    && (r.kind == SearchOnly <==> !sqlCommands)
  }

  /** What classification guarantees about a command. */
  predicate Parsed(c: Command, sqlCommands: bool)
  {
    && (c.SqlCmd? ==> sqlCommands && Strip(c.question) == c.question)
    && (c.Query? ==> c.text != "")
  }

  lemma StepWellFormed(filters: map<string, string>, sqlCommands: bool, c: Command)
    requires Parsed(c, sqlCommands)
    ensures Step(filters, sqlCommands, c).1.Asked? ==> WellFormed(Step(filters, sqlCommands, c).1.request, sqlCommands)
  {
  }

  /** Every request a session over the input lines sends is well formed. */
  lemma SessionWellFormed(filters: map<string, string>, sqlCommands: bool, streams: Streams, lines: seq<string>)
    ensures forall r :: r in Session(filters, sqlCommands, streams, lines).requests ==> WellFormed(r, sqlCommands)
  {
    InputsParsed(lines, sqlCommands);
    LoopWellFormed(filters, sqlCommands, streams, Inputs(lines, sqlCommands));
  }

  lemma {:induction false} LoopWellFormed(filters: map<string, string>, sqlCommands: bool, streams: Streams, input: seq<Input>)
    requires forall x :: x in input ==> Parsed(x.command, sqlCommands)
    ensures forall r :: r in Loop(filters, sqlCommands, streams, input).requests ==> WellFormed(r, sqlCommands)
    decreases |input|
  {
    if input != [] {
      var turn := TurnOf(filters, sqlCommands, streams, input);
      TurnWellFormed(filters, sqlCommands, streams, input);
      if !turn.ends {
        var rest := input[turn.taken..];
        assert forall x :: x in rest ==> x in input;
        LoopWellFormed(turn.filters, sqlCommands, streams, rest);
        LoopOn(filters, sqlCommands, streams, input);
      }
    }
  }

  lemma TurnWellFormed(filters: map<string, string>, sqlCommands: bool, streams: Streams, input: seq<Input>)
    requires input != [] && Parsed(input[0].command, sqlCommands)
    ensures forall r :: r in TurnOf(filters, sqlCommands, streams, input).sent ==> WellFormed(r, sqlCommands)
  {
    StepWellFormed(filters, sqlCommands, input[0].command);
  }

  /** A turn that does not end the session is followed by the loop over the input after it. */
  lemma LoopOn(filters: map<string, string>, sqlCommands: bool, streams: Streams, input: seq<Input>)
    requires input != [] && !TurnOf(filters, sqlCommands, streams, input).ends
    ensures var turn := TurnOf(filters, sqlCommands, streams, input);
            var rest := Loop(turn.filters, sqlCommands, streams, input[turn.taken..]);
            Loop(filters, sqlCommands, streams, input)
              == Outcome(rest.filters, turn.sent + rest.requests, turn.answers + rest.answers, rest.raised, rest.error)
  {
  }

  /** The requests whose stream reaches the confirmation prompt. */
  function Confirming(requests: seq<Request>, streams: Streams): nat
  {
    if requests == [] then 0
    else (if requests[0].kind == SqlChat && Reaches(streams(requests[0])) then 1 else 0) + Confirming(requests[1..], streams)
  }

  lemma ConfirmingAppend(a: seq<Request>, b: seq<Request>, streams: Streams)
    ensures Confirming(a + b, streams) == Confirming(a, streams) + Confirming(b, streams)
  {
    if a != [] {
      assert (a + b)[0] == a[0] && (a + b)[1..] == a[1..] + b;
      ConfirmingAppend(a[1..], b, streams);
    } else {
      assert a + b == b;
    }
  }

  /** One line is read at the confirmation prompt for every request that reaches it, except
      for the last one when the input has run out there. */
  lemma {:induction false} LoopAnswers(filters: map<string, string>, sqlCommands: bool, streams: Streams, input: seq<Input>)
    ensures var o := Loop(filters, sqlCommands, streams, input);
            |o.answers| + (if o.raised then 1 else 0) == Confirming(o.requests, streams)
    decreases |input|
  {
    if input != [] {
      var turn := TurnOf(filters, sqlCommands, streams, input);
      TurnAnswers(filters, sqlCommands, streams, input);
      if !turn.ends {
        var rest := Loop(turn.filters, sqlCommands, streams, input[turn.taken..]);
        LoopAnswers(turn.filters, sqlCommands, streams, input[turn.taken..]);
        ConfirmingAppend(turn.sent, rest.requests, streams);
      }
    }
  }

  lemma TurnAnswers(filters: map<string, string>, sqlCommands: bool, streams: Streams, input: seq<Input>)
    requires input != []
    ensures var turn := TurnOf(filters, sqlCommands, streams, input);
            |turn.answers| + (if turn.raised then 1 else 0) == Confirming(turn.sent, streams)
  {
    var t := Step(filters, sqlCommands, input[0].command);
    if t.1.Asked? {
      assert Confirming([t.1.request], streams)
               == (if t.1.request.kind == SqlChat && Reaches(streams(t.1.request)) then 1 else 0) + Confirming([], streams);
    }
  }

  /** A session that ends with an exception ends at the request whose stream raised it: that
      request is the last one sent, and its stream holds the `Raised` item. */
  lemma {:induction false} LoopErrorLast(filters: map<string, string>, sqlCommands: bool, streams: Streams, input: seq<Input>)
    ensures var o := Loop(filters, sqlCommands, streams, input);
            o.error.Some? ==> o.requests != [] && Search.Raised(o.error.value) in streams(o.requests[|o.requests| - 1])
    decreases |input|
  {
    if input != [] {
      var turn := TurnOf(filters, sqlCommands, streams, input);
      if turn.ends {
        TurnErrorLast(filters, sqlCommands, streams, input);
      } else {
        var rest := Loop(turn.filters, sqlCommands, streams, input[turn.taken..]);
        LoopErrorLast(turn.filters, sqlCommands, streams, input[turn.taken..]);
        if rest.error.Some? {
          LastOfJoin(turn.sent, rest.requests);
        }
      }
    }
  }

  lemma LastOfJoin<T>(a: seq<T>, b: seq<T>)
    requires b != []
    ensures a + b != [] && (a + b)[|a + b| - 1] == b[|b| - 1]
  {
  }

  lemma TurnErrorLast(filters: map<string, string>, sqlCommands: bool, streams: Streams, input: seq<Input>)
    requires input != []
    ensures var turn := TurnOf(filters, sqlCommands, streams, input);
            turn.error.Some? ==> turn.sent != [] && Search.Raised(turn.error.value) in streams(turn.sent[|turn.sent| - 1])
  {
    var t := Step(filters, sqlCommands, input[0].command);
    var turn := TurnOf(filters, sqlCommands, streams, input);
    if turn.error.Some? {
      var events := streams(t.1.request);
      var c := if AwaitsAnswer(t.1, streams) then Consumed(events, input[1].confirms) else events;
      assert turn.sent == [t.1.request] && turn.error == Thrown(c);
      ThrownFirst(c);
      var k :| 0 <= k < |c| && c[k] == Search.Raised(turn.error.value);
      assert events[k] == c[k];
    }
  }

  /** A question whose stream raises (a failed search, in either loop) ends the session:
      it is the only request sent, and no line after it is read. */
  lemma RaisingQuestionEnds(filters: map<string, string>, sqlCommands: bool, streams: Streams,
                            line: string, q: string, rest: seq<string>)
    requires Classify(Strip(line), sqlCommands) == Query(q)
    requires Thrown(streams(Request(if sqlCommands then RagChat else SearchOnly, q, Search.WhereFilter(filters)))).Some?
    ensures var r := Request(if sqlCommands then RagChat else SearchOnly, q, Search.WhereFilter(filters));
            Session(filters, sqlCommands, streams, [line] + rest) == Outcome(filters, [r], [], false, Thrown(streams(r)))
  {
    var lines := [line] + rest;
    CommandAt(lines, sqlCommands, 0);
    assert lines[0] == line;
    LoopRaisingQuestion(filters, sqlCommands, streams, q, Inputs(lines, sqlCommands));
  }

  lemma LoopRaisingQuestion(filters: map<string, string>, sqlCommands: bool, streams: Streams, q: string, input: seq<Input>)
    requires input != [] && input[0].command == Query(q)
    requires Thrown(streams(Request(if sqlCommands then RagChat else SearchOnly, q, Search.WhereFilter(filters)))).Some?
    ensures var r := Request(if sqlCommands then RagChat else SearchOnly, q, Search.WhereFilter(filters));
            Loop(filters, sqlCommands, streams, input) == Outcome(filters, [r], [], false, Thrown(streams(r)))
  {
  }

  /** The interactive search loop has no `/sql`, so it never reads a confirmation answer and
      never stops at that prompt. */
  lemma SearchReadsNoAnswers(filters: map<string, string>, streams: Streams, lines: seq<string>)
    ensures Session(filters, false, streams, lines).answers == []
    ensures !Session(filters, false, streams, lines).raised
  {
    var o := Session(filters, false, streams, lines);
    SessionWellFormed(filters, false, streams, lines);
    LoopAnswers(filters, false, streams, Inputs(lines, false));
    NoneConfirming(o.requests, streams);
  }

  lemma NoneConfirming(requests: seq<Request>, streams: Streams)
    requires forall r :: r in requests ==> r.kind != SqlChat
    ensures Confirming(requests, streams) == 0
  {
    if requests != [] {
      NoneConfirming(requests[1..], streams);
    }
  }

  /** Nothing after a `/quit` line at the command prompt is read. A `/quit` line read as a
      confirmation answer is only an answer, hence the session up to it must neither stop at
      the confirmation prompt nor end with an exception. */
  lemma {:induction false} LoopStopsAtQuit(filters: map<string, string>, sqlCommands: bool, streams: Streams,
                                           before: seq<Input>, quit: Input, after: seq<Input>)
    requires quit.command == Quit
    ensures var o := Loop(filters, sqlCommands, streams, before);
            !o.raised && o.error.None? ==>
              Loop(filters, sqlCommands, streams, before + [quit] + after)
                == Loop(filters, sqlCommands, streams, before + [quit])
    decreases |before|
  {
    var a, b := before + [quit] + after, before + [quit];
    if before == [] {
      assert a[0] == quit && b[0] == quit;
    } else {
      assert a[0] == before[0] && b[0] == before[0] && a[1] == b[1];
      SameTurn(filters, sqlCommands, streams, a, b);
      var turn := TurnOf(filters, sqlCommands, streams, b);
      if |before| > 1 {
        assert before[1] == b[1];
        SameTurn(filters, sqlCommands, streams, before, b);
      } else {
        ShortTurn(filters, sqlCommands, streams, before, b);
      }
      var o := Loop(filters, sqlCommands, streams, before);
      if !turn.ends && !o.raised && o.error.None? {
        assert turn.taken <= |before|;
        DropBefore(before, quit, after, turn.taken);
        LoopStopsAtQuit(turn.filters, sqlCommands, streams, before[turn.taken..], quit, after);
      }
    }
  }

  lemma DropBefore<T>(before: seq<T>, quit: T, after: seq<T>, n: nat)
    requires n <= |before|
    ensures (before + [quit] + after)[n..] == before[n..] + [quit] + after
    ensures (before + [quit])[n..] == before[n..] + [quit]
  {
  }

  /** A turn reads at most its first two lines. */
  lemma SameTurn(filters: map<string, string>, sqlCommands: bool, streams: Streams, a: seq<Input>, b: seq<Input>)
    requires |a| > 1 && |b| > 1 && a[0] == b[0] && a[1] == b[1]
    ensures TurnOf(filters, sqlCommands, streams, a) == TurnOf(filters, sqlCommands, streams, b)
  {
  }

  /** On a single line, a turn reads what it reads with more lines after it, except that
      the input runs out at the confirmation prompt. */
  lemma ShortTurn(filters: map<string, string>, sqlCommands: bool, streams: Streams, a: seq<Input>, b: seq<Input>)
    requires |a| == 1 && |b| > 1 && a[0] == b[0]
    ensures TurnOf(filters, sqlCommands, streams, b).taken == 1 ==>
              TurnOf(filters, sqlCommands, streams, a) == TurnOf(filters, sqlCommands, streams, b)
    ensures TurnOf(filters, sqlCommands, streams, b).taken == 2 ==>
              TurnOf(filters, sqlCommands, streams, a).ends && TurnOf(filters, sqlCommands, streams, a).raised
  {
  }

  /** A `/sql` line whose stream reaches the confirmation, then any line, then `/quit`: one
      request is sent, and the second line is read as the answer to the confirmation, not
      handled as a command of its own, whatever it says. */
  lemma SqlAnswerRead(filters: map<string, string>, streams: Streams, sql: string, q: string, answer: string, quit: string)
    requires Classify(Strip(sql), true) == SqlCmd(q) && q != ""
    requires Reaches(streams(Request(SqlChat, q, Search.WhereFilter(filters))))
    requires Thrown(Consumed(streams(Request(SqlChat, q, Search.WhereFilter(filters))), Lower(Strip(answer)) == "s")).None?
    requires Classify(Strip(quit), true) == Quit
    ensures Session(filters, true, streams, [sql, answer, quit])
              == Outcome(filters, [Request(SqlChat, q, Search.WhereFilter(filters))], [answer], false, None)
  {
    ThreeInputs(sql, answer, quit, q);
    LoopAnswerRead(filters, streams, q, Inputs([sql, answer, quit], true));
  }

  lemma ThreeInputs(sql: string, answer: string, quit: string, q: string)
    requires Classify(Strip(sql), true) == SqlCmd(q)
    requires Classify(Strip(quit), true) == Quit
    ensures var input := Inputs([sql, answer, quit], true);
            && |input| == 3 && input[0].command == SqlCmd(q) && input[2].command == Quit
            && input[1].line == answer && input[1].confirms == (Lower(Strip(answer)) == "s")
  {
    var lines := [sql, answer, quit];
    CommandAt(lines, true, 0);
    ConfirmsAt(lines, true, 1);
    CommandAt(lines, true, 2);
    assert lines[0] == sql && lines[1] == answer && lines[2] == quit;
  }

  lemma LoopAnswerRead(filters: map<string, string>, streams: Streams, q: string, input: seq<Input>)
    requires q != "" && Reaches(streams(Request(SqlChat, q, Search.WhereFilter(filters))))
    requires |input| == 3 && input[0].command == SqlCmd(q) && input[2].command == Quit
    requires Thrown(Consumed(streams(Request(SqlChat, q, Search.WhereFilter(filters))), input[1].confirms)).None?
    ensures Loop(filters, true, streams, input)
              == Outcome(filters, [Request(SqlChat, q, Search.WhereFilter(filters))], [input[1].line], false, None)
  {
    assert input[2..] == [input[2]];
  }

  /** A `/sql` line whose stream reaches the confirmation as the last input line: the request
      is sent and the input runs out at the confirmation prompt. */
  lemma SqlAnswerMissing(filters: map<string, string>, streams: Streams, sql: string, q: string)
    requires Classify(Strip(sql), true) == SqlCmd(q) && q != ""
    requires Reaches(streams(Request(SqlChat, q, Search.WhereFilter(filters))))
    ensures Session(filters, true, streams, [sql])
              == Outcome(filters, [Request(SqlChat, q, Search.WhereFilter(filters))], [], true, None)
  {
    var input := Inputs([sql], true);
    CommandAt([sql], true, 0);
    LoopAnswerMissing(filters, streams, q, input);
  }

  lemma LoopAnswerMissing(filters: map<string, string>, streams: Streams, q: string, input: seq<Input>)
    requires q != "" && Reaches(streams(Request(SqlChat, q, Search.WhereFilter(filters))))
    requires |input| == 1 && input[0].command == SqlCmd(q)
    ensures Loop(filters, true, streams, input)
              == Outcome(filters, [Request(SqlChat, q, Search.WhereFilter(filters))], [], true, None)
  {
  }

  /** `/quit` ends the loop, `/clear` empties the filters, `/filters` leaves them as they are,
      and `/sql` without a question sends nothing. */
  lemma ClearAndShow(filters: map<string, string>, sqlCommands: bool, query: string)
    ensures query == "/quit" ==> Classify(query, sqlCommands) == Quit
    ensures query == "/clear" ==> Step(filters, sqlCommands, Classify(query, sqlCommands)) == (map[], FiltersCleared)
    ensures query == "/filters" ==> Step(filters, sqlCommands, Classify(query, sqlCommands)) == (filters, FiltersListed(filters))
    ensures query == "/sql" ==> Step(filters, true, Classify(query, true)) == (filters, SqlUsage)
  {
    if query == "/quit" {
      ClassifyQuit(query, sqlCommands);
    } else if query == "/clear" {
      ClassifyClear(query, sqlCommands);
    } else if query == "/filters" {
      ClassifyCases(query, [], sqlCommands);
    } else if query == "/sql" {
      ClassifyBareSql(query);
    }
  }

  lemma ClassifyQuit(query: string, sqlCommands: bool)
    requires query == "/quit"
    ensures Classify(query, sqlCommands) == Quit
  {
  }

  lemma ClassifyClear(query: string, sqlCommands: bool)
    requires query == "/clear"
    ensures Classify(query, sqlCommands) == ClearFilters
  {
  }

  lemma ClassifyBareSql(query: string)
    requires query == "/sql"
    ensures Classify(query, true) == SqlCmd("")
  {
    assert query[4..] == [];
    assert query[1] == 's';
  }

  /** The state of a command loop: the active filters, and whether the loop has `/sql`
      (the chat loop) or not (the interactive search loop). */
  class Shell {
    var filters: map<string, string>
    const sqlCommands: bool

    /** `filters = {}` at the start of the loop. */
    constructor(sqlCommands: bool)
      ensures filters == map[] && this.sqlCommands == sqlCommands
    {
      filters := map[];
      this.sqlCommands := sqlCommands;
    }

    /** The `/filter` branch: the loop over the parts after the prefix. */
    method ApplyFilterCommand(parts: seq<string>)
      modifies this
      ensures filters == ApplyParts(old(filters), parts)
    {
      var i := 0;
      while i < |parts|
        invariant 0 <= i <= |parts|
        invariant filters == ApplyParts(old(filters), parts[..i])
      {
        var part := parts[i];
        var kv := SplitAtEq(part);
        if kv.Some? {
          var key, value := kv.value.0, kv.value.1;
          if Lower(value) == "none" {
            filters := filters - {key};
          } else {
            filters := filters[key := value];
          }
        }
        assert parts[..i + 1][..i] == parts[..i];
        i := i + 1;
      }
      assert parts[..i] == parts;
    }

    /** One pass of the loop body on a line read at the command prompt. */
    method Handle(line: string) returns (reply: Reply)
      modifies this
      ensures (filters, reply) == Step(old(filters), sqlCommands, Classify(Strip(line), sqlCommands))
    {
      var query := Strip(line);
      reply := Perform(Classify(query, sqlCommands));
    }

    /** The branches of the loop body, on the classified line. */
    method Perform(command: Command) returns (reply: Reply)
      modifies this
      ensures (filters, reply) == Step(old(filters), sqlCommands, command)
    {
      match command
      case Blank => reply := Silent;
      case Quit => reply := Goodbye;
      case ClearFilters =>
        filters := map[];
        reply := FiltersCleared;
      case ShowFilters => reply := FiltersListed(filters);
      case FilterCmd(parts) =>
        ApplyFilterCommand(parts);
        reply := FiltersListed(filters);
      case SqlCmd(q) =>
        if q == "" {
          reply := SqlUsage;
        } else {
          reply := Asked(Request(SqlChat, q, Search.WhereFilter(filters)));
        }
      case Query(q) =>
        reply := Asked(Request(if sqlCommands then RagChat else SearchOnly, q, Search.WhereFilter(filters)));
    }

    /** One pass of `while True`: read a line, handle it, and go on with the reply. */
    method Serve(lines: seq<string>, i: nat, streams: Streams) returns (turn: Turn)
      requires i < |lines|
      modifies this
      ensures turn == TurnOf(old(filters), sqlCommands, streams, Inputs(lines, sqlCommands)[i..])
      ensures filters == turn.filters
    {
      ghost var input := Inputs(lines, sqlCommands)[i..];
      CommandAt(lines, sqlCommands, i);
      assert input[0] == Inputs(lines, sqlCommands)[i];
      var reply := Handle(lines[i]);
      turn := Answer(reply, lines, i, streams);
    }

    /** After the reply: a request whose stream reaches the confirmation reads its answer;
        otherwise the request's stream is consumed whole. */
    method Answer(reply: Reply, lines: seq<string>, i: nat, streams: Streams) returns (turn: Turn)
      requires i < |lines|
      ensures turn == After(filters, reply, streams, Inputs(lines, sqlCommands)[i..])
    {
      if reply.Goodbye? {
        turn := Turn(filters, [], [], 1, true, false, None);
      } else if AwaitsAnswer(reply, streams) {
        turn := Confirm(reply.request, lines, i, streams);
      } else {
        var error := if reply.Asked? then Thrown(streams(reply.request)) else None;
        turn := Turn(filters, Sent(reply), [], 1, error.Some?, false, error);
      }
    }

    /** The confirmation prompt: read the next line as the answer, and consume the stream
        up to the confirmation when it cancels, all of it otherwise. */
    method Confirm(request: Request, lines: seq<string>, i: nat, streams: Streams) returns (turn: Turn)
      requires i < |lines| && FirstConfirm(streams(request)).Some?
      ensures turn == Confirmation(filters, request, streams, Inputs(lines, sqlCommands)[i..])
    {
      if i + 1 == |lines| {
        turn := Turn(filters, [request], [], 1, true, true, None);
      } else {
        NextInput(lines, sqlCommands, i);
        var events := streams(request);
        var consumed, cancelled := ConsumeSqlStream(events, lines[i + 1]);
        ConsumedPrefix(events, lines[i + 1], consumed, cancelled);
        var error := Thrown(events[..consumed]);
        turn := Turn(filters, [request], [lines[i + 1]], 2, error.Some?, false, error);
      }
    }

    /** A pass of the loop: the session from line i on goes one turn further, to line
        `next`, or ends in this turn. */
    method Advance(lines: seq<string>, i: nat, streams: Streams, ghost whole: Outcome,
                   sent: seq<Request>, answers: seq<string>)
      returns (sent': seq<Request>, answers': seq<string>, next: nat, ends: bool, raised: bool, error: Option<string>)
      requires i < |lines| && RunSoFar(whole, sqlCommands, streams, Inputs(lines, sqlCommands), filters, sent, answers, i)
      modifies this
      ensures i < next <= |lines|
      ensures ends ==> whole == Outcome(filters, sent', answers', raised, error)
      ensures !ends ==> RunSoFar(whole, sqlCommands, streams, Inputs(lines, sqlCommands), filters, sent', answers', next)
    {
      ghost var before := filters;
      var turn := Serve(lines, i, streams);
      sent', answers', next := sent + turn.sent, answers + turn.answers, i + turn.taken;
      ends, raised, error := turn.ends, turn.raised, turn.error;
      if ends {
        RunEnd(whole, sqlCommands, streams, Inputs(lines, sqlCommands), before, sent, answers, i, turn, filters, sent', answers');
      } else {
        RunStep(whole, sqlCommands, streams, Inputs(lines, sqlCommands), before, sent, answers, i, turn, filters, sent', answers', next);
      }
    }

    /** `while True` over the input lines: `/quit` or the end of input at the command prompt
        ends the loop; the end of input at the confirmation prompt raises, and so does a
        stream that raises where the loop consumes it. */
    method Run(lines: seq<string>, streams: Streams)
      returns (requests: seq<Request>, answers: seq<string>, raised: bool, error: Option<string>)
      modifies this
      ensures Outcome(filters, requests, answers, raised, error) == Session(old(filters), sqlCommands, streams, lines)
    {
      ghost var whole := Session(filters, sqlCommands, streams, lines);
      RunStart(filters, sqlCommands, streams, Inputs(lines, sqlCommands));
      requests, answers, raised, error := [], [], false, None;
      var i := 0;
      while i < |lines|
        invariant i <= |lines|
        invariant RunSoFar(whole, sqlCommands, streams, Inputs(lines, sqlCommands), filters, requests, answers, i)
        decreases |lines| - i
      {
        var ends;
        requests, answers, i, ends, raised, error := Advance(lines, i, streams, whole, requests, answers);
        if ends {
          return;
        }
      }
      RunDone(whole, sqlCommands, streams, Inputs(lines, sqlCommands), filters, requests, answers);
      raised, error := false, None;
    }
  }

  /** After the first i lines: the whole session is what has been sent and answered so far,
      followed by the session from line i on. */
  ghost predicate RunSoFar(whole: Outcome, sqlCommands: bool, streams: Streams, input: seq<Input>,
                           filters: map<string, string>, sent: seq<Request>, answers: seq<string>, i: nat)
    requires i <= |input|
  {
    var rest := Loop(filters, sqlCommands, streams, input[i..]);
    whole == Outcome(rest.filters, sent + rest.requests, answers + rest.answers, rest.raised, rest.error)
  }

  lemma RunStart(start: map<string, string>, sqlCommands: bool, streams: Streams, input: seq<Input>)
    ensures RunSoFar(Loop(start, sqlCommands, streams, input), sqlCommands, streams, input, start, [], [], 0)
  {
    assert input[0..] == input;
    var rest := Loop(start, sqlCommands, streams, input);
    assert [] + rest.requests == rest.requests;
    assert [] + rest.answers == rest.answers;
  }

  lemma RunStep(whole: Outcome, sqlCommands: bool, streams: Streams, input: seq<Input>,
                filters: map<string, string>, sent: seq<Request>, answers: seq<string>, i: nat, turn: Turn,
                filters': map<string, string>, sent': seq<Request>, answers': seq<string>, next: nat)
    requires i < |input| && RunSoFar(whole, sqlCommands, streams, input, filters, sent, answers, i)
    requires turn == TurnOf(filters, sqlCommands, streams, input[i..]) && !turn.ends
    requires filters' == turn.filters && sent' == sent + turn.sent && answers' == answers + turn.answers
    requires next == i + turn.taken
    ensures next <= |input| && RunSoFar(whole, sqlCommands, streams, input, filters', sent', answers', next)
  {
    var here := input[i..];
    assert here[turn.taken..] == input[next..];
    LoopJoin(whole, sqlCommands, streams, here, filters, sent, answers);
  }

  /** The session so far followed by the loop from a turn that does not end it is the
      session so far with that turn, followed by the loop after it. */
  lemma LoopJoin(whole: Outcome, sqlCommands: bool, streams: Streams, input: seq<Input>,
                 filters: map<string, string>, sent: seq<Request>, answers: seq<string>)
    requires input != [] && !TurnOf(filters, sqlCommands, streams, input).ends
    requires var o := Loop(filters, sqlCommands, streams, input);
             whole == Outcome(o.filters, sent + o.requests, answers + o.answers, o.raised, o.error)
    ensures var turn := TurnOf(filters, sqlCommands, streams, input);
            var o := Loop(turn.filters, sqlCommands, streams, input[turn.taken..]);
            whole == Outcome(o.filters, (sent + turn.sent) + o.requests, (answers + turn.answers) + o.answers, o.raised, o.error)
  {
    var turn := TurnOf(filters, sqlCommands, streams, input);
    var o := Loop(turn.filters, sqlCommands, streams, input[turn.taken..]);
    LoopOn(filters, sqlCommands, streams, input);
    JoinAfter(whole, Loop(filters, sqlCommands, streams, input), o, sent, answers, turn.sent, turn.answers);
  }

  lemma JoinAfter(whole: Outcome, o: Outcome, rest: Outcome, sent: seq<Request>, answers: seq<string>,
                  sent': seq<Request>, answers': seq<string>)
    requires o == Outcome(rest.filters, sent' + rest.requests, answers' + rest.answers, rest.raised, rest.error)
    requires whole == Outcome(o.filters, sent + o.requests, answers + o.answers, o.raised, o.error)
    ensures whole == Outcome(rest.filters, (sent + sent') + rest.requests, (answers + answers') + rest.answers,
                             rest.raised, rest.error)
  {
    assert sent + (sent' + rest.requests) == (sent + sent') + rest.requests;
    assert answers + (answers' + rest.answers) == (answers + answers') + rest.answers;
  }

  lemma RunEnd(whole: Outcome, sqlCommands: bool, streams: Streams, input: seq<Input>,
               filters: map<string, string>, sent: seq<Request>, answers: seq<string>, i: nat, turn: Turn,
               filters': map<string, string>, sent': seq<Request>, answers': seq<string>)
    requires i < |input| && RunSoFar(whole, sqlCommands, streams, input, filters, sent, answers, i)
    requires turn == TurnOf(filters, sqlCommands, streams, input[i..]) && turn.ends
    requires filters' == turn.filters && sent' == sent + turn.sent && answers' == answers + turn.answers
    ensures whole == Outcome(filters', sent', answers', turn.raised, turn.error)
  {
  }

  lemma RunDone(whole: Outcome, sqlCommands: bool, streams: Streams, input: seq<Input>,
                filters: map<string, string>, sent: seq<Request>, answers: seq<string>)
    requires RunSoFar(whole, sqlCommands, streams, input, filters, sent, answers, |input|)
    ensures whole == Outcome(filters, sent, answers, false, None)
  {
    assert input[|input|..] == [];
    assert sent + [] == sent && answers + [] == answers;
  }

  // ---------------------------------------------------------------- the /sql stream

  /** What `ConsumeSqlStream` consumes is what the loop's specification consumes. */
  lemma ConsumedPrefix(events: seq<Search.Event>, answer: string, consumed: nat, cancelled: bool)
    requires FirstConfirm(events).Some?
    requires cancelled <==> FirstConfirm(events).Some? && Lower(Strip(answer)) != "s"
    requires cancelled ==> consumed == FirstConfirm(events).value + 1
    requires !cancelled ==> consumed == |events|
    ensures events[..consumed] == Consumed(events, Lower(Strip(answer)) == "s")
  {
    if !cancelled {
      assert events[..consumed] == events;
    }
  }

  /** Position of the first confirmation item. */
  function FirstConfirm(events: seq<Search.Event>): (r: Option<nat>)
    ensures r.Some? ==> r.value < |events| && events[r.value].Confirm?
    ensures r.Some? ==> forall j :: 0 <= j < r.value ==> !events[j].Confirm?
    ensures r.None? ==> forall j :: 0 <= j < |events| ==> !events[j].Confirm?
  {
    if events == [] then None
    else if events[0].Confirm? then Some(0)
    else match FirstConfirm(events[1..])
      case None => None
      case Some(k) => Some(k + 1)
  }

  /** The `/sql` branch's loop over the stream: at the confirmation item the answer is read,
      stripped and lowered, and anything but "s" cancels and stops reading the stream, so the
      generator never resumes past the confirmation; every other item is printed. The SQL path
      yields at most one confirmation item, so one answer is read. `consumed` counts the
      model's events taken, which include the `Status`, `Executed` and `AuditWritten` events
      that stand for side effects rather than for items the generator yields. */
  method ConsumeSqlStream(events: seq<Search.Event>, answer: string) returns (consumed: nat, cancelled: bool)
    ensures cancelled <==> FirstConfirm(events).Some? && Lower(Strip(answer)) != "s"
    ensures cancelled ==> consumed == FirstConfirm(events).value + 1
    ensures !cancelled ==> consumed == |events|
    ensures cancelled && Search.WellOrdered(events, 0) ==>
              forall i :: 0 <= i < consumed ==>
                !events[i].Executed? && !events[i].AuditWritten? && events[i] != Search.Generate(true)
  {
    consumed, cancelled := 0, false;
    while consumed < |events|
      invariant consumed <= |events|
      invariant forall j :: 0 <= j < consumed ==> !events[j].Confirm? || Lower(Strip(answer)) == "s"
    {
      var item := events[consumed];
      consumed := consumed + 1;
      if item.Confirm? {
        var confirm := Lower(Strip(answer));
        if confirm != "s" {
          cancelled := true;
          if Search.WellOrdered(events, 0) {
            Search.NothingBeforeConfirm(events, consumed - 1);
          }
          return;
        }
      }
    }
  }

  // ---------------------------------------------------------------- index, schema, -f

  /** What `cmd_index` does, in order. */
  datatype IndexAction =
    | ClearCollection
    | IndexSource(source: SourceConfig, limit: Option<int>)   // fetch_source with the row limit, then index_source
    | CountDocuments                      // get_collection_stats
    | GenerateSchemaCache                 // its failure is reported and swallowed

  /** The sources with the given name, in order (line 81). */
  function Named(sources: seq<SourceConfig>, name: string): (r: seq<SourceConfig>)
    ensures |r| <= |sources|
  {
    if sources == [] then []
    else Named(sources[..|sources| - 1], name) + (if sources[|sources| - 1].name == name then [sources[|sources| - 1]] else [])
  }

  function Names(sources: seq<SourceConfig>): seq<string>
  {
    seq(|sources|, i requires 0 <= i < |sources| => sources[i].name)
  }

  function UnknownSource(name: string, sources: seq<SourceConfig>): string
  {
    "Error: Fuente '" + name + "' no encontrada. Disponibles: " + Join(", ", Names(sources))
  }

  /** The sources an `index` run goes over: those named `--source` when one is given (a
      non-empty name), else all of them. */
  function Selected(sources: seq<SourceConfig>, sourceName: Option<string>): seq<SourceConfig>
  {
    if sourceName.Some? && sourceName.value != "" then Named(sources, sourceName.value) else sources
  }

  /** The sources indexed, in order: the selected ones without `mode: sql`. */
  function Indexed(selected: seq<SourceConfig>, limit: Option<int>): seq<IndexAction>
  {
    if selected == [] then []
    else
      var s := selected[|selected| - 1];
      Indexed(selected[..|selected| - 1], limit) + (if s.IsSqlMode() then [] else [IndexSource(s, limit)])
  }

  /** `cmd_index`: an unknown `--source` ends the run (exit 1) before anything is cleared or
      indexed; otherwise clearing comes first, then the sources in order, then the count and
      the schema cache. */
  function IndexPlan(sources: seq<SourceConfig>, sourceName: Option<string>, limit: Option<int>, clear: bool): Result<seq<IndexAction>>
  {
    var selected := Selected(sources, sourceName);
    if sourceName.Some? && sourceName.value != "" && selected == [] then Failure(UnknownSource(sourceName.value, sources))
    else Success((if clear then [ClearCollection] else []) + Indexed(selected, limit) + [CountDocuments, GenerateSchemaCache])
  }

  /** Named keeps exactly the sources with that name. */
  lemma {:induction false} NamedSpec(sources: seq<SourceConfig>, name: string)
    ensures forall s :: s in Named(sources, name) <==> s in sources && s.name == name
  {
    if sources != [] {
      var init := sources[..|sources| - 1];
      NamedSpec(init, name);
      assert sources == init + [sources[|sources| - 1]];
    }
  }

  /** Indexed has one action per selected source without `mode: sql`, and nothing else. */
  lemma {:induction false} IndexedSpec(selected: seq<SourceConfig>, limit: Option<int>)
    ensures forall a :: a in Indexed(selected, limit) ==> a.IndexSource? && a.limit == limit
    ensures forall s :: IndexSource(s, limit) in Indexed(selected, limit) <==> s in selected && !s.IsSqlMode()
  {
    if selected != [] {
      var init := selected[..|selected| - 1];
      IndexedSpec(init, limit);
      assert selected == init + [selected[|selected| - 1]];
    }
  }

  /** An unknown source fails exactly when no source has that name; otherwise the run clears
      first when asked to, indexes exactly the matching sources that are not `mode: sql`, and
      ends with the count and the schema cache. */
  lemma IndexPlanSpec(sources: seq<SourceConfig>, sourceName: Option<string>, limit: Option<int>, clear: bool)
    ensures var named := sourceName.Some? && sourceName.value != "";
            IndexPlan(sources, sourceName, limit, clear).Failure? <==>
              named && forall j :: 0 <= j < |sources| ==> sources[j].name != sourceName.value
    ensures var p := IndexPlan(sources, sourceName, limit, clear);
            p.Success? ==>
              && (ClearCollection in p.value <==> clear)
              && (clear ==> p.value[0] == ClearCollection)
              && p.value[|p.value| - 2..] == [CountDocuments, GenerateSchemaCache]
              && (forall a :: a in p.value && a.IndexSource? ==> a.limit == limit)
              && forall s :: IndexSource(s, limit) in p.value <==>
                   s in sources && !s.IsSqlMode() && (sourceName.Some? && sourceName.value != "" ==> s.name == sourceName.value)
  {
    var named := sourceName.Some? && sourceName.value != "";
    var selected := Selected(sources, sourceName);
    if named {
      NamedSpec(sources, sourceName.value);
      if selected == [] {
        forall j | 0 <= j < |sources|
          ensures sources[j].name != sourceName.value
        {
          assert sources[j] in sources;
        }
      } else {
        assert selected[0] in selected;
      }
    }
    var p := IndexPlan(sources, sourceName, limit, clear);
    if p.Success? {
      IndexedSpec(selected, limit);
      var front: seq<IndexAction> := if clear then [ClearCollection] else [];
      assert p.value == front + Indexed(selected, limit) + [CountDocuments, GenerateSchemaCache];
      forall a | a in p.value
        ensures a == ClearCollection ==> clear
        ensures a.IndexSource? ==> a in Indexed(selected, limit)
      {
      }
    }
  }

  /** `cmd_index` with its loop over the selected sources. */
  method CmdIndex(sources: seq<SourceConfig>, sourceName: Option<string>, limit: Option<int>, clear: bool)
    returns (r: Result<seq<IndexAction>>)
    ensures r == IndexPlan(sources, sourceName, limit, clear)
  {
    var selected := sources;
    if sourceName.Some? && sourceName.value != "" {
      selected := Named(sources, sourceName.value);
      if selected == [] {
        return Failure(UnknownSource(sourceName.value, sources));
      }
    }
    var front: seq<IndexAction> := if clear then [ClearCollection] else [];
    var indexed: seq<IndexAction> := [];
    var i := 0;
    while i < |selected|
      invariant 0 <= i <= |selected|
      invariant indexed == Indexed(selected[..i], limit)
    {
      var source := selected[i];
      assert selected[..i + 1][..i] == selected[..i];
      if !source.IsSqlMode() {
        indexed := indexed + [IndexSource(source, limit)];
      }
      i := i + 1;
    }
    assert selected[..i] == selected;
    r := Success(front + indexed + [CountDocuments, GenerateSchemaCache]);
  }

  /** What `cmd_schema` ends with. */
  datatype SchemaAnswer =
    | NoCache                                     // the cache file is missing: exit 1
    | Found(table: string, columns: seq<string>)  // the table's columns are listed
    | NotFound                                    // the available tables are listed: exit 1

  /** The loop over the cache's entries, in the file's order: the first whose name equals
      the argument ignoring letter case. */
  method FirstTable(entries: seq<(string, seq<string>)>, table: string) returns (r: Option<nat>)
    ensures r.Some? ==> r.value < |entries| && Lower(entries[r.value].0) == Lower(table)
    ensures r.Some? ==> forall j :: 0 <= j < r.value ==> Lower(entries[j].0) != Lower(table)
    ensures r.None? ==> forall j :: 0 <= j < |entries| ==> Lower(entries[j].0) != Lower(table)
  {
    var wanted := Lower(table);
    var i := 0;
    while i < |entries|
      invariant 0 <= i <= |entries|
      invariant forall j :: 0 <= j < i ==> Lower(entries[j].0) != wanted
    {
      if Lower(entries[i].0) == wanted {
        return Some(i);
      }
      i := i + 1;
    }
    return None;
  }

  /** `cmd_schema`: the cache (absent when the file does not exist) as its entries in order. */
  method CmdSchema(cache: Option<seq<(string, seq<string>)>>, table: string) returns (answer: SchemaAnswer)
    ensures cache.None? <==> answer == NoCache
    ensures answer.NotFound? <==> cache.Some? && forall j :: 0 <= j < |cache.value| ==> Lower(cache.value[j].0) != Lower(table)
    ensures answer.Found? ==> exists i :: 0 <= i < |cache.value| && cache.value[i] == (answer.table, answer.columns)
                                          && Lower(answer.table) == Lower(table)
                                          && forall j :: 0 <= j < i ==> Lower(cache.value[j].0) != Lower(table)
  {
    if cache.None? {
      return NoCache;
    }
    var hit := FirstTable(cache.value, table);
    if hit.None? {
      return NotFound;
    }
    var entry := cache.value[hit.value];
    answer := Found(entry.0, entry.1);
  }

  /** The `-f` options in order: each splits at its first '=' and sets that key, so a later
      option overwrites an earlier one; an option without '=' fails to unpack. */
  function ArgFilters(args: seq<string>): Result<map<string, string>>
  {
    if args == [] then Success(map[])
    else match ArgFilters(args[..|args| - 1])
      case Failure(e) => Failure(e)
      case Success(m) =>
        match SplitAtEq(args[|args| - 1])
        case None => Failure(UnpackError)
        case Some(kv) => Success(m[kv.0 := kv.1])
  }

  const UnpackError: string := "ValueError: not enough values to unpack (expected 2, got 1)"

  /** The value of the last option naming key `k`. */
  function LastValue(args: seq<string>, k: string): Option<string>
  {
    if args == [] then None
    else
      var kv := SplitAtEq(args[|args| - 1]);
      if kv.Some? && kv.value.0 == k then Some(kv.value.1) else LastValue(args[..|args| - 1], k)
  }

  /** The options fail exactly when one has no '='; otherwise each key named has the value of
      its last option, and no other key appears. */
  lemma {:induction false} ArgFiltersSpec(args: seq<string>, k: string)
    ensures ArgFilters(args).Failure? <==> exists i :: 0 <= i < |args| && '=' !in args[i]
    ensures ArgFilters(args).Success? ==>
              (k in ArgFilters(args).value <==> LastValue(args, k).Some?)
              && (k in ArgFilters(args).value ==> ArgFilters(args).value[k] == LastValue(args, k).value)
  {
    if args != [] {
      var init := args[..|args| - 1];
      ArgFiltersSpec(init, k);
      if ArgFilters(init).Failure? {
        var i :| 0 <= i < |init| && '=' !in init[i];
        assert args[i] == init[i];
      } else if '=' in args[|args| - 1] {
        forall i | 0 <= i < |args|
          ensures '=' in args[i]
        {
          if i < |init| {
            assert args[i] == init[i];
          }
        }
      }
    }
  }

  /** `search`/`ask` with `-f`: the loop over the options, then `filters if filters else None`. */
  method ParseFilterArgs(args: seq<string>) returns (r: Result<Option<map<string, string>>>)
    ensures ArgFilters(args).Failure? ==> r == Failure(UnpackError)
    ensures ArgFilters(args).Success? ==> r == Success(Search.WhereFilter(ArgFilters(args).value))
  {
    var filters: map<string, string> := map[];
    var i := 0;
    while i < |args|
      invariant 0 <= i <= |args|
      invariant ArgFilters(args[..i]) == Success(filters)
    {
      assert args[..i + 1][..i] == args[..i];
      var kv := SplitAtEq(args[i]);
      if kv.None? {
        ArgFiltersFail(args, i);
        return Failure(UnpackError);
      }
      filters := filters[kv.value.0 := kv.value.1];
      i := i + 1;
    }
    assert args[..i] == args;
    r := Success(Search.WhereFilter(filters));
  }

  /** Once an option fails to unpack, the whole list does, with the unpacking error. */
  lemma {:induction false} ArgFiltersFail(args: seq<string>, i: nat)
    requires i < |args| && '=' !in args[i] && ArgFilters(args[..i]).Success?
    ensures ArgFilters(args) == Failure(UnpackError)
    decreases |args|
  {
    if i == |args| - 1 {
      assert args[..|args| - 1] == args[..i];
    } else {
      assert args[..|args| - 1][..i] == args[..i];
      ArgFiltersFail(args[..|args| - 1], i);
    }
  }
}
