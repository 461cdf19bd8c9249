/** The client for the project's control service (src/api/mcpClient.ts):
    locating and reading the service's `.env` file, the health probe, and
    writing one datapoint element through a JSON-RPC `tools/call` request
    whose answer arrives as a server-sent event. The network exchange and
    `JSON.parse` are parameters. */
module Mcp {
  import opened Wrappers
  import opened Seqs
  import opened Text
  import opened Json

  // ---------- the .env file ----------

  /** One line of the `.env` file: trimmed, then read by `Entry`. */
  function ParseLine(line: string): Option<(string, string)> {
    Entry(Trim(line))
  }

  /** A trimmed line: empty lines and lines starting with '#' are skipped;
      otherwise it is split at the first '=' when that is not the first
      character. Neither part is trimmed again. */
  function Entry(trimmed: string): (r: Option<(string, string)>)
    ensures r.Some? ==> r.value.0 != [] && '=' !in r.value.0 && r.value.0[0] != '#' && |r.value.0| < |trimmed|
    ensures '=' !in trimmed || StartsWith(trimmed, "#") ==> r.None?
  {
    if trimmed == [] || StartsWith(trimmed, "#") then None
    else
      var eq := IndexOf(trimmed, '=');
      if eq > 0 then
        assert trimmed == trimmed[..eq] + "=" + trimmed[eq + 1..];
        assert trimmed[..eq][0] == trimmed[0];
        Some((trimmed[..eq], trimmed[eq + 1..]))
      else None
  }

  /** A trimmed line defines key `k` as `v` exactly when it reads `k=v`
      with a non-empty key that holds no '=' and does not start with '#'. */
  lemma EntryIff(trimmed: string, k: string, v: string)
    ensures Entry(trimmed) == Some((k, v))
        <==> (trimmed == k + "=" + v && k != [] && '=' !in k && k[0] != '#')
  {
    if Entry(trimmed) == Some((k, v)) {
      var eq := IndexOf(trimmed, '=');
      assert trimmed == trimmed[..eq] + "=" + trimmed[eq + 1..];
      assert k[0] == trimmed[0];
    }
    if trimmed == k + "=" + v && k != [] && '=' !in k && k[0] != '#' {
      assert trimmed[|k|] == '=';
      assert trimmed[..|k|] == k;
      assert IndexOf(trimmed, '=') == |k|;
      assert trimmed[|k| + 1..] == v;
    }
  }

  /** The line sets `k` to some value. */
  predicate SetsKey(line: string, k: string) {
    ParseLine(line).Some? && ParseLine(line).value.0 == k
  }

  /** The environment the lines define, read top to bottom: a later line
      for the same key overwrites an earlier one. */
  function EnvOfLines(lines: seq<string>): (r: map<string, string>)
    ensures forall k :: k in r ==> k != [] && '=' !in k
  {
    if lines == [] then map[]
    else
      var env := EnvOfLines(lines[..|lines| - 1]);
      match ParseLine(lines[|lines| - 1])
      case Some((k, v)) => env[k := v]
      case None => env
  }

  /** `parseEnvFile` on the file's content: the lines are split at '\n'. */
  method ParseEnvFile(content: string) returns (env: map<string, string>)
    ensures env == EnvOfLines(Split(content, {'\n'}))
  {
    var lines := Split(content, {'\n'});
    env := map[];
    for i := 0 to |lines|
      invariant env == EnvOfLines(lines[..i])
    {
      var prefix := lines[..i + 1];
      assert prefix[..|prefix| - 1] == lines[..i] && prefix[|prefix| - 1] == lines[i];
      var trimmed := Trim(lines[i]);
      if trimmed == [] || StartsWith(trimmed, "#") {
        assert ParseLine(lines[i]) == None;
        continue;
      }
      var eq := IndexOf(trimmed, '=');
      if eq > 0 {
        assert ParseLine(lines[i]) == Some((trimmed[..eq], trimmed[eq + 1..]));
        env := env[trimmed[..eq] := trimmed[eq + 1..]];
      } else {
        assert ParseLine(lines[i]) == None;
      }
    }
    assert lines[..|lines|] == lines;
  }

  /** A key is defined exactly when some line sets it. */
  lemma {:induction false} EnvKeys(lines: seq<string>, k: string)
    ensures k in EnvOfLines(lines) <==> exists i :: 0 <= i < |lines| && SetsKey(lines[i], k)
  {
    if lines != [] {
      var init, last := lines[..|lines| - 1], lines[|lines| - 1];
      EnvKeys(init, k);
      assert k in EnvOfLines(lines) <==> k in EnvOfLines(init) || SetsKey(last, k);
      forall i | 0 <= i < |init| ensures init[i] == lines[i] { }
      if SetsKey(last, k) {
        assert SetsKey(lines[|lines| - 1], k);
      }
    }
  }

  /** The value of a key is the one on the last line that sets it. */
  lemma {:induction false} EnvLastWins(lines: seq<string>, i: nat, k: string, v: string)
    requires i < |lines| && ParseLine(lines[i]) == Some((k, v))
    requires forall j :: i < j < |lines| ==> !SetsKey(lines[j], k)
    ensures k in EnvOfLines(lines) && EnvOfLines(lines)[k] == v
  {
    var init := lines[..|lines| - 1];
    if i < |lines| - 1 {
      forall j | i < j < |init| ensures !SetsKey(init[j], k) {
        assert init[j] == lines[j];
      }
      EnvLastWins(init, i, k, v);
    }
  }

  /** Every defined key is non-empty, holds no '=', and comes from a line
      whose trimmed text is exactly `key=value`. */
  lemma {:induction false} EnvEntriesFromLines(lines: seq<string>, k: string)
    requires k in EnvOfLines(lines)
    ensures k != [] && '=' !in k
    ensures exists i :: 0 <= i < |lines| && Trim(lines[i]) == k + "=" + EnvOfLines(lines)[k]
  {
    var init := lines[..|lines| - 1];
    var last := lines[|lines| - 1];
    if SetsKey(last, k) {
      var v := ParseLine(last).value.1;
      EntryIff(Trim(last), k, v);
      assert Trim(lines[|lines| - 1]) == k + "=" + EnvOfLines(lines)[k];
    } else {
      assert k in EnvOfLines(init) && EnvOfLines(lines)[k] == EnvOfLines(init)[k];
      EnvEntriesFromLines(init, k);
      var i :| 0 <= i < |init| && Trim(init[i]) == k + "=" + EnvOfLines(init)[k];
      assert lines[i] == init[i];
    }
  }

  // ---------- configuration ----------

  /** Where the service's address and token live. */
  datatype McpClientConfig = McpClientConfig(url: string, token: string)

  /** `env[key] || fallback`: an absent or empty value falls back. */
  function EnvOr(env: map<string, string>, key: string, fallback: string): string {
    if key in env && env[key] != "" then env[key] else fallback
  }

  /** `path.join(projectPath, 'javascript', 'mcpServer', '.env')` */
  function EnvPath(projectPath: string): string {
    PathJoin(PathJoin(PathJoin(projectPath, "javascript"), "mcpServer"), ".env")
  }

  /** A wildcard listen address is reached through localhost. */
  function OutboundHost(host: string): (r: string)
    ensures r != "0.0.0.0"
    ensures host != "0.0.0.0" ==> r == host
  {
    if host == "0.0.0.0" then "localhost" else host
  }

  /** The configuration an environment gives: port 3001, host localhost
      and an empty token unless the file sets them to non-empty values. */
  function ConfigFromEnv(env: map<string, string>): (r: McpClientConfig)
    ensures StartsWith(r.url, "http://")
    ensures r.token != "" ==> "MCP_API_TOKEN" in env && env["MCP_API_TOKEN"] == r.token
  {
    McpClientConfig(
      "http://" + OutboundHost(EnvOr(env, "MCP_HTTP_HOST", "localhost")) + ":" + EnvOr(env, "MCP_HTTP_PORT", "3001"),
      EnvOr(env, "MCP_API_TOKEN", ""))
  }

  /** With none of the three keys set, the service is looked for at
      http://localhost:3001 without a token. */
  lemma DefaultConfig(env: map<string, string>)
    requires forall key :: key in {"MCP_HTTP_HOST", "MCP_HTTP_PORT", "MCP_API_TOKEN"} && key in env ==> env[key] == ""
    ensures ConfigFromEnv(env) == McpClientConfig("http://localhost:3001", "")
  {
    assert EnvOr(env, "MCP_HTTP_HOST", "localhost") == "localhost";
    assert EnvOr(env, "MCP_HTTP_PORT", "3001") == "3001";
    assert EnvOr(env, "MCP_API_TOKEN", "") == "";
  }

  /** The configured address is `http://host:port` built from the file's
      values, with a wildcard host replaced by localhost. */
  lemma ConfiguredAddress(env: map<string, string>, host: string, port: string)
    requires "MCP_HTTP_HOST" in env && env["MCP_HTTP_HOST"] == host && host != ""
    requires "MCP_HTTP_PORT" in env && env["MCP_HTTP_PORT"] == port && port != ""
    ensures ConfigFromEnv(env).url == "http://" + (if host == "0.0.0.0" then "localhost" else host) + ":" + port
  {
  }

  // ---------- the network exchange ----------

  /** A request `fetch` is given. The body is the value `JSON.stringify` serialises. */
  datatype Request = Request(httpMethod: string, url: string, headers: seq<(string, string)>,
                             body: Option<Json>, timeoutMs: nat)

  /** What `fetch` produced: an exception's message, or a response with its
      status, status text and body text. */
  datatype FetchOutcome =
    | Threw(message: string)
    | Responded(status: int, statusText: string, text: string)
  {
    /** `response.ok`: a status in 200..299. */
    predicate Ok() requires Responded? { 200 <= status <= 299 }
  }

  const HEALTH_TIMEOUT_MS: nat := 3000
  const DP_SET_TIMEOUT_MS: nat := 10000

  function HealthRequest(c: McpClientConfig): Request {
    Request("GET", c.url + "/health", [], None, HEALTH_TIMEOUT_MS)
  }

  /** The JSON-RPC envelope that calls the `dp-set` tool for one element;
      `now` is the clock reading used as the request id. */
  function DpSetBody(dpeName: string, value: Json, now: int): Json {
    JObject(map[
      "jsonrpc" := JString("2.0"),
      "id" := JNumber(now),
      "method" := JString("tools/call"),
      "params" := JObject(map[
        "name" := JString("dp-set"),
        "arguments" := JObject(map[
          "datapoints" := JObject(map["dpeName" := JString(dpeName), "value" := value])])])])
  }

  function DpSetRequest(c: McpClientConfig, dpeName: string, value: Json, now: int): Request {
    Request("POST", c.url + "/mcp",
            [("Content-Type", "application/json"),
             ("Accept", "application/json, text/event-stream"),
             ("Authorization", "Bearer " + c.token)],
            Some(DpSetBody(dpeName, value, now)), DP_SET_TIMEOUT_MS)
  }

  /** The request names the element and the value at
      `params.arguments.datapoints` and calls the `dp-set` tool. */
  lemma DpSetRequestCarriesPoint(c: McpClientConfig, dpeName: string, value: Json, now: int)
    ensures var body := DpSetRequest(c, dpeName, value, now).body.value;
            var point := OptGet(OptGet(OptGet(Some(body), "params"), "arguments"), "datapoints");
            OptGet(point, "dpeName") == Some(JString(dpeName)) && OptGet(point, "value") == Some(value)
            && OptGet(OptGet(Some(body), "params"), "name") == Some(JString("dp-set"))
  {
  }

  // ---------- the server-sent event ----------

  /** What ends a line for `^` and `$` under the `m` flag and what `.` does not match. */
  const LINE_TERMINATORS: set<char> := {'\n', '\r', '\U{2028}', '\U{2029}'}

  predicate IsDataLine(line: string) {
    StartsWith(line, "data: ") && |line| > 6
  }

  /** The capture of `/^data: (.+)$/m`: the rest of the first line that
      starts with "data: " and has at least one more character. */
  function DataPayload(text: string): (r: Option<string>)
    ensures r.None? <==> forall i :: 0 <= i < |Lines(text)| ==> !IsDataLine(Lines(text)[i])
    ensures r.Some? ==> r.value != [] && NoneOf(r.value, LINE_TERMINATORS)
    ensures r.Some? ==> exists k :: 0 <= k < |Lines(text)| && Lines(text)[k] == "data: " + r.value
                          && forall i :: 0 <= i < k ==> !IsDataLine(Lines(text)[i])
  {
    var lines := Lines(text);
    var found := FindFirst(lines, IsDataLine);
    if found.None? then None
    else
      var line := found.value;
      assert exists k :: 0 <= k < |lines| && lines[k] == "data: " + line[6..] && IsDataLine(lines[k])
                         && forall i :: 0 <= i < k ==> !IsDataLine(lines[i]) by {
        var k :| 0 <= k < |lines| && lines[k] == line && IsDataLine(lines[k])
                 && forall i :: 0 <= i < k ==> !IsDataLine(lines[i]);
        assert line[..6] == "data: ";
        assert lines[k] == "data: " + line[6..];
        assert NoneOf(lines[k], LINE_TERMINATORS);
        assert forall i :: 0 <= i < |line[6..]| ==> line[6..][i] == line[i + 6];
      }
      Some(line[6..])
  }

  /** The lines of a text, for `^` and `$` under the `m` flag. */
  function Lines(text: string): seq<string> {
    Split(text, LINE_TERMINATORS)
  }

  /** Splitting at a separator splits the pieces on either side of it apart. */
  lemma {:induction false} SplitAt(a: string, c: char, b: string, seps: set<char>)
    requires c in seps
    ensures Split(a + [c] + b, seps) == Split(a, seps) + Split(b, seps)
  {
    if a == [] {
      assert [c] + b == a + [c] + b;
      assert ([c] + b)[1..] == b;
    } else {
      assert (a + [c] + b)[1..] == a[1..] + [c] + b;
      SplitAt(a[1..], c, b, seps);
    }
  }

  /** A text without separators is one piece. */
  lemma {:induction false} SplitNone(a: string, seps: set<char>)
    requires NoneOf(a, seps)
    ensures Split(a, seps) == [a]
  {
    if a != [] {
      SplitNone(a[1..], seps);
      assert a == [a[0]] + a[1..];
    }
  }

  /** A data line after a line of another kind is the one captured. */
  lemma {:induction false} DataAfterLine(first: string, payload: string)
    requires NoneOf(first, LINE_TERMINATORS) && !IsDataLine(first)
    requires payload != [] && NoneOf(payload, LINE_TERMINATORS)
    ensures DataPayload(first + "\ndata: " + payload + "\n") == Some(payload)
  {
    var line := "data: " + payload;
    assert NoneOf(line, LINE_TERMINATORS) by {
      forall i | 0 <= i < |line| ensures line[i] !in LINE_TERMINATORS {
        if i >= 6 { assert line[i] == payload[i - 6]; }
      }
    }
    var text := first + "\ndata: " + payload + "\n";
    assert text == first + ['\n'] + (line + ['\n'] + "");
    SplitAt(first, '\n', line + ['\n'] + "", LINE_TERMINATORS);
    SplitAt(line, '\n', "", LINE_TERMINATORS);
    SplitNone(first, LINE_TERMINATORS);
    SplitNone(line, LINE_TERMINATORS);
    SplitNone("", LINE_TERMINATORS);
    assert Lines(text) == [first, line, ""];
    assert IsDataLine(line) by { assert line[..6] == "data: "; }
    assert !IsDataLine(Lines(text)[0]) && IsDataLine(Lines(text)[1]);
    var r := DataPayload(text);
    assert r.Some?;
    var k :| 0 <= k < 3 && Lines(text)[k] == "data: " + r.value && forall i :: 0 <= i < k ==> !IsDataLine(Lines(text)[i]);
    assert k == 1;
    assert r.value == line[6..] == payload;
  }

  /** The shape the service sends: an event line, then the data line. */
  lemma EventPayload(payload: string)
    requires payload != [] && NoneOf(payload, LINE_TERMINATORS)
    ensures DataPayload("event: message\ndata: " + payload + "\n") == Some(payload)
  {
    var ev := "event: message";
    assert !IsDataLine(ev) by { assert ev[0] != "data: "[0]; }
    assert NoneOf(ev, LINE_TERMINATORS);
    DataAfterLine(ev, payload);
    assert ev + "\ndata: " + payload + "\n" == "event: message\ndata: " + payload + "\n";
  }

  // ---------- the service's answer ----------

  /** `result.result?.content?.[0]?.text`: throws when the decoded answer is null. */
  function ContentText(result: Json): (r: Result<JsValue, string>)
    ensures r.Failure? <==> result == JNull
  {
    match Prop(result, "result")
    case Failure(e) => Failure(e)
    case Success(inner) => Success(OptGet(OptGet(OptGet(inner, "content"), "0"), "text"))
  }

  /** What `dpSet` resolves to. */
  datatype SetResult = SetResult(success: bool, error: Option<Json>)

  const NOT_CONFIGURED := "MCP client not configured. Is the MCP HTTP server running?"
  const UNEXPECTED_FORMAT := "Unexpected MCP response format"
  const SET_FAILED := "dpSet returned failure"

  function Failed(message: string): SetResult {
    SetResult(false, Some(JString(message)))
  }

  /** The tool's own verdict: success when its `success` field is truthy;
      otherwise the element's `error` when truthy, or a generic failure.
      Throws when the tool's document is null. */
  function Verdict(parsed: Json, dpeName: string): (r: Result<SetResult, string>)
    ensures r.Failure? <==> parsed == JNull
    ensures r.Success? ==> (r.value.success <==> Truthy(Get(parsed, "success")))
    ensures r.Success? && !r.value.success ==> r.value.error.Some? && Truthy(r.value.error)
    ensures r.Success? && r.value.success ==> r.value.error.None?
    ensures r.Success? && !r.value.success ==>
              var reported := OptGet(OptGet(Get(parsed, "data"), dpeName), "error");
              r.value.error == Some(if Truthy(reported) then reported.value else JString(SET_FAILED))
  {
    if parsed == JNull then Failure(NullReadError("success"))
    else if Truthy(Get(parsed, "success")) then Success(SetResult(true, None))
    else
      var reported := OptGet(OptGet(Get(parsed, "data"), dpeName), "error");
      Success(SetResult(false, Some(if Truthy(reported) then reported.value else JString(SET_FAILED))))
  }

  class McpClient {
    var config: Option<McpClientConfig>

    constructor()
      ensures config == None
    {
      config := None;
    }

    predicate IsConfigured()
      reads this
    {
      config.Some?
    }

    /** Looks for the `.env` file under the project; `files` maps the paths
        that exist to their content. Without the file nothing changes. */
    method Configure(projectPath: string, files: map<string, string>) returns (found: bool)
      modifies this
      ensures found <==> EnvPath(projectPath) in files
      ensures found ==> config == Some(ConfigFromEnv(EnvOfLines(Split(files[EnvPath(projectPath)], {'\n'}))))
      ensures !found ==> config == old(config)
    {
      var envPath := EnvPath(projectPath);
      if envPath in files {
        var env := ParseEnvFile(files[envPath]);
        var port := EnvOr(env, "MCP_HTTP_PORT", "3001");
        var host := EnvOr(env, "MCP_HTTP_HOST", "localhost");
        var token := EnvOr(env, "MCP_API_TOKEN", "");
        config := Some(McpClientConfig("http://" + (if host == "0.0.0.0" then "localhost" else host) + ":" + port, token));
        return true;
      }
      return false;
    }

    /** `checkHealth`: `exchange` answers the probe request. */
    function CheckHealth(exchange: Request -> FetchOutcome, parse: string -> Result<Json, string>): (r: bool)
      reads this
      ensures r ==> IsConfigured() && exchange(HealthRequest(config.value)).Responded?
    {
      if config.None? then false
      else
        var outcome := exchange(HealthRequest(config.value));
        if outcome.Threw? || !outcome.Ok() then false
        else match parse(outcome.text)
          case Failure(_) => false
          case Success(data) => Prop(data, "status") == Success(Some(JString("ok")))
    }

    /** `dpSet`: `exchange` answers the request, `parse` is `JSON.parse`
        (its failure carries the exception's text), `now` the clock. */
    function DpSet(dpeName: string, value: Json, now: int,
                   exchange: Request -> FetchOutcome, parse: string -> Result<Json, string>): (r: SetResult)
      reads this
      ensures r.success <==> r.error.None?
      ensures r.success ==> IsConfigured()
    {
      if config.None? then Failed(NOT_CONFIGURED)
      else
        var outcome := exchange(DpSetRequest(config.value, dpeName, value, now));
        if outcome.Threw? then Failed(outcome.message)
        else if !outcome.Ok() then Failed("HTTP " + IntToString(outcome.status) + ": " + outcome.statusText)
        else match DataPayload(outcome.text)
          case None => Failed(UNEXPECTED_FORMAT)
          case Some(payload) => AnswerOf(payload, dpeName, parse)
    }

    /** The data line's part of `dpSet`, from the first `JSON.parse` on. */
    static function AnswerOf(payload: string, dpeName: string, parse: string -> Result<Json, string>): (r: SetResult)
      ensures r.success <==> r.error.None?
      ensures r.success ==> parse(payload).Success?
    {
      match parse(payload)
      case Failure(e) => Failed(e)
      case Success(result) =>
        match ContentText(result)
        case Failure(e) => Failed(e)
        case Success(content) =>
          if !Truthy(content) then Failed(UNEXPECTED_FORMAT)
          else match parse(JsToString(content.value))
            case Failure(e) => Failed(e)
            case Success(parsed) =>
              match Verdict(parsed, dpeName)
              case Failure(e) => Failed(e)
              case Success(r) => r
    }
  }

  /** The probe succeeds exactly when the service answers 2xx with an
      object whose `status` is the string "ok". */
  lemma HealthyIff(c: McpClient, exchange: Request -> FetchOutcome, parse: string -> Result<Json, string>)
    ensures c.CheckHealth(exchange, parse)
        <==> c.IsConfigured()
             && var outcome := exchange(HealthRequest(c.config.value));
                outcome.Responded? && outcome.Ok()
                && exists m :: parse(outcome.text) == Success(JObject(m)) && "status" in m && m["status"] == JString("ok")
  {
    if c.CheckHealth(exchange, parse) {
      var outcome := exchange(HealthRequest(c.config.value));
      var data := parse(outcome.text).value;
      assert IndexKey("status").None? by { assert !('0' <= "status"[0] <= '9'); }
      assert data.JObject?;
    }
  }

  /** Without a configuration nothing is sent and the answer is always the same. */
  lemma UnconfiguredDpSet(c: McpClient, dpeName: string, value: Json, now: int,
                          exchange: Request -> FetchOutcome, parse: string -> Result<Json, string>)
    requires !c.IsConfigured()
    ensures c.DpSet(dpeName, value, now, exchange, parse) == Failed(NOT_CONFIGURED)
  {
  }

  /** A write is reported successful only after a 2xx answer with a data
      line, both decodings succeeding, and the tool's `success` truthy. */
  lemma DpSetSuccessMeans(c: McpClient, dpeName: string, value: Json, now: int,
                          exchange: Request -> FetchOutcome, parse: string -> Result<Json, string>)
    requires c.DpSet(dpeName, value, now, exchange, parse).success
    ensures c.IsConfigured()
    ensures var outcome := exchange(DpSetRequest(c.config.value, dpeName, value, now));
            outcome.Responded? && outcome.Ok()
            && DataPayload(outcome.text).Some?
            && parse(DataPayload(outcome.text).value).Success?
            && var content := ContentText(parse(DataPayload(outcome.text).value).value);
               content.Success? && Truthy(content.value)
               && exists doc :: parse(JsToString(content.value.value)) == Success(doc) && Truthy(Get(doc, "success"))
    ensures c.DpSet(dpeName, value, now, exchange, parse).error.None?
  {
    var outcome := exchange(DpSetRequest(c.config.value, dpeName, value, now));
    var payload := DataPayload(outcome.text).value;
    var content := ContentText(parse(payload).value).value;
    var doc := parse(JsToString(content.value)).value;
    assert Verdict(doc, dpeName).Success?;
  }

  /** Every failure carries an error value. */
  lemma DpSetFailureExplained(c: McpClient, dpeName: string, value: Json, now: int,
                              exchange: Request -> FetchOutcome, parse: string -> Result<Json, string>)
    requires !c.DpSet(dpeName, value, now, exchange, parse).success
    ensures c.DpSet(dpeName, value, now, exchange, parse).error.Some?
  {
  }

  /** The happy path through `AnswerOf`: the envelope parses, its first
      content item carries a non-empty text, that text parses and yields a verdict. */
  lemma AnswerChain(payload: string, dpeName: string, parse: string -> Result<Json, string>,
                    toolText: string, verdict: SetResult)
    requires parse(payload).Success? && ContentText(parse(payload).value) == Success(Some(JString(toolText)))
    requires toolText != ""
    requires parse(toolText).Success? && Verdict(parse(toolText).value, dpeName) == Success(verdict)
    ensures McpClient.AnswerOf(payload, dpeName, parse) == verdict
  {
    assert JsToString(JString(toolText)) == toolText;
  }

  /** The text of the first content item of an envelope. */
  lemma EnvelopeText(item: map<string, Json>, toolText: string)
    requires "text" in item && item["text"] == JString(toolText)
    ensures ContentText(JObject(map["result" := JObject(map["content" := JArray([JObject(item)])])]))
            == Success(Some(JString(toolText)))
  {
    ArrayIndexing([JObject(item)]);
  }

  /** The tool's text for an accepted write, inside the service's envelope. */
  lemma AcceptedAnswer(payload: string, dpeName: string, parse: string -> Result<Json, string>, toolText: string)
    requires parse(payload) == Success(JObject(map["result" := JObject(map[
               "content" := JArray([JObject(map["type" := JString("text"), "text" := JString(toolText)])])])]))
    requires parse(toolText) == Success(JObject(map["success" := JBool(true)]))
    requires toolText != ""
    ensures McpClient.AnswerOf(payload, dpeName, parse) == SetResult(true, None)
  {
    EnvelopeText(map["type" := JString("text"), "text" := JString(toolText)], toolText);
    assert Get(parse(toolText).value, "success") == Some(JBool(true));
    AnswerChain(payload, dpeName, parse, toolText, SetResult(true, None));
  }

  /** The answer the service gives for an accepted write. */
  lemma AcceptedWrite(c: McpClient, dpeName: string, value: Json, now: int,
                      exchange: Request -> FetchOutcome, parse: string -> Result<Json, string>,
                      payload: string, toolText: string)
    requires c.IsConfigured()
    requires exchange(DpSetRequest(c.config.value, dpeName, value, now))
             == Responded(200, "OK", "event: message\ndata: " + payload + "\n")
    requires payload != [] && NoneOf(payload, LINE_TERMINATORS)
    requires parse(payload) == Success(JObject(map["result" := JObject(map[
               "content" := JArray([JObject(map["type" := JString("text"), "text" := JString(toolText)])])])]))
    requires parse(toolText) == Success(JObject(map["success" := JBool(true)]))
    requires toolText != ""
    ensures c.DpSet(dpeName, value, now, exchange, parse) == SetResult(true, None)
  {
    EventPayload(payload);
    AcceptedAnswer(payload, dpeName, parse, toolText);
  }

  /** The tool's text for a refused write, inside the service's envelope. */
  lemma RefusedAnswer(payload: string, dpeName: string, parse: string -> Result<Json, string>,
                      toolText: string, reason: string)
    requires parse(payload) == Success(JObject(map["result" := JObject(map[
               "content" := JArray([JObject(map["text" := JString(toolText)])])])]))
    requires parse(toolText) == Success(JObject(map["success" := JBool(false),
               "data" := JObject(map[dpeName := JObject(map["error" := JString(reason)])])]))
    requires toolText != "" && reason != ""
    ensures McpClient.AnswerOf(payload, dpeName, parse) == Failed(reason)
  {
    EnvelopeText(map["text" := JString(toolText)], toolText);
    var doc := parse(toolText).value;
    var entry := JObject(map["error" := JString(reason)]);
    assert Get(doc, "success") == Some(JBool(false));
    assert Get(doc, "data") == Some(JObject(map[dpeName := entry]));
    assert OptGet(Get(doc, "data"), dpeName) == Some(entry);
    assert OptGet(Some(entry), "error") == Some(JString(reason));
    AnswerChain(payload, dpeName, parse, toolText, SetResult(false, Some(JString(reason))));
  }

  /** A refused write reports the element's own error text. */
  lemma RefusedWrite(c: McpClient, dpeName: string, value: Json, now: int,
                     exchange: Request -> FetchOutcome, parse: string -> Result<Json, string>,
                     payload: string, toolText: string, reason: string)
    requires c.IsConfigured()
    requires exchange(DpSetRequest(c.config.value, dpeName, value, now))
             == Responded(200, "OK", "event: message\ndata: " + payload + "\n")
    requires payload != [] && NoneOf(payload, LINE_TERMINATORS)
    requires parse(payload) == Success(JObject(map["result" := JObject(map[
               "content" := JArray([JObject(map["text" := JString(toolText)])])])]))
    requires parse(toolText) == Success(JObject(map["success" := JBool(false),
               "data" := JObject(map[dpeName := JObject(map["error" := JString(reason)])])]))
    requires toolText != "" && reason != ""
    ensures c.DpSet(dpeName, value, now, exchange, parse) == Failed(reason)
  {
    EventPayload(payload);
    RefusedAnswer(payload, dpeName, parse, toolText, reason);
  }

  /** A non-2xx answer is reported by its status code and status text. */
  lemma HttpError(c: McpClient, dpeName: string, value: Json, now: int,
                  exchange: Request -> FetchOutcome, parse: string -> Result<Json, string>,
                  status: int, statusText: string, text: string)
    requires c.IsConfigured()
    requires exchange(DpSetRequest(c.config.value, dpeName, value, now)) == Responded(status, statusText, text)
    requires !(200 <= status <= 299)
    ensures c.DpSet(dpeName, value, now, exchange, parse) == Failed("HTTP " + IntToString(status) + ": " + statusText)
  {
  }

  /** A `fetch` that throws (no connection, a timeout) is reported by the exception's message. */
  lemma FetchThrew(c: McpClient, dpeName: string, value: Json, now: int,
                   exchange: Request -> FetchOutcome, parse: string -> Result<Json, string>, message: string)
    requires c.IsConfigured()
    requires exchange(DpSetRequest(c.config.value, dpeName, value, now)) == Threw(message)
    ensures c.DpSet(dpeName, value, now, exchange, parse) == Failed(message)
  {
  }

  /** A data line that does not decode is reported by the decoder's message. */
  lemma DecodeFailure(payload: string, dpeName: string, parse: string -> Result<Json, string>, e: string)
    requires parse(payload) == Failure(e)
    ensures McpClient.AnswerOf(payload, dpeName, parse) == Failed(e)
  {
  }

  /** An envelope whose first content item has no truthy text is an unexpected format. */
  lemma MissingContent(payload: string, dpeName: string, parse: string -> Result<Json, string>, envelope: Json)
    requires parse(payload) == Success(envelope) && envelope != JNull
    requires !Truthy(OptGet(OptGet(OptGet(Get(envelope, "result"), "content"), "0"), "text"))
    ensures McpClient.AnswerOf(payload, dpeName, parse) == Failed(UNEXPECTED_FORMAT)
  {
  }

  /** A tool text that does not decode is reported by the decoder's message. */
  lemma ToolTextDecodeFailure(payload: string, dpeName: string, parse: string -> Result<Json, string>,
                              envelope: Json, e: string)
    requires parse(payload) == Success(envelope)
    requires var content := ContentText(envelope);
             content.Success? && Truthy(content.value) && parse(JsToString(content.value.value)) == Failure(e)
    ensures McpClient.AnswerOf(payload, dpeName, parse) == Failed(e)
  {
  }

  /** An answer without a data line is an unexpected format. */
  lemma NoDataLine(c: McpClient, dpeName: string, value: Json, now: int,
                   exchange: Request -> FetchOutcome, parse: string -> Result<Json, string>)
    requires c.IsConfigured()
    requires var outcome := exchange(DpSetRequest(c.config.value, dpeName, value, now));
             outcome.Responded? && outcome.Ok()
             && forall line :: line in Split(outcome.text, LINE_TERMINATORS) ==> !StartsWith(line, "data: ")
    ensures c.DpSet(dpeName, value, now, exchange, parse) == Failed(UNEXPECTED_FORMAT)
  {
  }
}
