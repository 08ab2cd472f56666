/**
 * The chat's tool-call handler: each tool call the model asks for is run
 * on the MCP server that offers the tool, and the outcome is recorded. The
 * argument parser (`JSON.parse`, `None` when it throws) and the MCP server's
 * `callTool` are parameters; clocks (timestamps, durations) are left out.
 */
module ToolCalls {
  import opened Wrappers
  import opened Text

  /** A tool call from the model: `kind` is its `type`. */
  datatype ToolCall = ToolCall(id: string, kind: string, name: string, arguments: string)

  /** The server and tool a tool name maps to. */
  datatype ServerEntry = ServerEntry(server: string, tool: string)

  type Args = map<string, string>

  /** What `callTool` does: returns an output or throws with a message. */
  datatype CallOutcome = Returned(output: string) | Threw(message: string)

  /** The `toolResult` handed back to the model. */
  datatype ToolResult = Null | Output(output: string) | NotFound(error: string) | Failed(error: string, isConnectionError: bool)

  datatype Status = Success | Error

  /** The `McpToolCall` record of a call that reached a server. */
  datatype McpToolCall = McpToolCall(id: string, server: string, tool: string, input: Args, output: ToolResult,
                                     status: Status, error: Option<string>)

  datatype ToolCallResult = ToolCallResult(toolResult: ToolResult, mcpToolCall: Option<McpToolCall>)

  /** `arguments || "{}"`. */
  function ArgsText(arguments: string): string {
    if arguments == "" then "{}" else arguments
  }

  /** Whether a failure's message looks like a connection problem. */
  predicate IsConnectionError(message: string) {
    Contains(message, "connect") || Contains(message, "timeout") || Contains(message, "ECONNREFUSED") || Contains(message, "ENOTFOUND")
  }

  /**
   * `executeToolCall`. Arguments that do not parse are parsed once more in
   * the error handler, which throws again: that call fails as a whole, with
   * `Err`.
   */
  function ExecuteToolCall(call: ToolCall, servers: map<string, ServerEntry>, parse: string -> Option<Args>,
                           callTool: (string, Args) -> CallOutcome): Result<ToolCallResult, string>
  {
    if call.kind != "function" then Ok(ToolCallResult(Null, None))
    else if call.name !in servers then Ok(ToolCallResult(NotFound("未找到工具: " + call.name), None))
    else
      var used := servers[call.name];
      match parse(ArgsText(call.arguments))
      case None => Err("invalid tool arguments")
      case Some(args) =>
        match callTool(call.name, args)
        case Returned(output) =>
          Ok(ToolCallResult(Output(output), Some(McpToolCall(call.id, used.server, used.tool, args, Output(output), Success, None))))
        case Threw(message) =>
          var errorResult := Failed(message, IsConnectionError(message));
          Ok(ToolCallResult(errorResult, Some(McpToolCall(call.id, used.server, used.tool, args, errorResult, Error, Some(message)))))
  }

  /** Whether the call was recorded as a success. */
  predicate Succeeded(r: ToolCallResult) {
    r.mcpToolCall.Some? && r.mcpToolCall.value.status == Success
  }

  /**
   * A call that is not a function call gives two nulls; an unknown tool an
   * error result and no record; a known tool a record of that server and
   * tool, a success exactly when `callTool` returned, whose output is the
   * tool result.
   */
  lemma ExecuteToolCallOutcomes(call: ToolCall, servers: map<string, ServerEntry>, parse: string -> Option<Args>,
                                callTool: (string, Args) -> CallOutcome)
    ensures var r := ExecuteToolCall(call, servers, parse, callTool);
      && (call.kind != "function" ==> r == Ok(ToolCallResult(Null, None)))
      && (call.kind == "function" && call.name !in servers ==>
            r.Ok? && r.value.toolResult.NotFound? && r.value.mcpToolCall.None?)
      && (call.kind == "function" && call.name in servers ==>
            (r.Err? <==> parse(ArgsText(call.arguments)).None?) &&
            (r.Ok? ==> var rec := r.value.mcpToolCall;
               rec.Some? && rec.value.id == call.id && rec.value.server == servers[call.name].server &&
               rec.value.tool == servers[call.name].tool && rec.value.output == r.value.toolResult &&
               (Succeeded(r.value) <==> callTool(call.name, parse(ArgsText(call.arguments)).value).Returned?)))
  {
  }

  /** A failed call reports its message, and whether it was a connection problem, both to the model and in the record. */
  lemma FailedCallRecorded(call: ToolCall, servers: map<string, ServerEntry>, parse: string -> Option<Args>,
                           callTool: (string, Args) -> CallOutcome)
    requires call.kind == "function" && call.name in servers && parse(ArgsText(call.arguments)).Some?
    requires callTool(call.name, parse(ArgsText(call.arguments)).value).Threw?
    ensures var message := callTool(call.name, parse(ArgsText(call.arguments)).value).message;
      var r := ExecuteToolCall(call, servers, parse, callTool);
      && r.Ok? && r.value.toolResult == Failed(message, IsConnectionError(message))
      && r.value.mcpToolCall.value.status == Error && r.value.mcpToolCall.value.error == Some(message)
  {
  }

  /** Only a function call on a known tool can succeed. */
  lemma SucceededNeedsKnownTool(call: ToolCall, servers: map<string, ServerEntry>, parse: string -> Option<Args>,
                                callTool: (string, Args) -> CallOutcome)
    requires ExecuteToolCall(call, servers, parse, callTool).Ok? && Succeeded(ExecuteToolCall(call, servers, parse, callTool).value)
    ensures call.kind == "function" && call.name in servers
  {
  }

  /**
   * `executeToolCalls`: runs the calls in order, one result per call in the
   * same order, collecting the names of the calls recorded as successes; a
   * call that fails as a whole ends the run with its error.
   */
  method ExecuteToolCalls(calls: seq<ToolCall>, servers: map<string, ServerEntry>, parse: string -> Option<Args>,
                          callTool: (string, Args) -> CallOutcome)
    returns (r: Result<(seq<ToolCallResult>, set<string>), string>)
    ensures r.Err? <==> exists i :: 0 <= i < |calls| && ExecuteToolCall(calls[i], servers, parse, callTool).Err?
    ensures r.Ok? ==>
      var (results, usedToolNames) := r.value;
      && |results| == |calls|
      && (forall i :: 0 <= i < |calls| ==> ExecuteToolCall(calls[i], servers, parse, callTool) == Ok(results[i]))
      && (forall name :: name in usedToolNames <==>
            exists i :: 0 <= i < |calls| && calls[i].kind == "function" && Succeeded(results[i]) && calls[i].name == name)
  {
    var results: seq<ToolCallResult> := [];
    var usedToolNames: set<string> := {};
    for i := 0 to |calls|
      invariant |results| == i
      invariant forall j :: 0 <= j < i ==> ExecuteToolCall(calls[j], servers, parse, callTool) == Ok(results[j])
      invariant forall name :: name in usedToolNames <==>
        exists j :: 0 <= j < i && calls[j].kind == "function" && Succeeded(results[j]) && calls[j].name == name
    {
      var result := ExecuteToolCall(calls[i], servers, parse, callTool);
      if result.Err? {
        return Err(result.error);
      }
      results := results + [result.value];
      if calls[i].kind == "function" && Succeeded(result.value) {
        usedToolNames := usedToolNames + {calls[i].name};
      }
    }
    return Ok((results, usedToolNames));
  }
}
