/** The composed response of one exchange: an ordered sequence of content
    blocks, closed as a tagged union, with the loosely typed payloads of tool
    uses and tool results as Python (JSON-like) values. */
module Content {
  import opened Wrappers

  /** A Python value inside a payload: `str`, `int`, `bool`, `None`, `list`
      and `dict` with string keys. */
  datatype Value =
    | Str(s: string)
    | Number(n: int)
    | Boolean(b: bool)
    | Null
    | List(items: seq<Value>)
    | Dict(fields: map<string, Value>)

  /** The `type` of a block of any other kind. */
  type OtherKind = k: string | k != "text" && k != "server_tool_use" && k != "code_execution_tool_result"
    witness "thinking"

  /** One content block, by its `type` attribute: "text", "server_tool_use",
      "code_execution_tool_result", or any other type. A tool use whose object
      has no `input` attribute has `input == None`. */
  datatype Block =
    | TextBlock(text: string)
    | ServerToolUse(name: string, input: Option<Value>)
    | CodeExecutionToolResult(content: Value)
    | OtherBlock(kind: OtherKind)

  datatype Response = Response(content: seq<Block>)

  /** What `solve_problem` hands on: the final message, the question and the
      ISO timestamp taken when the message arrived. */
  datatype SolveResult = SolveResult(response: Response, question: string, timestamp: string)

  /** The name under which the request declares the code-execution tool. */
  const CodeExecutionTool := "code_execution"

  /** The `type` of a tool result payload that carries generated files. */
  const CodeExecutionResultType := "code_execution_result"
}
