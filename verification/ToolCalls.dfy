/** A tool invocation as providers report it (`providers/types.py`). */
module ToolCalls {
  import opened JsonValue

  type Arguments = map<string, Json>

  datatype ToolCall = ToolCall(callId: string, toolName: string, arguments: Arguments)
}
