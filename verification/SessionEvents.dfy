/** The session events the engine tells apart; every other kind is `OtherEvent`. */
module SessionEvents {
  import opened Wrappers

  datatype SessionEvent =
    | AssistantMessage(content: string)
    | SessionIdle
    | SessionError(message: string)
    | ToolRequested(requestId: string, toolName: string)
    | PermissionRequested(requestId: string, resolvedByHook: Option<bool>)
    | CommandExecute(requestId: string, commandName: string)
    | ElicitationRequested(requestId: string)
    | CapabilitiesChanged(elicitation: Option<bool>)
    | OtherEvent(name: string)
}
