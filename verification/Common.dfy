/** Small shared types: optional values and the outcome codes of the wire protocol. */
module Common {

  datatype Option<+T> = None | Some(value: T)

  /** ResponseStatus.cs; Unauthorized is declared there but never produced by the agent. */
  datatype Status = Ok | AlreadyRunning | NotRunning | Error | Unauthorized

  /** The fields of AgentResponse that carry meaning for process commands. */
  datatype ProcessReply = ProcessReply(status: Status, isRunning: bool, pid: Option<nat>)

  /** A string less one final line feed, which the anchor $ of .NET regular expressions lets pass. */
  function BeforeLineFeed(t: string): string {
    if t != "" && t[|t| - 1] == '\n' then t[..|t| - 1] else t
  }
}
