/** The vocabulary shared by the desktop, the wire protocol and the server. */
module Status {

  datatype Option<+T> = None | Some(value: T)

  datatype DisplayState = Idle | Thinking | Working | Review | Waiting | Done | Failed

  /** `Unknown` means that no signal was accepted yet; `Waiting` is a blocked agent, not an idle one. */
  datatype ActivityState = Unknown | Active | EligibleIdle | Waiting | Failed

  /** Milliseconds on the server's clock. */
  type Time = int

  function Max(a: int, b: int): int {
    if a < b then b else a
  }

  function Min(a: int, b: int): int {
    if a < b then a else b
  }
}
