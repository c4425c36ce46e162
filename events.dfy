/**
 * The messages a terminal program receives and the commands it returns, as
 * the two interactive views (the timer and the daily status) see them.
 */
module Events {

  datatype Msg =
    | KeyPress(key: string)
    | Resize(width: int, height: int)
      /** The periodic tick; the time it carries is not read, the views ask the clock. */
    | Tick
    | Other

  datatype Cmd = NoCmd | QuitCmd | TickCmd
}
