/**
 * The messages the joke viewer's reducer receives and the commands it hands
 * back to the terminal runtime. The runtime's commands are opaque closures;
 * here each one is a tag naming what it will eventually do.
 */
module Messages {

  /** A message delivered to `Update`. */
  datatype Msg =
    | Tick                             // the 5-second refresh timer fired
    | CountDown                        // the 1-second countdown timer fired
    | Joke(text: string)               // a fetch produced a joke
    | Error(text: string)              // a fetch failed; `text` is the error's message
    | Key(name: string)                // a key press, by the runtime's name for it
    | WindowSize(width: int, height: int)
    | Other                            // any message no case of the reducer handles

  /** A follow-up command returned by `Update` or `Init`. */
  datatype Cmd =
    | TickCmd            // arm the refresh timer; delivers Tick after 5 seconds
    | FetchJokeCmd       // fetch a joke; delivers Joke or Error
    | CountdownTickCmd   // arm the countdown timer; delivers CountDown after 1 second
    | QuitCmd            // ask the runtime to exit

  /** The key names the reducer compares against, literally. */
  predicate IsQuitKey(name: string)
  {
    name == "q" || name == "esc" || name == "ctrl-c"
  }
}
