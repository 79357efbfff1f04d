# Dad-joke viewer: a verified model of its message reducer

The `asynctasks` example is a terminal program built on the Bubble Tea
framework. It shows a random dad joke and fetches a new one every five
seconds. A footer counts the seconds down to the next joke. Its logic is one
reducer, `(*model).Update`. Each incoming message (a refresh tick, a
countdown tick, a fetched joke, a fetch error, a key press, a window resize)
changes a fixed subset of five fields: `width`, `height`, `joke`, `err` and
`countdown`. The reducer also returns a fixed set of follow-up commands.
`View` then picks the footer text and the content text from those fields.
`examples/asynctasks/main.go` and `examples/asynctasks/model.go` hold two
copies of this logic. They differ only in the names of the message types, so
this project models them once.

Layout:

- `wrappers.dfy` (`Wrappers`): `Option`, which stands in for Go's nil-able `error`.
- `messages.dfy` (`Messages`): the messages (`Msg`), the commands as tags
  (`Cmd`), and the literal quit-key names.
- `reducer.dfy` (`Reducer`): the model as a value (`ModelState`). It holds the
  reducer as a pure function (`Step`), the transition table as lemmas, and
  whole runs (`Run`) with their invariants.
- `decimal.dfy` (`Decimal`): the `%d` formatting the footer uses. A parser is
  proved to be its inverse.
- `display.dfy` (`Display`): the footer and content selection of `View`, and
  what it shows after a run.
- `fetch.dfy` (`Fetch`): which message a finished fetch delivers, given how
  the HTTP request ended.
- `program.dfy` (`Program`): the `model` object as a class. `Update` assigns
  its fields in place and is proved equal to `Reducer.Step`. Its constructor
  is the zero value `&model{}`.

Notes on what the code does, as modelled:

- The quit test compares the key name with the literal strings `"q"`,
  `"esc"` and `"ctrl-c"`. The framework names the interrupt key `"ctrl+c"`,
  so as written Ctrl-C does not quit through this comparison.
  `Reducer.CtrlPlusCDoesNotQuit` states what the code does with that name.
- The error case in Go is a type switch on an interface type. It therefore
  matches any message whose type implements `error`. `Msg.Error(text)`
  stands for all of them, and `text` is what the error's `Error()` returns.
- Messages of any other type (mouse, focus and so on) and non-quit keys reach
  the final `return m, nil`. The `Msg.Other` variant stands for those other
  message types.
- The footer counts down the 5 seconds to the next joke (the reset to 5 at
  main.go:68 and model.go:42), so the countdown should stay within [0, 5].
  The code does not check this. It holds because the zero value starts at 0,
  a tick sets 5, and a countdown tick only decrements a positive value. The
  model proves it for every run from the zero value
  (`Reducer.ReachableCountdownInRange`).

## Model

| member | source | states |
|---|---|---|
| `Reducer.Step` | examples/asynctasks/model.go:37-72 | only a joke message changes `joke`; only joke and error messages change `err`; only a resize changes `width`/`height`; only the two timer messages change `countdown`; a countdown within [0,5] stays within it; `Quit` is returned exactly for the three quit-key names, and then the state is unchanged |
| `Reducer.TickResetsCountdown` | examples/asynctasks/model.go:41-43 | a tick sets `countdown` to 5, whatever its prior value, changes no other field, and returns the tick, fetch and countdown-tick commands |
| `Reducer.CountDownDecrementsWhilePositive` | examples/asynctasks/model.go:45-50 | a countdown tick with `countdown > 0` lowers it by exactly 1 and returns only the countdown-tick command; otherwise nothing changes and no command is returned |
| `Reducer.JokeReplacesJokeAndClearsError` | examples/asynctasks/model.go:52-55 | a joke message sets `joke` to its text and clears `err`; size and countdown are unchanged; no command |
| `Reducer.ErrorKeepsJoke` | examples/asynctasks/model.go:57-60 | an error message sets `err` and leaves `joke`, size and countdown unchanged; no command |
| `Reducer.ResizeSetsOnlySize` | examples/asynctasks/model.go:66-71 | a resize sets `width` and `height` to its payload and changes nothing else; no command |
| `Reducer.KeyQuitsOnlyOnQuitNames` | examples/asynctasks/model.go:62-65 | a key press never changes the state; it returns `Quit` if the name is "q", "esc" or "ctrl-c", and no command otherwise |
| `Reducer.CtrlPlusCDoesNotQuit` | examples/asynctasks/main.go:89 | the key name "ctrl+c" falls through to no change and no command |
| `Reducer.TickIsIdempotent` | examples/asynctasks/main.go:67-69 | a second tick right after a first leaves the same state and returns the same commands |
| `Reducer.JokeOverridesEarlierError` | examples/asynctasks/main.go:78-86 | an error followed by a joke leaves the same state as the joke alone |
| `Reducer.ResizeCommutes` | examples/asynctasks/main.go:92-94 | a resize commutes with any other message in the resulting state, and does not change that message's commands |
| `Reducer.RunKeepsCountdownInRange` | examples/asynctasks/main.go:67-76 | along any sequence of messages, a countdown within [0,5] stays within [0,5] |
| `Reducer.ReachableCountdownInRange` | examples/asynctasks/main.go:38 | from the zero-valued model, `countdown` is within [0,5] after any sequence of messages |
| `Reducer.CountdownDrains` | examples/asynctasks/main.go:71-76 | k countdown ticks in a row lower a non-negative countdown by one each, stop at 0, and change no other field |
| `Reducer.RunKeepsJokeWithoutJokeMessages` | examples/asynctasks/main.go:78-86 | over a run with no joke message, `joke` keeps its value; errors never touch it |
| `Decimal.FromNat` | examples/asynctasks/model.go:85 | the `%d` text of a natural number is non-empty, all digits, and has no leading zero unless it is "0" |
| `Decimal.FromInt` | examples/asynctasks/model.go:85 | the `%d` text of an integer is non-empty and starts with '-' exactly when the integer is negative |
| `Decimal.ParseNatFromNat` | examples/asynctasks/model.go:85 | reading back the digits of a natural number gives that number |
| `Decimal.ParseIntFromInt` | examples/asynctasks/model.go:85 | reading back the `%d` text of any integer gives that integer |
| `Decimal.FromIntInjective` | examples/asynctasks/model.go:85 | two integers with the same `%d` text are equal |
| `Display.Footer` | examples/asynctasks/model.go:85-88 | the footer is the loading text exactly when `countdown == 0` |
| `Display.FooterShowsCountdown` | examples/asynctasks/main.go:123-126 | a footer for a non-zero countdown N reads back as exactly N; the loading footer reads back as no number |
| `Display.ContentHeight` | examples/asynctasks/model.go:92 | the content height is non-negative exactly when the window is at least 4 rows (header 3, footer 1), and is always less than the window height |
| `Display.Render` | examples/asynctasks/model.go:75-102 | header is the title at the window width; content (chosen by the helper `Display.Content`, about which `Display.ContentShowsLatestFetchResult` is proved) is the error's text when `err` is set and the joke otherwise; content height plus 4 is the window height; footer is the loading text exactly when `countdown == 0` |
| `Display.ContentShowsLatestFetchResult` | examples/asynctasks/main.go:135-138 | after any run, the content shows the text of the latest joke or error message of the run; with neither, it shows what it showed before |
| `Display.ReachableFooter` | examples/asynctasks/main.go:123-126 | from the zero-valued model, the footer is the loading text or states a countdown from 1 to 5 (`CountdownStart`) |
| `Fetch.FetchMessage` | examples/asynctasks/main.go:151-187 | a fetch delivers a joke exactly when the response is 200 and its body decoded, carrying the decoded joke; otherwise an error: a request failure or a body read/decode failure carries that failure's own message, and a non-200 response carries "bad status: " followed by the status line |
| `Fetch.FailedFetchKeepsJoke` | examples/asynctasks/main.go:83-86 | a failed fetch leaves `joke` unchanged and puts the error's text in the content area |
| `Program.Model.constructor` | examples/asynctasks/main.go:43-48 | the new model is the zero value: size 0, empty joke, no error, countdown 0 |
| `Program.Model.Init` | examples/asynctasks/main.go:58-60 | the first commands are the refresh timer and a fetch; no countdown tick and no quit |
| `Program.Model.Update` | examples/asynctasks/main.go:63-98 | the fields after the call, and the commands returned, are those `Reducer.Step` gives for the fields before; a countdown within [0,5] stays within it |
| `Program.Model.View` | examples/asynctasks/main.go:101-141 | shows the error in place of the joke whenever `err` is set; shows the loading footer exactly when `countdown == 0`, and otherwise a footer that reads back as the countdown; content height leaves room for header and footer |

## Left out

- `fetchJoke`'s HTTP GET, reading the body and JSON decoding (main.go and model.go): network I/O and a foreign library. `Fetch.Outcome` takes their result as input.
- Timer delays in `tick` and `countdownTick` (5 s and 1 s): real time. They appear only as the command tags `TickCmd` and `CountdownTickCmd`.
- Asynchronous execution of commands and the delivery of their messages: these belong to the framework's runtime. `Reducer.Run` assumes messages arrive one at a time, in any order.
- Styling, padding, alignment and the vertical join in `View`, and all of `styles.go`: calls into the styling library. `Display.Screen` keeps only the chosen texts and sizes.
- `main`, `run` and logging to `./devlog.log`, including the debug log line at the start of `Update`: host plumbing with no effect on the state.
- `examples/vhsdemo/main.go`: it prints a greeting with pauses and has no logic to model.
- Go's 64-bit `int`: `width`, `height` and `countdown` are unbounded integers here. The countdown only takes values 0 to 5 and is never at risk. `Display.ContentHeight` does not model wrap-around of `height - 4` at the smallest 64-bit value.
- The order of commands inside `tea.Batch`: the runtime runs them concurrently. The model lists them in argument order.
