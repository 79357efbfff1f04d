/**
 * The joke viewer's state and its reducer as a pure function: given the
 * current state and one message, the next state and the commands to run.
 * `Program.Model.Update` changes the same fields in place and is proved to
 * agree with `Step`.
 */
module Reducer {
  import opened Wrappers
  import opened Messages

  /** The five fields of the viewer's model; `err` is None where Go holds nil. */
  datatype ModelState = ModelState(
    width: int,
    height: int,
    joke: string,
    err: Option<string>,
    countdown: int)

  /** The zero value `model{}` the program starts from. */
  const Zero := ModelState(0, 0, "", None, 0)

  /** The value a refresh tick resets the countdown to, in seconds. */
  const CountdownStart := 5

  /** What one call of the reducer produces. */
  datatype Reply = Reply(state: ModelState, cmds: seq<Cmd>)

  predicate CountdownInRange(s: ModelState)
  {
    0 <= s.countdown <= CountdownStart
  }

  /** The reducer. Each ensures clause names which messages may touch a field. */
  function Step(s: ModelState, msg: Msg): (r: Reply)
    ensures r.state.joke != s.joke ==> msg.Joke?
    ensures r.state.err != s.err ==> msg.Joke? || msg.Error?
    ensures r.state.width != s.width || r.state.height != s.height ==> msg.WindowSize?
    ensures r.state.countdown != s.countdown ==> msg.Tick? || msg.CountDown?
    ensures CountdownInRange(s) ==> CountdownInRange(r.state)
    ensures QuitCmd in r.cmds <==> msg.Key? && IsQuitKey(msg.name)
    ensures QuitCmd in r.cmds ==> r.state == s
  {
    match msg
    case Tick =>
      Reply(s.(countdown := CountdownStart), [TickCmd, FetchJokeCmd, CountdownTickCmd])
    case CountDown =>
      if s.countdown > 0 then Reply(s.(countdown := s.countdown - 1), [CountdownTickCmd])
      else Reply(s, [])
    case Joke(j) => Reply(s.(joke := j, err := None), [])
    case Error(e) => Reply(s.(err := Some(e)), [])
    case Key(k) => if IsQuitKey(k) then Reply(s, [QuitCmd]) else Reply(s, [])
    case WindowSize(w, h) => Reply(s.(width := w, height := h), [])
    case Other => Reply(s, [])
  }

  // ---------------------------------------------------------------------------
  // The transition table, one message kind at a time.

  lemma TickResetsCountdown(s: ModelState)
    ensures Step(s, Tick).state == s.(countdown := CountdownStart)
    ensures multiset(Step(s, Tick).cmds) == multiset{TickCmd, FetchJokeCmd, CountdownTickCmd}
  {
  }

  lemma CountDownDecrementsWhilePositive(s: ModelState)
    ensures s.countdown > 0 ==>
      Step(s, CountDown) == Reply(s.(countdown := s.countdown - 1), [CountdownTickCmd])
    ensures s.countdown <= 0 ==> Step(s, CountDown) == Reply(s, [])
  {
  }

  lemma JokeReplacesJokeAndClearsError(s: ModelState, j: string)
    ensures Step(s, Joke(j)) == Reply(s.(joke := j, err := None), [])
  {
  }

  lemma ErrorKeepsJoke(s: ModelState, e: string)
    ensures Step(s, Error(e)) == Reply(s.(err := Some(e)), [])
  {
  }

  lemma ResizeSetsOnlySize(s: ModelState, w: int, h: int)
    ensures Step(s, WindowSize(w, h)) == Reply(s.(width := w, height := h), [])
  {
  }

  /** A key press never changes the state; it quits exactly on the three literal names. */
  lemma KeyQuitsOnlyOnQuitNames(s: ModelState, k: string)
    ensures Step(s, Key(k)).state == s
    ensures Step(s, Key(k)).cmds == if k in {"q", "esc", "ctrl-c"} then [QuitCmd] else []
  {
  }

  /** The runtime names the interrupt key "ctrl+c"; the literal comparison does not match it. */
  lemma CtrlPlusCDoesNotQuit(s: ModelState)
    ensures Step(s, Key("ctrl+c")) == Reply(s, [])
  {
    assert "ctrl+c"[4] != "ctrl-c"[4];
  }

  // ---------------------------------------------------------------------------
  // How messages combine.

  /** A second tick in a row changes nothing more than the first. */
  lemma TickIsIdempotent(s: ModelState)
    ensures Step(Step(s, Tick).state, Tick) == Step(s, Tick)
  {
  }

  /** A joke erases any error reported before it. */
  lemma JokeOverridesEarlierError(s: ModelState, e: string, j: string)
    ensures Step(Step(s, Error(e)).state, Joke(j)).state == Step(s, Joke(j)).state
  {
  }

  /** A resize commutes with every other message, in state and in commands. */
  lemma ResizeCommutes(s: ModelState, w: int, h: int, msg: Msg)
    requires !msg.WindowSize?
    ensures Step(Step(s, WindowSize(w, h)).state, msg).state
         == Step(Step(s, msg).state, WindowSize(w, h)).state
    ensures Step(Step(s, WindowSize(w, h)).state, msg).cmds == Step(s, msg).cmds
  {
  }

  // ---------------------------------------------------------------------------
  // Whole runs: the state after delivering a sequence of messages one at a time.

  function Run(s: ModelState, msgs: seq<Msg>): ModelState
    decreases |msgs|
  {
    if msgs == [] then s else Step(Run(s, msgs[..|msgs| - 1]), msgs[|msgs| - 1]).state
  }

  /** The countdown stays within [0, 5] along any run that starts inside it. */
  lemma {:induction false} RunKeepsCountdownInRange(s: ModelState, msgs: seq<Msg>)
    requires CountdownInRange(s)
    ensures CountdownInRange(Run(s, msgs))
    decreases |msgs|
  {
    if msgs != [] {
      RunKeepsCountdownInRange(s, msgs[..|msgs| - 1]);
    }
  }

  /** From the zero-valued model the countdown is within [0, CountdownStart] after any messages. */
  lemma ReachableCountdownInRange(msgs: seq<Msg>)
    ensures 0 <= Run(Zero, msgs).countdown <= CountdownStart
  {
    RunKeepsCountdownInRange(Zero, msgs);
  }

  function CountDowns(k: nat): (msgs: seq<Msg>)
    ensures |msgs| == k && forall i :: 0 <= i < k ==> msgs[i] == CountDown
  {
    seq(k, _ => CountDown)
  }

  /**
   * k countdown messages in a row lower a non-negative countdown by one each,
   * stopping at 0, and touch no other field.
   */
  lemma {:induction false} CountdownDrains(s: ModelState, k: nat)
    requires s.countdown >= 0
    ensures Run(s, CountDowns(k)) == s.(countdown := if k <= s.countdown then s.countdown - k else 0)
  {
    if k > 0 {
      assert CountDowns(k)[..k - 1] == CountDowns(k - 1);
      CountdownDrains(s, k - 1);
    }
  }

  /** Only joke messages change the joke, over a whole run. */
  lemma {:induction false} RunKeepsJokeWithoutJokeMessages(s: ModelState, msgs: seq<Msg>)
    requires forall i :: 0 <= i < |msgs| ==> !msgs[i].Joke?
    ensures Run(s, msgs).joke == s.joke
    decreases |msgs|
  {
    if msgs != [] {
      RunKeepsJokeWithoutJokeMessages(s, msgs[..|msgs| - 1]);
    }
  }
}
