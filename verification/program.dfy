/**
 * The viewer's model object. `Update` assigns its fields in place, as the
 * pointer-receiver method does, and is proved to do what `Reducer.Step`
 * describes; `Init` and `View` only read it.
 */
module Program {
  import opened Wrappers
  import opened Messages
  import opened Reducer
  import Display

  class Model {
    var width: int
    var height: int
    var joke: string
    var err: Option<string>
    var countdown: int

    /** The fields as one value. */
    function State(): ModelState
      reads this
    {
      ModelState(width, height, joke, err, countdown)
    }

    /** The zero-valued model the program is started with. */
    constructor ()
      ensures State() == Zero
      ensures CountdownInRange(State())
    {
      width, height := 0, 0;
      joke := "";
      err := None;
      countdown := 0;
    }

    /** The first commands: the refresh timer and a fetch, but no countdown yet. */
    function Init(): (cmds: seq<Cmd>)
      ensures TickCmd in cmds && FetchJokeCmd in cmds && |cmds| == 2
      ensures CountdownTickCmd !in cmds && QuitCmd !in cmds
    {
      [TickCmd, FetchJokeCmd]
    }

    method Update(msg: Msg) returns (cmds: seq<Cmd>)
      modifies this
      ensures State() == Step(old(State()), msg).state
      ensures cmds == Step(old(State()), msg).cmds
      ensures old(CountdownInRange(State())) ==> CountdownInRange(State())
    {
      match msg {
        case Tick =>
          countdown := CountdownStart;
          return [TickCmd, FetchJokeCmd, CountdownTickCmd];
        case CountDown =>
          if countdown > 0 {
            countdown := countdown - 1;
            return [CountdownTickCmd];
          }
          return [];
        case Joke(j) =>
          joke := j;
          err := None;
          return [];
        case Error(e) =>
          err := Some(e);
          return [];
        case Key(k) =>
          if IsQuitKey(k) {
            return [QuitCmd];
          }
        case WindowSize(w, h) =>
          width := w;
          height := h;
        case Other =>
      }
      return [];
    }

    function View(): (r: Display.Screen)
      reads this
      ensures r.width == width && r.header == Display.Title
      ensures err.Some? ==> r.content == err.value
      ensures err.None? ==> r.content == joke
      ensures Display.HeaderHeight + r.contentHeight + Display.FooterHeight == height
      ensures r.footer == Display.LoadingFooter <==> countdown == 0
      ensures countdown != 0 ==> Display.ShownCountdown(r.footer) == Some(countdown)
    {
      Display.FooterShowsCountdown(countdown);
      Display.Render(State())
    }
  }
}
