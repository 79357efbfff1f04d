/**
 * The text that `View` chooses to show: a fixed header, the joke or the
 * error in the content area, and a footer that either counts down or says a
 * joke is loading. Colours, padding, alignment and the vertical join belong
 * to the styling library and are not modelled; a `Screen` records the three
 * texts and the sizes they are drawn at.
 */
module Display {
  import opened Wrappers
  import opened Messages
  import opened Reducer
  import Decimal

  const Title := "Random Dad Joke"
  const HeaderHeight := 3
  const FooterHeight := 1

  const LoadingFooter := "Next joke loading... | Press q or ESC to quit"
  const CountdownPrefix := "Next joke in "
  const CountdownSuffix := " seconds | Press q or ESC to quit"

  /** The footer text for a countdown value. */
  function Footer(countdown: int): (f: string)
    ensures f == LoadingFooter <==> countdown == 0
  {
    if countdown == 0 then LoadingFooter
    else CountdownPrefix + Decimal.FromInt(countdown) + CountdownSuffix
  }

  /** The number a countdown footer states, or None when the text is not one. */
  function ShownCountdown(f: string): Option<int>
  {
    var p, q := |CountdownPrefix|, |CountdownSuffix|;
    if |f| >= p + q && f[..p] == CountdownPrefix && f[|f| - q..] == CountdownSuffix
    then Decimal.ParseInt(f[p..|f| - q])
    else None
  }

  /** The footer states exactly the countdown whenever it is not the loading text. */
  lemma FooterShowsCountdown(countdown: int)
    ensures ShownCountdown(Footer(countdown)) == if countdown == 0 then None else Some(countdown)
  {
    if countdown != 0 {
      var f, d := Footer(countdown), Decimal.FromInt(countdown);
      var p, q := |CountdownPrefix|, |CountdownSuffix|;
      assert f[..p] == CountdownPrefix;
      assert f[|f| - q..] == CountdownSuffix;
      assert f[p..|f| - q] == d;
      Decimal.ParseIntFromInt(countdown);
    }
  }

  /** The text in the content area: the error's message when there is one, else the joke. */
  function Content(s: ModelState): string
  {
    if s.err.Some? then s.err.value else s.joke
  }

  /** The rows left for the content once header and footer are drawn. */
  function ContentHeight(height: int): (h: int)
    ensures h >= 0 <==> height >= HeaderHeight + FooterHeight
    ensures h < height
  {
    height - HeaderHeight - FooterHeight
  }

  datatype Screen = Screen(
    width: int,
    header: string,
    content: string,
    contentHeight: int,
    footer: string)

  /** What `View` draws for a state, before styling. */
  function Render(s: ModelState): (r: Screen)
    ensures r.width == s.width && r.header == Title
    ensures s.err.Some? ==> r.content == s.err.value
    ensures s.err.None? ==> r.content == s.joke
    ensures HeaderHeight + r.contentHeight + FooterHeight == s.height
    ensures r.footer == LoadingFooter <==> s.countdown == 0
  {
    Screen(s.width, Title, Content(s), ContentHeight(s.height), Footer(s.countdown))
  }

  /** The text of the latest joke or error message in a run, if there is one. */
  function LatestFetchText(msgs: seq<Msg>): Option<string>
    decreases |msgs|
  {
    if msgs == [] then None
    else match msgs[|msgs| - 1]
      case Joke(j) => Some(j)
      case Error(e) => Some(e)
      case _ => LatestFetchText(msgs[..|msgs| - 1])
  }

  /**
   * After a run the content area shows the latest fetch result, whether joke
   * or error; with no fetch result in the run it shows what it showed before.
   */
  lemma {:induction false} ContentShowsLatestFetchResult(s: ModelState, msgs: seq<Msg>)
    ensures Content(Run(s, msgs)) == match LatestFetchText(msgs)
      case Some(t) => t
      case None => Content(s)
    decreases |msgs|
  {
    if msgs != [] {
      ContentShowsLatestFetchResult(s, msgs[..|msgs| - 1]);
    }
  }

  /** From the zero-valued model, the footer says loading or counts 1 to `CountdownStart` seconds. */
  lemma ReachableFooter(msgs: seq<Msg>)
    ensures Footer(Run(Zero, msgs).countdown) == LoadingFooter
         || (ShownCountdown(Footer(Run(Zero, msgs).countdown)).Some?
             && 1 <= ShownCountdown(Footer(Run(Zero, msgs).countdown)).value <= CountdownStart)
  {
    var c := Run(Zero, msgs).countdown;
    ReachableCountdownInRange(msgs);
    FooterShowsCountdown(c);
  }
}
