/**
 * What a finished joke fetch delivers to the reducer. The HTTP exchange, the
 * body read and the JSON decoding happen outside the model; their outcome is
 * the input here, and the function decides which message it becomes.
 */
module Fetch {
  import opened Messages
  import opened Reducer
  import Display

  /** The response body after reading it and decoding its "joke" field. */
  datatype Body =
    | Decoded(joke: string)     // a JSON object; a missing "joke" field decodes as ""
    | BodyError(cause: string)  // the read or the JSON decoding failed

  /** How the request ended. */
  datatype Outcome =
    | RequestError(cause: string)  // the request could not be built or sent
    | Response(statusCode: int, status: string, body: Body)

  const StatusOK := 200

  predicate Succeeded(o: Outcome)
  {
    o.Response? && o.statusCode == StatusOK && o.body.Decoded?
  }

  /** The message the fetch command delivers for an outcome. */
  function FetchMessage(o: Outcome): (m: Msg)
    ensures m.Joke? || m.Error?
    ensures m.Joke? <==> Succeeded(o)
    ensures Succeeded(o) ==> m.text == o.body.joke
    ensures o.RequestError? ==> m == Error(o.cause)
    ensures o.Response? && o.statusCode == StatusOK && o.body.BodyError? ==> m == Error(o.body.cause)
    ensures o.Response? && o.statusCode != StatusOK ==>
      m.Error? && m.text == "bad status: " + o.status
      && m.text[|m.text| - |o.status|..] == o.status
  {
    match o
    case RequestError(cause) => Error(cause)
    case Response(code, status, body) =>
      if code != StatusOK then Error("bad status: " + status)
      else match body
        case Decoded(joke) => Joke(joke)
        case BodyError(cause) => Error(cause)
  }

  /** A failed fetch keeps the joke and puts its error in the content area. */
  lemma FailedFetchKeepsJoke(s: ModelState, o: Outcome)
    requires !Succeeded(o)
    ensures Step(s, FetchMessage(o)).state.joke == s.joke
    ensures Display.Content(Step(s, FetchMessage(o)).state) == FetchMessage(o).text
  {
  }
}
