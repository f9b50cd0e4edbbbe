/**
 * The client's transport rule (`graphqlRequest` in app.js) once the HTTP exchange and JSON
 * parsing are abstracted into a reply value: an envelope that carries `errors` fails with
 * the first error's message, any other envelope yields its `data` unchanged.
 */
module Transport {
  import opened Wrappers

  /** One entry of a GraphQL response's top-level `errors` list. */
  datatype GraphQLError = GraphQLError(message: string)

  /**
   * A parsed GraphQL response body. `errors` is None when the field is absent or falsy
   * (`null`); any list, even an empty one, is truthy in JavaScript and counts as present.
   */
  datatype Envelope<D> = Envelope(data: D, errors: Option<seq<GraphQLError>>)

  /** What `fetch` plus `response.json()` produced: a parsed body, or the message of the exception they threw. */
  datatype Reply<D> = TransportFailure(reason: string) | Received(body: Envelope<D>)

  /** The settled result of `graphqlRequest`: the `data` it returns, or the message of the error it rethrows. */
  datatype Outcome<D> = Success(data: D) | Failure(message: string)

  /**
   * The message of the TypeError JavaScript raises for `result.errors[0].message` when
   * `errors` is an empty list (V8's wording).
   */
  const MissingErrorEntry := "Cannot read properties of undefined (reading 'message')"

  /** The prefix the failure banner puts before the error's message. */
  const ErrorPrefix := "Error: "

  /** The envelope rule of `graphqlRequest`. */
  function Settle<D>(reply: Reply<D>): (r: Outcome<D>)
    ensures r.Success? <==> reply.Received? && reply.body.errors.None?
    ensures r.Success? ==> r.data == reply.body.data
    ensures reply.TransportFailure? ==> r == Failure(reply.reason)
    ensures reply.Received? && reply.body.errors.Some? ==>
      r == Failure(if reply.body.errors.value == [] then MissingErrorEntry else reply.body.errors.value[0].message)
  {
    match reply
    case TransportFailure(reason) => Failure(reason)
    case Received(Envelope(data, errors)) =>
      match errors
      case None => Success(data)
      case Some(list) =>
        if list == [] then Failure(MissingErrorEntry) else Failure(list[0].message)
  }

  /** Only the first error is surfaced: the data and the errors after the first make no difference. */
  lemma FirstErrorDecides<D>(d1: D, d2: D, e: GraphQLError, rest1: seq<GraphQLError>, rest2: seq<GraphQLError>)
    ensures Settle(Received(Envelope(d1, Some([e] + rest1)))) == Settle(Received(Envelope(d2, Some([e] + rest2))))
    ensures Settle(Received(Envelope(d1, Some([e] + rest1)))) == Failure(e.message)
  {
  }
}
