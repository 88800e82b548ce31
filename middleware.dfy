/** The two HTTP middlewares of backend/middleware.py. The downstream application is given as
    its outcome: the response it returned or the exception it raised. Logging and timing are
    side effects on the log only and are not modelled. */
module Middleware {
  import opened Errors

  /** A response: a status and a JSON object of string fields (empty for responses the
      middleware only passes along). */
  datatype Response = Response(status: int, content: map<string, string>)

  /** What `await call_next(request)` did. */
  datatype Downstream = Returned(response: Response) | Raised(error: Error)

  /** What `dispatch` does: answer with a response, or let an exception continue upwards. */
  datatype Dispatched = Reply(response: Response) | Propagate(error: Error)

  const DATABASE_ERROR: string := "Erreur de base de données"
  const DATABASE_DETAIL: string := "Une erreur est survenue lors de l'accès aux données"
  const INVALID_DATA: string := "Données invalides"
  const INTERNAL_ERROR: string := "Erreur interne du serveur"
  const INTERNAL_DETAIL: string := "Une erreur inattendue s'est produite"

  /** The JSON error body the middleware writes. */
  function ErrorBody(status: int, error: string, detail: string): (r: Response)
    ensures r.status == status && r.content.Keys == {"error", "detail"}
    ensures r.content["error"] == error && r.content["detail"] == detail
  {
    Response(status, map["error" := error, "detail" := detail])
  }

  /** `ErrorHandlerMiddleware.dispatch`: the except clauses, tried in order. */
  function Dispatch(downstream: Downstream): (r: Dispatched)
    ensures downstream.Returned? ==> r == Reply(downstream.response)
    ensures downstream.Raised? && downstream.error.Http? ==> r == Propagate(downstream.error)
    ensures downstream.Raised? && downstream.error.Database? ==>
              r == Reply(ErrorBody(SERVER_ERROR, DATABASE_ERROR, DATABASE_DETAIL))
    ensures downstream.Raised? && downstream.error.Value? ==>
              r == Reply(ErrorBody(BAD_REQUEST, INVALID_DATA, downstream.error.message))
    ensures downstream.Raised? && downstream.error.Unexpected? ==>
              r == Reply(ErrorBody(SERVER_ERROR, INTERNAL_ERROR, INTERNAL_DETAIL))
  {
    match downstream
    case Returned(response) => Reply(response)
    case Raised(e) =>
      match e
      case Http(_, _) => Propagate(e)
      case Database(_) => Reply(ErrorBody(500, DATABASE_ERROR, DATABASE_DETAIL))
      case Value(message) => Reply(ErrorBody(400, INVALID_DATA, message))
      case Unexpected(_) => Reply(ErrorBody(500, INTERNAL_ERROR, INTERNAL_DETAIL))
  }

  /** Only HTTP exceptions get past the middleware; every other exception becomes a response,
      and of those only a `ValueError` is a client error. */
  lemma DispatchClassifies(downstream: Downstream)
    ensures Dispatch(downstream).Propagate? <==> downstream.Raised? && downstream.error.Http?
    ensures Dispatch(downstream).Reply? && downstream.Raised? ==>
              (Dispatch(downstream).response.status == BAD_REQUEST <==> downstream.error.Value?)
    ensures Dispatch(downstream).Reply? && downstream.Raised? ==>
              Dispatch(downstream).response.status in {BAD_REQUEST, SERVER_ERROR}
  {
  }

  /** The response to a database error does not depend on the exception's text, so nothing of
      the failing statement reaches the client; a `ValueError`'s text does reach it. */
  lemma DatabaseDetailHidden(m1: string, m2: string)
    ensures Dispatch(Raised(Database(m1))) == Dispatch(Raised(Database(m2)))
    ensures Dispatch(Raised(Value(m1))) == Dispatch(Raised(Value(m2))) <==> m1 == m2
  {
    if Dispatch(Raised(Value(m1))) == Dispatch(Raised(Value(m2))) {
      assert Dispatch(Raised(Value(m1))).response.content["detail"] == m1;
    }
  }

  /** `LoggingMiddleware.dispatch`: whatever the downstream application did, unchanged. */
  function LoggingDispatch(downstream: Downstream): (r: Dispatched)
    ensures downstream.Returned? ==> r.Reply? && r.response == downstream.response
    ensures downstream.Raised? ==> r.Propagate? && r.error == downstream.error
  {
    match downstream
    case Returned(response) => Reply(response)
    case Raised(e) => Propagate(e)
  }

  /** The logging middleware is transparent: placing it in front of the error handler does
      not change what the error handler decides. */
  lemma LoggingIsTransparent(downstream: Downstream)
    ensures match LoggingDispatch(downstream)
            case Reply(response) => Dispatch(Returned(response)) == Dispatch(downstream)
            case Propagate(e) => Dispatch(Raised(e)) == Dispatch(downstream)
  {
  }
}
