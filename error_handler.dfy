/**
 * The backend's error model: the `AppError` class, the other things a
 * handler can pass to `next(e)`, and the Express error middleware that turns
 * any of them into one HTTP status and one JSON body `{ error, code }`.
 */
module ErrorHandler {
  import opened Common

  /** An `AppError`: an `Error` whose `name` is "AppError", with a status and an optional code. */
  datatype AppError = AppError(name: string, statusCode: int, message: string, code: Option<string>)

  /** What a handler passes to `next`. */
  datatype Error =
    | App(app: AppError)          // an AppError
    | Failure(message: string)    // any other `Error` instance: an ORM error, a runtime error
    | NonError                    // a thrown value that is not an `Error`

  /** The outcome of a handler: its response value, or what it passed to `next`. */
  datatype Result<T> = Ok(value: T) | Err(error: Error)

  datatype Body = Body(error: string, code: Option<string>)
  datatype Response = Response(status: int, body: Body)

  const InternalMessage: string := "Errore interno del server"
  const InternalCode: string := "INTERNAL_ERROR"

  /** `new AppError(statusCode, message, code)`. */
  function NewAppError(statusCode: int, message: string, code: Option<string>): (e: AppError)
    ensures e.name == "AppError"
    ensures e.statusCode == statusCode && e.message == message && e.code == code
  {
    AppError("AppError", statusCode, message, code)
  }

  /** `new AppError(404, message, "NOT_FOUND")`, the answer for a row outside the project. */
  function NotFound(message: string): (e: Error)
    ensures e.App? && e.app.statusCode == 404 && e.app.code == Some("NOT_FOUND")
  {
    App(NewAppError(404, message, Some("NOT_FOUND")))
  }

  /** `new AppError(400, message, code)`, a rejected request. */
  function BadRequest(message: string, code: string): (e: Error)
    ensures e.App? && e.app.statusCode == 400 && e.app.code == Some(code)
  {
    App(NewAppError(400, message, Some(code)))
  }

  /**
   * A zod `parse` failure, which every handler turns into a 400 with code
   * VALIDATION_ERROR; the text joined from zod's messages is not modelled.
   */
  function Invalid(): (e: Error)
    ensures e.App? && e.app.statusCode == 400 && e.app.code == Some("VALIDATION_ERROR")
  {
    BadRequest("", "VALIDATION_ERROR")
  }

  /**
   * `errorHandler(err, req, res, next)`: an AppError sends its own status,
   * message and code; anything else is a 500 with code INTERNAL_ERROR, whose
   * text is the error's own message outside production and the fixed
   * "Errore interno del server" otherwise (or for a thrown non-Error).
   */
  function Respond(err: Error, production: bool): (r: Response)
    ensures err.App? ==> r == Response(err.app.statusCode, Body(err.app.message, err.app.code))
    ensures !err.App? ==> r.status == 500 && r.body.code == Some(InternalCode)
    ensures !err.App? ==> r.body.error == (if !production && err.Failure? then err.message else InternalMessage)
  {
    match err
    case App(e) => Response(e.statusCode, Body(e.message, e.code))
    case Failure(m) => Response(500, Body(if production then InternalMessage else m, Some(InternalCode)))
    case NonError => Response(500, Body(InternalMessage, Some(InternalCode)))
  }

  /**
   * In production no message but an AppError's reaches the client: every
   * other failure reads "Errore interno del server".
   */
  lemma ProductionHidesInternals(err: Error)
    ensures Respond(err, true).body.error == if err.App? then err.app.message else InternalMessage
  {
  }

  /** A status other than 500 always comes from an AppError, which chose it. */
  lemma StatusFromAppError(err: Error, production: bool)
    requires Respond(err, production).status != 500
    ensures err.App? && Respond(err, production).status == err.app.statusCode
  {
  }

  /** The environment changes only the text of a non-AppError failure, never the status or code. */
  lemma EnvironmentChangesOnlyText(err: Error)
    ensures Respond(err, true).status == Respond(err, false).status
    ensures Respond(err, true).body.code == Respond(err, false).body.code
    ensures err.App? ==> Respond(err, true) == Respond(err, false)
  {
  }
}
