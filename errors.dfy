/**
 * middleware/errorHandler.js: the validation gate that ends a request with 400
 * when a validator failed, and the global handler that turns a thrown error
 * into a response.
 */
module ErrorHandler {
  import opened Common

  /** One failed validator, as express-validator reports it. */
  datatype ValidationError = ValidationError(field: string, message: string)

  /** What a middleware does with a request: pass it to `next`, or answer it. */
  datatype Gate = Next | Respond(status: int, message: string)

  const ValidationMessage := "Erreur de validation"

  function HandleValidationErrors(errors: seq<ValidationError>): (g: Gate)
    ensures g.Next? <==> errors == []
    ensures g.Respond? ==> g.status == 400 && g.message == ValidationMessage
  {
    if errors != [] then Respond(400, ValidationMessage) else Next
  }

  /** PostgreSQL error codes the handler recognises. */
  const UniqueViolation := "23505"
  const ForeignKeyViolation := "23503"

  const DuplicateMessage := "Cette valeur existe déjà dans la base de données"
  const DanglingReferenceMessage := "Référence invalide à une ressource inexistante"
  const DefaultMessage := "Erreur serveur interne"

  /**
   * A thrown error as the handler reads it: `err.code`, `err.status` and
   * `err.message` (None stands for undefined).
   */
  datatype Thrown = Thrown(code: Option<string>, status: Option<int>, message: Option<string>)

  /** The status, the message and whether `err.stack` is attached. */
  datatype ErrorReply = ErrorReply(status: int, message: string, withStack: bool)

  /** A PostgreSQL error as the pg driver throws it: a code and a message, no status. */
  function DbError(code: string, message: string): Thrown
  {
    Thrown(Some(code), None, Some(message))
  }

  function HandleError(err: Thrown, nodeEnv: string): (r: ErrorReply)
    ensures err.code == Some(UniqueViolation) ==> r == ErrorReply(409, DuplicateMessage, false)
    ensures err.code == Some(ForeignKeyViolation) ==> r == ErrorReply(400, DanglingReferenceMessage, false)
    ensures err.code != Some(UniqueViolation) && err.code != Some(ForeignKeyViolation) ==>
      && (err.status.None? || err.status == Some(0) ==> r.status == 500)
      && (err.status.Some? && err.status.value != 0 ==> r.status == err.status.value)
      && (err.message.None? || err.message == Some("") ==> r.message == DefaultMessage)
      && (err.message.Some? && err.message.value != "" ==> r.message == err.message.value)
    ensures r.withStack ==> nodeEnv == "development"
  {
    if err.code == Some(UniqueViolation) then ErrorReply(409, DuplicateMessage, false)
    else if err.code == Some(ForeignKeyViolation) then ErrorReply(400, DanglingReferenceMessage, false)
    else
      // `err.status || 500` and `err.message || '...'`: 0 and "" are falsy in JavaScript.
      var status := if err.status.Some? && err.status.value != 0 then err.status.value else 500;
      var message := if err.message.Some? && err.message.value != "" then err.message.value else DefaultMessage;
      ErrorReply(status, message, nodeEnv == "development")
  }

  /** A database error outside those two codes is a 500 carrying the driver's message, whatever the environment. */
  lemma OtherDatabaseErrorsAre500(code: string, message: string, nodeEnv: string)
    requires code != UniqueViolation && code != ForeignKeyViolation && message != ""
    ensures HandleError(DbError(code, message), nodeEnv).status == 500
    ensures HandleError(DbError(code, message), nodeEnv).message == message
    ensures HandleError(DbError(code, message), nodeEnv).withStack <==> nodeEnv == "development"
  {
  }

  /** The reply a handler sends when it passes a thrown error to `next` (the stack is not part of the model's reply). */
  function ReplyToThrown<T>(err: Thrown): (r: Reply<T>)
    ensures r.Err? && r.code == HandleError(err, "production").status && r.message == HandleError(err, "production").message
  {
    var e := HandleError(err, "production");
    Err(e.status, e.message)
  }

  /** The reply to a database error passed to `next`. */
  function ReplyToDbError<T>(code: string, message: string): (r: Reply<T>)
    ensures r.Err?
    ensures code == UniqueViolation ==> r == Err(409, DuplicateMessage)
    ensures code == ForeignKeyViolation ==> r == Err(400, DanglingReferenceMessage)
    ensures code != UniqueViolation && code != ForeignKeyViolation && message != "" ==> r == Err(500, message)
  {
    ReplyToThrown(DbError(code, message))
  }
}
