/** The application's error classes and the JSON error envelope built from
    whatever a `catch` clause receives. */
module Errors {
  import opened Wrappers
  import opened Json

  /** The `Error` subclasses the application defines; `details` is the
      optional payload some of them carry. */
  datatype AppError =
    | ValidationError(message: string, details: Option<Json>)
    | NotFoundError(message: string)
    | LinearApiError(message: string, statusCode: Option<int>, details: Option<Json>)
    | WebhookAuthError(message: string)
    | UnauthorizedError(message: string)
    | OpenAIError(message: string, details: Option<Json>)

  /** A value caught by `catch`: one of the application's errors, any other
      `Error` (only its message matters), or a thrown non-`Error` value. */
  datatype Thrown = App(error: AppError) | PlainError(message: string) | NonError

  const NotFoundDefault := "Resource not found"
  const WebhookAuthDefault := "Webhook authentication failed"
  const UnauthorizedDefault := "Unauthorized"
  const UnexpectedMessage := "An unexpected error occurred"

  /** The three constructors whose message argument has a default. */
  function NewNotFoundError(message: Option<string>): (e: AppError)
    ensures e.NotFoundError? && (message.None? ==> e.message == NotFoundDefault)
  {
    NotFoundError(message.GetOr(NotFoundDefault))
  }

  function NewWebhookAuthError(message: Option<string>): (e: AppError)
    ensures e.WebhookAuthError? && (message.None? ==> e.message == WebhookAuthDefault)
  {
    WebhookAuthError(message.GetOr(WebhookAuthDefault))
  }

  function NewUnauthorizedError(message: Option<string>): (e: AppError)
    ensures e.UnauthorizedError? && (message.None? ==> e.message == UnauthorizedDefault)
  {
    UnauthorizedError(message.GetOr(UnauthorizedDefault))
  }

  /** `error instanceof Error ? error.message : fallback`. */
  function MessageOr(t: Thrown, fallback: string): string {
    match t
    case App(e) => e.message
    case PlainError(m) => m
    case NonError => fallback
  }

  /** The JSON body `{ message, details? }`; a `None` detail is omitted. */
  datatype Envelope = Envelope(message: string, details: Option<Json>)

  function FormatErrorResponse(t: Thrown): (r: Envelope)
    ensures r.message == MessageOr(t, UnexpectedMessage)
  {
    match t
    case App(ValidationError(m, d)) => Envelope(m, d)
    case App(NotFoundError(m)) => Envelope(m, None)
    case App(LinearApiError(m, _, d)) => Envelope(m, d)
    case App(WebhookAuthError(m)) => Envelope(m, None)
    case App(UnauthorizedError(m)) => Envelope(m, None)
    case App(OpenAIError(m, _)) => Envelope(m, None)
    case PlainError(m) => Envelope(m, None)
    case NonError => Envelope(UnexpectedMessage, None)
  }

  /** Only validation and tracker errors carry details into the envelope,
      and they carry them unchanged; a tracker error's status code never
      appears in it, and the envelope is the same whatever that code is. */
  lemma EnvelopeDetails(t: Thrown)
    ensures FormatErrorResponse(t).details.Some? ==>
              t.App? && (t.error.ValidationError? || t.error.LinearApiError?)
    ensures t.App? && (t.error.ValidationError? || t.error.LinearApiError?) ==>
              FormatErrorResponse(t).details == t.error.details
    ensures t.App? && t.error.LinearApiError? ==>
              forall c :: FormatErrorResponse(App(t.error.(statusCode := c))) == FormatErrorResponse(t)
  {
  }
}
