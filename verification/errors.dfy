/** The application error handler (src/middleware/errors.ts): every error that
    reaches the HTTP boundary becomes a status code and a JSON body whose
    `status` is "error". */
module Errors {
  import opened Wrappers
  import opened Text

  /** One element of an error's `errors` array. `isValidationError` says
      whether it is a class-validator ValidationError instance; `constraints`
      are the values of its `constraints` object, in order (none when absent). */
  datatype ValidationItem = ValidationItem(isValidationError: bool, property: string, constraints: seq<string>)

  /** An HttpError of routing-controllers (with its optional `errors` array),
      or any other thrown value */
  datatype AppError =
    | HttpError(httpCode: int, message: string, errors: Option<seq<ValidationItem>>)
    | PlainError(message: string)

  /** routing-controllers' UnauthorizedError and ForbiddenError */
  function Unauthorized(message: string): AppError {
    HttpError(401, message, None)
  }

  function Forbidden(message: string): AppError {
    HttpError(403, message, None)
  }

  datatype FieldMessage = FieldMessage(field: string, message: string)

  datatype ErrorBody = ErrorBody(status: string, message: string, errors: Option<seq<FieldMessage>>)

  datatype ErrorResponse = ErrorResponse(httpStatus: int, body: ErrorBody)

  const InternalErrorMessage := "An error occurred while processing your request"

  /** Only the first element of `errors` is inspected */
  predicate HasValidationErrors(e: AppError) {
    e.HttpError? && e.errors.Some? && |e.errors.value| > 0 && e.errors.value[0].isValidationError
  }

  function FieldMessages(items: seq<ValidationItem>): (r: seq<FieldMessage>)
    ensures |r| == |items|
    ensures forall i :: 0 <= i < |items| ==>
      r[i].field == items[i].property && r[i].message == Join(items[i].constraints, ", ")
  {
    seq(|items|, i requires 0 <= i < |items| => FieldMessage(items[i].property, Join(items[i].constraints, ", ")))
  }

  /** The body for a validation failure: one message per failed property,
      in order */
  function HandleValidationErrors(items: seq<ValidationItem>): (b: ErrorBody)
    ensures b.status == "error" && b.message == "Invalid payload"
    ensures b.errors.Some? && |b.errors.value| == |items|
    ensures forall i :: 0 <= i < |items| ==> b.errors.value[i].field == items[i].property
  {
    ErrorBody("error", "Invalid payload", Some(FieldMessages(items)))
  }

  function HandleHttpError(e: AppError): (r: ErrorResponse)
    requires e.HttpError?
    ensures r.httpStatus == e.httpCode && r.body.status == "error"
  {
    if HasValidationErrors(e) then ErrorResponse(e.httpCode, HandleValidationErrors(e.errors.value))
    else ErrorResponse(e.httpCode, ErrorBody("error", e.message, None))
  }

  /** The response the error handler writes for a thrown error */
  function HandleError(e: AppError): (r: ErrorResponse)
    ensures r.body.status == "error"
    ensures e.PlainError? ==> r.httpStatus == 500 && r.body.message == InternalErrorMessage && r.body.errors.None?
    ensures e.HttpError? ==> r.httpStatus == e.httpCode
    ensures e.HttpError? && !HasValidationErrors(e) ==> r.body.message == e.message && r.body.errors.None?
    ensures HasValidationErrors(e) ==>
      && r.body.message == "Invalid payload"
      && r.body.errors.Some?
      && |r.body.errors.value| == |e.errors.value|
      && forall i :: 0 <= i < |e.errors.value| ==>
           r.body.errors.value[i] == FieldMessage(e.errors.value[i].property, Join(e.errors.value[i].constraints, ", "))
  {
    if e.HttpError? then HandleHttpError(e)
    else ErrorResponse(500, ErrorBody("error", InternalErrorMessage, None))
  }

  /** Whether the validation branch is taken depends only on the first element
      of `errors`: later elements that are not ValidationErrors do not matter,
      and a first element that is not one hides every later one. */
  lemma ValidationDecidedByFirst(code: int, message: string, items1: seq<ValidationItem>, items2: seq<ValidationItem>)
    requires |items1| > 0 && |items2| > 0
    requires items1[0].isValidationError == items2[0].isValidationError
    ensures HasValidationErrors(HttpError(code, message, Some(items1))) ==
            HasValidationErrors(HttpError(code, message, Some(items2)))
    ensures !items1[0].isValidationError ==>
      HandleError(HttpError(code, message, Some(items1))) == ErrorResponse(code, ErrorBody("error", message, None))
  {
  }
}
