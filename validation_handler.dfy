/** `validation_error_handler` (handlers/_validatation.py). */
module ValidationHandler {
  import opened Errors
  import opened Responses
  import opened Sessions

  /** Always 422; the body carries the message and Pydantic's error list
      unchanged, and no `status_code` key. */
  function ValidationResponse(errors: seq<FieldError>): (r: Response)
    ensures r.status == 422 && r.body.ValidationBody?
    ensures r.body.message == "Validation error" && r.body.errors == errors
  {
    Response(422, ValidationBody("Validation error", errors))
  }

  method ValidationErrorHandler(db: Session, errors: seq<FieldError>) returns (r: Response)
    modifies db`rollbacks
    ensures db.rollbacks == old(db.rollbacks) + 1
    ensures r == ValidationResponse(errors)
  {
    db.Rollback();
    r := ValidationResponse(errors);
  }
}
