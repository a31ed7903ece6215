/** The SQLAlchemy error handlers (handlers/_orm.py): each rolls the session
    back and answers with `{"status_code": .., "message": prefix + str(exc)}`. */
module OrmHandlers {
  import opened Text
  import opened Responses
  import opened Sessions

  const IntegrityPrefix := "Integrity error: "
  const OperationalPrefix := "Operational error: "
  const InvalidRequestPrefix := "Invalid request error: "
  const StaleDataPrefix := "Stale data error: "

  /** A `{status_code, message}` body whose message is `prefix` followed by
      the exception text, so the text can be read back from it. */
  predicate Carries(r: Response, prefix: string, detail: string) {
    && r.body.StatusBody?
    && StartsWith(r.body.message, prefix)
    && r.body.message[|prefix|..] == detail
  }

  function IntegrityResponse(detail: string): (r: Response)
    ensures r.status == 400 && Carries(r, IntegrityPrefix, detail)
    ensures r.body.statusCode == r.status
  {
    Response(400, StatusBody(400, IntegrityPrefix + detail))
  }

  function OperationalResponse(detail: string): (r: Response)
    ensures r.status == 500 && Carries(r, OperationalPrefix, detail)
    ensures r.body.statusCode == r.status
  {
    Response(500, StatusBody(500, OperationalPrefix + detail))
  }

  function InvalidRequestResponse(detail: string): (r: Response)
    ensures r.status == 400 && Carries(r, InvalidRequestPrefix, detail)
    ensures r.body.statusCode == r.status
  {
    Response(400, StatusBody(400, InvalidRequestPrefix + detail))
  }

  /** The HTTP status is 409 but the body says 400, as in the source. */
  function StaleDataResponse(detail: string): (r: Response)
    ensures r.status == 409 && Carries(r, StaleDataPrefix, detail)
    ensures r.body.statusCode == 400 != r.status
  {
    Response(409, StatusBody(400, StaleDataPrefix + detail))
  }

  /** Two different exception texts never give the same response. */
  lemma OrmResponsesInjective(a: string, b: string)
    ensures IntegrityResponse(a) == IntegrityResponse(b) ==> a == b
    ensures OperationalResponse(a) == OperationalResponse(b) ==> a == b
    ensures InvalidRequestResponse(a) == InvalidRequestResponse(b) ==> a == b
    ensures StaleDataResponse(a) == StaleDataResponse(b) ==> a == b
  {
  }

  method IntegrityError(db: Session, detail: string) returns (r: Response)
    modifies db`rollbacks
    ensures db.rollbacks == old(db.rollbacks) + 1
    ensures r == IntegrityResponse(detail)
  {
    db.Rollback();
    r := IntegrityResponse(detail);
  }

  method OperationalError(db: Session, detail: string) returns (r: Response)
    modifies db`rollbacks
    ensures db.rollbacks == old(db.rollbacks) + 1
    ensures r == OperationalResponse(detail)
  {
    db.Rollback();
    r := OperationalResponse(detail);
  }

  method InvalidRequestError(db: Session, detail: string) returns (r: Response)
    modifies db`rollbacks
    ensures db.rollbacks == old(db.rollbacks) + 1
    ensures r == InvalidRequestResponse(detail)
  {
    db.Rollback();
    r := InvalidRequestResponse(detail);
  }

  method StaleDataError(db: Session, detail: string) returns (r: Response)
    modifies db`rollbacks
    ensures db.rollbacks == old(db.rollbacks) + 1
    ensures r == StaleDataResponse(detail)
  {
    db.Rollback();
    r := StaleDataResponse(detail);
  }
}
