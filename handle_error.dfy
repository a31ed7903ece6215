/** `handle_error` (handlers/utils.py): the generic handler behind the
    registered exception handlers. */
module ErrorHandling {
  import opened Wrappers
  import opened Text
  import opened Responses
  import opened Sessions

  /** The raised exception as the handler inspects it: its `status_code`
      attribute, if it has one, and `str(exc)`. */
  datatype Raised = Raised(statusCode: Option<int>, text: string)

  datatype HandlerOutcome =
    | Responded(response: Response)
    | Reraised(exc: Raised)  // DEBUG: the original exception propagates
    | AttributeMissing       // `exc.status_code` raises AttributeError

  /** The status code: 422 for an exception without `status_code` whose text
      contains the lower-case word "validation", otherwise `exc.status_code`
      (None when the attribute is missing). */
  function SelectStatus(exc: Raised): (r: Option<int>)
    ensures exc.statusCode.Some? ==> r == exc.statusCode
    ensures exc.statusCode.None? ==> (r.Some? <==> exists i: nat :: OccursAt(exc.text, "validation", i))
    ensures exc.statusCode.None? && r.Some? ==> r.value == 422
  {
    if exc.statusCode.None? && Contains(exc.text, "validation") then Some(422)
    else exc.statusCode
  }

  function HandleErrorOutcome(exc: Raised, debug: bool): (r: HandlerOutcome)
    ensures debug ==> r == Reraised(exc)
    ensures !debug ==> (r.Responded? <==> SelectStatus(exc).Some?)
    ensures !debug ==> !r.Reraised?
    ensures r.Responded? ==> r.response == Response(SelectStatus(exc).value, TextBody(exc.text))
  {
    if debug then Reraised(exc)
    else
      match SelectStatus(exc)
      case Some(status) => Responded(Response(status, TextBody(exc.text)))
      case None => AttributeMissing
  }

  /** The session is rolled back on every path, the re-raise included. */
  method HandleError(db: Session, exc: Raised, debug: bool) returns (r: HandlerOutcome)
    modifies db`rollbacks
    ensures db.rollbacks == old(db.rollbacks) + 1
    ensures r == HandleErrorOutcome(exc, debug)
  {
    db.Rollback();
    if debug {
      return Reraised(exc);
    }
    var status := SelectStatus(exc);
    if status.Some? {
      r := Responded(Response(status.value, TextBody(exc.text)));
    } else {
      r := AttributeMissing;
    }
  }

  /** The test is case-sensitive: "Validation" alone does not give 422. */
  lemma CapitalisedValidationIsNot422()
    ensures SelectStatus(Raised(None, "Validation failed")).None?
  {
    var s := "Validation failed";
    assert forall j :: 0 <= j < |s| ==> s[j] != 'v';
    assert forall i: nat :: OccursAt(s, "validation", i) ==> s[i..i + 10][0] == s[i];
  }

  lemma LowerCaseValidationIs422()
    ensures SelectStatus(Raised(None, "validation failed")) == Some(422)
  {
    assert OccursAt("validation failed", "validation", 0);
  }
}
