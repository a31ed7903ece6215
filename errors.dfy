/** The error categories a handler raises and the request-validation entries
    Pydantic reports (`{loc, msg, type}`). */
module Errors {
  import opened Text
  import opened Patches

  datatype FieldError = FieldError(loc: seq<string>, msg: string, errorType: string)

  datatype Error =
    | NotFound(message: string)     // NotFoundException raised by the guard
    | Integrity(detail: string)     // sqlalchemy IntegrityError, detail is the database's own message
    | Operational(detail: string)   // sqlalchemy OperationalError
    | InvalidRequest(detail: string) // sqlalchemy InvalidRequestError
    | StaleData(detail: string)     // sqlalchemy StaleDataError
    | Validation(errors: seq<FieldError>) // pydantic ValidationError, errors is exc.errors()

  /** The message every id-addressed handler passes to the guard:
      f"{Entity} with ID {id} not found". */
  function NotFoundMessage(entity: string, id: int): string {
    entity + " with ID " + IntToString(id) + " not found"
  }

  /** The message names the id it was built from. */
  lemma NotFoundMessageInjective(entity: string, a: int, b: int)
    requires NotFoundMessage(entity, a) == NotFoundMessage(entity, b)
    ensures a == b
  {
    var p, q := entity + " with ID ", " not found";
    var m := NotFoundMessage(entity, a);
    assert m == p + IntToString(a) + q;
    assert NotFoundMessage(entity, b) == p + IntToString(b) + q;
    assert IntToString(a) == m[|p|..|m| - |q|];
    assert IntToString(b) == m[|p|..|m| - |q|];
    IntToStringInjective(a, b);
  }

  /** SQLite's text for a UNIQUE violation on `column` ("table.column"). */
  function UniqueViolation(column: string): string {
    "UNIQUE constraint failed: " + column
  }

  /** SQLite's text for a NOT NULL violation on `column`. */
  function NotNullViolation(column: string): string {
    "NOT NULL constraint failed: " + column
  }

  /** `Field(max_length=max)` on a string field at `loc`. */
  function MaxLength(loc: seq<string>, value: string, max: nat): (es: seq<FieldError>)
    ensures es == [] <==> |value| <= max
  {
    if |value| <= max then []
    else [FieldError(loc, "String should have at most " + IntToString(max) + " characters", "string_too_long")]
  }

  /** `Field(min_length=min)` on a string field at `loc`. */
  function MinLength(loc: seq<string>, value: string, min: nat): (es: seq<FieldError>)
    ensures es == [] <==> |value| >= min
  {
    if |value| >= min then []
    else [FieldError(loc, "String should have at least " + IntToString(min) + " characters", "string_too_short")]
  }

  /** `ge=bound` on an int parameter at `loc`. */
  function AtLeast(loc: seq<string>, value: int, bound: int): (es: seq<FieldError>)
    ensures es == [] <==> value >= bound
  {
    if value >= bound then []
    else [FieldError(loc, "Input should be greater than or equal to " + IntToString(bound), "greater_than_equal")]
  }

  /** `le=bound` on an int parameter at `loc`. */
  function AtMost(loc: seq<string>, value: int, bound: int): (es: seq<FieldError>)
    ensures es == [] <==> value <= bound
  {
    if value <= bound then []
    else [FieldError(loc, "Input should be less than or equal to " + IntToString(bound), "less_than_equal")]
  }

  /** `max_length` on an optional update field: only a given string is checked. */
  function PatchMaxLength(loc: seq<string>, value: Patch<string>, max: nat): (es: seq<FieldError>)
    ensures es == [] <==> !value.Set? || |value.value| <= max
  {
    if value.Set? then MaxLength(loc, value.value, max) else []
  }

  /** `min_length` on an optional update field. */
  function PatchMinLength(loc: seq<string>, value: Patch<string>, min: nat): (es: seq<FieldError>)
    ensures es == [] <==> !value.Set? || |value.value| >= min
  {
    if value.Set? then MinLength(loc, value.value, min) else []
  }
}
