# TiK ticket tracker: the request handlers, modelled in Dafny

TiK is a FastAPI service over a SQLite database with SQLAlchemy. It keeps
users, projects, tickets, comments, categories, levels and statuses, and each
resource has the same five handlers: create, get, get_all, update and delete.
This project models those handlers, the not-found guard they share, the
`PageResponse.create` page builder, the per-request database session and the
error handlers that roll the session back and build the JSON error response.

How the model is laid out:

- `Tables` holds one table as a value. It has a map from autoincremented ids
  to rows, the ids in insertion order (the order `query(...).all()` returns),
  and the next id to hand out. Insert, overwrite and remove are proved to keep
  it consistent, to issue fresh ids, and to change nothing else.
- `Sessions.Session` is a class holding the seven tables and a rollback
  counter. It stands for `request.state.db`.
- Each router is a module with `Create`, `Update` and `Delete` methods on the
  session, and `Get` and `GetAll` functions on a table.
  - Failures are values: `Result<_, Error>`.
  - `Error` has one case per exception kind the handlers raise or the
    database answers with: NotFound, Integrity, Validation, and so on.
- Request bodies are checked first, against the length bounds and `ge`/`le`
  bounds of the Pydantic schemas. A rejection is a `Validation` failure
  carrying the field errors.
- Update bodies give each field as a `Patch`. A `Patch` is one of three
  things: not sent, sent as JSON `null`, or sent with a value.
  - An empty update returns the current row and changes nothing.
  - A `null` reaches the database and fails its NOT NULL constraint.
- The `for key, value in update_data.items(): setattr(...)` loop of the
  project, ticket, comment and user updates is a `while` loop. Its result is
  proved equal to the partial merge.
  - `update_date` is stamped only when a column really changed, because a
    flush with no net change issues no UPDATE.
- Unique columns are the category, level and status labels and the user's
  email. A clash is an Integrity failure carrying SQLite's own message,
  "UNIQUE constraint failed: table.column".
- Deletes cascade the way the ORM relationships do:
  - a ticket takes its comments;
  - a project takes its tickets and their comments;
  - a user takes the projects, tickets and comments it created, and the
    dependents of those.
- The current date is a parameter of the handlers that stamp one.
- Password hashing is a stand-in function, `Passwords.Hash`.

Where the code leaves a question open or its parts disagree, the model
follows the code that runs:

- The level schema (backend/src/schemas/_level.py:4-5) names its field `name`,
  but the level router and model use `label`. The model follows the router and
  model. No `LevelUpdate` schema exists: backend/src/schemas/_level.py and the
  exports at backend/src/schemas/__init__.py:3-5 declare only `LevelCreate` and
  `LevelRead`. `LevelRouter.LevelUpdate` is therefore inferred from the router's
  use of it (backend/src/routers/level.py:66-71) as one optional `label` with
  no length bound.
- The user model file declares `name`, but the user router builds users from
  `first_name`, `last_name`, `username`, `email`, `role` and a password. The
  model follows the router and the user schema. Where neither settles a
  question (how the password is stored on update, and whether a user's
  projects are deleted with it), the model makes an assumption, and
  "## Left out" names it under `UserRouter.Merge` and `Cascade.UserRemoval`.
- `PageResponse.create` calls `include_query_params` on `base_url`, which only
  a URL object has. Its `""` default and any plain `str` raise AttributeError
  at backend/src/routers/pagination.py:43, and the model keeps that failure. No
  router calls `PageResponse.create`: the listings answer with
  fastapi_pagination's `Page`.
- Only `email` is unique among the user columns
  (backend/src/models/_user.py:14); `username` is not.
- `stale_data_error` answers HTTP 409 with a body whose `status_code` is 400.
  The model keeps this mismatch.
- Foreign keys are declared but not enforced: the engine is created without
  `PRAGMA foreign_keys=ON` (backend/src/backend/config.py:53). A ticket or
  comment may therefore name a missing row.

## Model

| member | source | states |
|---|---|---|
| Guard.RaiseNotFoundIfAbsent | backend/src/routers/utils.py:6-9 | passes exactly when the item is truthy (a row, or a non-empty list); otherwise fails with NotFound carrying the given message unchanged |
| Guard.FromOption | backend/src/routers/utils.py:7 | a `.first()` result is truthy exactly when a row was found |
| Pagination.NumPages | backend/src/routers/pagination.py:39 | the page count n satisfies (n-1)*size < total <= n*size |
| Pagination.NumPagesIsCeiling | backend/src/routers/pagination.py:39 | any m with (m-1)*size < total <= m*size equals the page count, so it is the ceiling of total/size |
| Pagination.PageRange | backend/src/routers/pagination.py:40 | the range lists 1..n in order, and is empty when n <= 0 |
| Pagination.Create | backend/src/routers/pagination.py:23-67 | params that are not a Params instance, or a missing total, give the two ValueError messages; after them, a base_url that is not a URL object (the "" default or any plain str) raises AttributeError at the first link, because str has no include_query_params; it succeeds exactly for a Params instance, a total and a URL-object base_url, and then copies total, page, size and items and computes the page count and range as in the source |
| Pagination.CreateLinks | backend/src/routers/pagination.py:42-54 | with a URL-object base_url, first and last links always exist on that URL with the page size; previous exists iff page > 1 and points to page-1; next exists iff page < num_pages and points to page+1 |
| Pagination.CreateEmpty | backend/src/routers/pagination.py:39-54 | with a URL-object base_url and total 0 there are no pages, the page range is empty and there is no next link |
| Pagination.ValidateParams | backend/src/routers/comment.py:51 | the Params query check passes iff page >= 1 and 1 <= size <= 100 |
| Pagination.PageSlice | backend/src/routers/user.py:58 | a page holds at most size rows, which are the rows from offset (page-1)*size in order; it is empty iff the offset is past the end; it is full unless it runs to the end |
| Pagination.PageWithinCount | backend/src/routers/user.py:58-67 | a page that starts before the last row is numbered at most the page count |
| Pagination.PageSliceCovers | backend/src/routers/user.py:58 | row k is entry k % size of page k / size + 1 |
| Listing.PageItems | backend/src/routers/user.py:58-62 | a page of read-models holds at most size entries, which are the rows from offset (page-1)*size in table order, each read through the given read-model; it is empty iff the offset is past the end and full unless it runs to the end |
| Listing.GetPage | backend/src/routers/user.py:54-67 | bad params are a validation error; the given not-found message iff the page is empty, even when rows exist; otherwise total = number of rows stored, page and size echoed, pages = the ceiling page count with the page within it, and the page's read-models |
| Listing.EveryRowOnItsPage | backend/src/routers/user.py:58-67 | every stored row is listed on the page and at the position its place in the table gives |
| OrmHandlers.IntegrityResponse | backend/src/handlers/_orm.py:9-18 | status 400, with the body's status_code equal to it; the message is "Integrity error: " followed by the exception text |
| OrmHandlers.OperationalResponse | backend/src/handlers/_orm.py:21-27 | status 500, with the body's status_code equal to it; the message is "Operational error: " followed by the text |
| OrmHandlers.InvalidRequestResponse | backend/src/handlers/_orm.py:30-36 | status 400, with the body's status_code equal to it; the message is "Invalid request error: " followed by the text |
| OrmHandlers.StaleDataResponse | backend/src/handlers/_orm.py:39-45 | HTTP status 409 while the body's status_code is 400; the message is "Stale data error: " followed by the text |
| OrmHandlers.OrmResponsesInjective | backend/src/handlers/_orm.py:16 | each ORM handler's response determines the exception text |
| OrmHandlers.IntegrityError | backend/src/handlers/_orm.py:9-18 | rolls the session back exactly once and answers with the integrity response |
| OrmHandlers.OperationalError | backend/src/handlers/_orm.py:21-27 | rolls back once and answers with the operational response |
| OrmHandlers.InvalidRequestError | backend/src/handlers/_orm.py:30-36 | rolls back once and answers with the invalid-request response |
| OrmHandlers.StaleDataError | backend/src/handlers/_orm.py:39-45 | rolls back once and answers with the stale-data response |
| ValidationHandler.ValidationResponse | backend/src/handlers/_validatation.py:8-11 | status 422 with body {message: "Validation error", errors}; the errors are passed through unchanged and in order, and there is no status_code key |
| ValidationHandler.ValidationErrorHandler | backend/src/handlers/_validatation.py:6-11 | rolls back once and answers with the validation response |
| ErrorHandling.SelectStatus | backend/src/handlers/utils.py:37-40 | an exception with a status_code keeps it; one without gets 422 iff its text contains the lower-case "validation", and no status otherwise |
| ErrorHandling.HandleErrorOutcome | backend/src/handlers/utils.py:34-42 | in debug mode the exception is re-raised; otherwise the response has the selected status and the exception text as body, or fails when there is no status_code attribute |
| ErrorHandling.HandleError | backend/src/handlers/utils.py:31-42 | the rollback happens on every path, including the debug re-raise, and then the outcome is as above |
| ErrorHandling.CapitalisedValidationIsNot422 | backend/src/handlers/utils.py:37 | the test is case-sensitive: "Validation failed" does not select 422 |
| ErrorHandling.LowerCaseValidationIs422 | backend/src/handlers/utils.py:37-38 | "validation failed" without a status_code selects 422 |
| Text.Contains | backend/src/handlers/utils.py:37 | the substring test is true iff the substring occurs at some position |
| Text.NatToString | backend/src/routers/category.py:37 | the decimal form of an id is a non-empty digit string without a leading zero |
| Text.IntToString | backend/src/routers/category.py:37 | the decimal form of an int is non-empty and starts with '-' iff the int is negative |
| Text.ParseNatToString | backend/src/routers/category.py:37 | reading back the decimal digits gives the number |
| Text.IntToStringInjective | backend/src/routers/category.py:37 | different ints print differently |
| Text.NatToStringInjective | backend/src/routers/category.py:37 | different non-negative ids print differently |
| Errors.NotFoundMessageInjective | backend/src/routers/category.py:37 | "{Entity} with ID {id} not found" determines the id |
| Errors.MaxLength | backend/src/schemas/_category.py:5 | no error iff the string is at most max characters long |
| Errors.MinLength | backend/src/schemas/_user.py:16 | no error iff the string is at least min characters long |
| Errors.AtLeast | backend/src/routers/category.py:62 | no error iff value >= bound |
| Errors.AtMost | backend/src/routers/comment.py:51 | no error iff value <= bound |
| Errors.PatchMaxLength | backend/src/schemas/_category.py:18 | an optional field fails only when a string was sent and it is too long |
| Errors.PatchMinLength | backend/src/schemas/_user.py:39 | an optional field fails only when a string was sent and it is too short |
| Tables.Empty | backend/src/models/_category.py:10-12 | an empty table is consistent and lists nothing |
| Tables.Find | backend/src/routers/category.py:34 | a row is found iff the id is a non-negative stored key, and it is that key's row |
| Tables.Entries | backend/src/routers/category.py:50 | the listing has one entry per listed id |
| Tables.EntriesEmpty | backend/src/routers/category.py:50-52 | the listing is empty iff the table has no rows |
| Tables.Insert | backend/src/models/_category.py:10-12 | the new row gets the next id, which no row had; the table stays consistent; every other id is unaffected; the listing gains exactly (id, row) at its end |
| Tables.Put | backend/src/routers/project.py:71-75 | overwriting a row keeps the ids, the listing order and the next id, and changes the lookup at that id only |
| Tables.Without | backend/src/routers/category.py:98 | an id stays listed iff it was listed and not removed; the order stays increasing |
| Tables.RemoveAll | backend/src/routers/category.py:98-99 | the stored ids lose exactly the removed ones; lookups of removed ids fail and all others are unchanged; ids are not reused |
| Tables.WithoutKeepsEntries | backend/src/routers/category.py:98-99 | an entry not removed is still listed with the same value |
| Tables.RemoveAllListsOnlyKept | backend/src/routers/category.py:98-99 | everything listed after a removal was listed before and not removed |
| Tables.SizeIsLength | backend/src/routers/user.py:67 | the number of stored rows equals the length of the listing, which is the page total |
| Sessions.Session.constructor | backend/src/middlewares.py:6-7 | a new session sees seven empty, consistent tables and no rollback |
| Sessions.Session.Rollback | backend/src/handlers/utils.py:31 | the rollback counter grows by one and nothing else changes |
| Sessions.Session.DeleteUsers | backend/src/routers/user.py:102-103 | removes exactly the given users and keeps the session consistent |
| Sessions.Session.DeleteProjects | backend/src/routers/project.py:92-93 | removes exactly the given projects and keeps the session consistent |
| Sessions.Session.DeleteTickets | backend/src/routers/ticket.py:96-97 | removes exactly the given tickets and keeps the session consistent |
| Sessions.Session.DeleteComments | backend/src/routers/comment.py:102-103 | removes exactly the given comments and keeps the session consistent |
| Setattr.ApplyEachAppend | backend/src/routers/project.py:71-72 | the assignment loop over a + b is the loop over a followed by the loop over b |
| Setattr.ApplyEachSnoc | backend/src/routers/project.py:71-72 | one more iteration applies one more assignment to the previous row |
| Setattr.ApplySent | backend/src/routers/project.py:71-72 | the loop over one field's entry assigns the value when sent and otherwise leaves the row alone |
| Setattr.SetEach | backend/src/routers/project.py:71-72 | the loop, run field by field, ends with the row the fold of all assignments gives |
| Cascade.TicketRemoval | backend/src/models/_ticket.py:18-22 | deleting a ticket removes it and exactly the comments whose ticket_id is it |
| Cascade.ProjectRemoval | backend/src/models/_project.py:23-27 | deleting a project removes it, exactly its tickets, and exactly the comments on those tickets |
| Cascade.UserRemoval | backend/src/models/_user.py:17-23 | deleting a user removes exactly the projects it created (the `ondelete="CASCADE"` key and `back_populates="projects"` at backend/src/models/_project.py:18-21), exactly the tickets it created or that belong to a removed project, and exactly the comments it wrote or that hang on a removed ticket |
| Cascade.TicketRemovalNoOrphans | backend/src/models/_ticket.py:18-22 | no remaining comment points at the deleted ticket |
| Cascade.ProjectRemovalNoOrphans | backend/src/models/_project.py:23-27 | no remaining ticket points at the deleted project, and no remaining comment at a deleted ticket |
| Cascade.UserRemovalNoOrphans | backend/src/models/_user.py:17-23 | no orphans remain, and no remaining project, ticket or comment has the deleted user as creator |
| Passwords.Hash | backend/src/routers/user.py:30 | the stored digest differs from the plaintext |
| Passwords.VerifyHash | backend/src/routers/user.py:30 | the original password verifies against its digest |
| Passwords.VerifyOnlyOriginal | backend/src/routers/user.py:30 | only the original password verifies against a digest |
| CategoryRouter.ValidateUpdate | backend/src/routers/category.py:60-63 | a negative path id is always a validation error |
| CategoryRouter.Merge | backend/src/routers/category.py:76 | an empty update keeps the row; a sent label replaces the label |
| CategoryRouter.Create | backend/src/routers/category.py:14-28 | an over-long label is a validation error and a label in use is a UNIQUE integrity error, both leaving the table unchanged; otherwise the row is stored under a fresh id, and getting that id returns the same read-model |
| CategoryRouter.Get | backend/src/routers/category.py:32-43 | succeeds iff the id is stored, with that row's read-model; otherwise NotFound "Category with ID {id} not found" |
| CategoryRouter.GetAll | backend/src/routers/category.py:47-56 | fails with "No categories found" iff the table is empty; otherwise returns every row's read-model in insertion order |
| CategoryRouter.Update | backend/src/routers/category.py:60-84 | in order: validation (path id >= 0, label length), then not-found, then an empty update returning the current row, then null giving a NOT NULL error, then a label taken by another row giving a UNIQUE error; otherwise only the label changes. Failures and empty updates leave the table unchanged, and a later get returns the result |
| CategoryRouter.Delete | backend/src/routers/category.py:88-102 | an absent id gives NotFound and changes nothing; otherwise it returns the deleted row's read-model and removes exactly that row |
| LevelRouter.Merge | backend/src/routers/level.py:71 | an empty update keeps the row; a sent label replaces it |
| LevelRouter.Create | backend/src/routers/level.py:14-25 | a label in use is a UNIQUE error with the table unchanged; otherwise a fresh id, and get returns the same read-model |
| LevelRouter.Get | backend/src/routers/level.py:29-38 | succeeds iff the id is stored; otherwise NotFound "Level with ID {id} not found" |
| LevelRouter.GetAll | backend/src/routers/level.py:42-55 | the explicit emptiness check and the guard together fail with "No levels found" exactly when the table is empty; otherwise every row in insertion order |
| LevelRouter.Update | backend/src/routers/level.py:59-77 | not-found, empty update, null, label clash and success as for categories (no length bound); only the label changes |
| LevelRouter.Delete | backend/src/routers/level.py:81-92 | an absent id gives NotFound and changes nothing; otherwise exactly that row is removed |
| StatusRouter.Merge | backend/src/routers/status.py:68 | an empty update keeps the row; a sent label replaces it |
| StatusRouter.CreateStatus | backend/src/routers/status.py:12-24 | an over-long label is a validation error and a label in use a UNIQUE error; otherwise a fresh id, and get returns the same read-model |
| StatusRouter.GetStatus | backend/src/routers/status.py:28-39 | succeeds iff the id is stored; otherwise NotFound "Status with ID {id} not found" |
| StatusRouter.GetStatuses | backend/src/routers/status.py:43-52 | fails with "No statuses found" iff the table is empty; otherwise every row in insertion order |
| StatusRouter.UpdateStatus | backend/src/routers/status.py:56-76 | validation, not-found, empty update, null, label clash and success in that order; only the label changes and the id is kept |
| StatusRouter.DeleteStatus | backend/src/routers/status.py:80-89 | an absent id gives NotFound and changes nothing; otherwise exactly that row is removed |
| ProjectRouter.NewProject | backend/src/routers/project.py:17 | the row is built from exactly label, description and creator_id, created today, with no update date |
| ProjectRouter.Assignments | backend/src/routers/project.py:65-67 | the set fields yield no assignment iff the update is empty |
| ProjectRouter.Assign | backend/src/routers/project.py:72 | one setattr never touches creator_id or the dates |
| ProjectRouter.Merge | backend/src/routers/project.py:65-72 | sent fields take the new values; every other column, creator_id and the dates included, keeps its old one |
| ProjectRouter.AssignmentsMerge | backend/src/routers/project.py:71-72 | the setattr loop over the sent fields computes exactly the merge |
| ProjectRouter.UpdatedStamps | backend/src/models/_project.py:32-34 | update_date becomes today exactly when the label or the description ends up different, else it is kept; every other column is the merge |
| ProjectRouter.NullColumn | backend/src/routers/project.py:74 | there is a column to report iff some sent value is null, and it is the first such column in table order |
| ProjectRouter.Create | backend/src/routers/project.py:13-26 | over-long label or description is a validation error; otherwise the new row is stored under a fresh id and get returns the same read-model |
| ProjectRouter.Get | backend/src/routers/project.py:30-41 | succeeds iff the id is stored; otherwise NotFound "Project with ID {id} not found" |
| ProjectRouter.GetAll | backend/src/routers/project.py:45-54 | fails with "No projects found" iff the table is empty; otherwise every row in insertion order |
| ProjectRouter.Update | backend/src/routers/project.py:58-81 | validation, not-found, empty update (current row, table unchanged), null (NOT NULL error); otherwise the stored row is the merge, stamped when changed, and get returns it |
| ProjectRouter.Delete | backend/src/routers/project.py:85-94 | an absent id gives NotFound and changes nothing; otherwise the project, its tickets and their comments are removed and nothing else |
| TicketRouter.NewTicket | backend/src/routers/ticket.py:16-24 | every column, all five foreign keys included, comes from the request; created today, no update date |
| TicketRouter.Assignments | backend/src/routers/ticket.py:71-73 | the set fields yield no assignment iff the update is empty |
| TicketRouter.Assign | backend/src/routers/ticket.py:78 | one setattr never touches creator_id, project_id or the dates |
| TicketRouter.Merge | backend/src/routers/ticket.py:71-78 | sent fields among title, description, status, category and level take the new values; creator_id, project_id and the dates never change |
| TicketRouter.AssignmentsMerge | backend/src/routers/ticket.py:77-78 | the setattr loop over the sent fields computes exactly the merge |
| TicketRouter.UpdatedStamps | backend/src/models/_ticket.py:45-47 | update_date becomes today exactly when title, description, status, category or level ends up different, else it is kept; every other column is the merge |
| TicketRouter.NullColumn | backend/src/routers/ticket.py:80 | there is a column to report iff some sent value is null, and it is the first null one in the order title, description, status_id, category_id, level_id |
| TicketRouter.Create | backend/src/routers/ticket.py:12-31 | over-long title or description is a validation error; otherwise a fresh id, and get returns the same read-model |
| TicketRouter.Get | backend/src/routers/ticket.py:35-46 | succeeds iff the id is stored; otherwise NotFound "Ticket with ID {id} not found" |
| TicketRouter.GetAll | backend/src/routers/ticket.py:50-60 | fails with "No tickets found" iff the table is empty; otherwise every row in insertion order |
| TicketRouter.Update | backend/src/routers/ticket.py:64-85 | validation, not-found, empty update with no commit (update_date unchanged), null; otherwise the merge, stamped when changed |
| TicketRouter.Delete | backend/src/routers/ticket.py:89-98 | an absent id gives NotFound; otherwise the ticket and exactly its comments are removed |
| CommentRouter.NewComment | backend/src/routers/comment.py:22-26 | the row is built from content, creator_id and ticket_id, created today |
| CommentRouter.Assignments | backend/src/routers/comment.py:77 | no assignment iff the content was not sent |
| CommentRouter.Assign | backend/src/routers/comment.py:84 | setattr of the content keeps creator, ticket and dates |
| CommentRouter.Merge | backend/src/routers/comment.py:77-84 | a sent content replaces the content; everything else is kept |
| CommentRouter.AssignmentsMerge | backend/src/routers/comment.py:83-84 | the setattr loop computes exactly the merge |
| CommentRouter.UpdatedStamps | backend/src/models/_comment.py:31-33 | update_date becomes today exactly when the content ends up different, else it is kept; every other column is the merge |
| CommentRouter.Create | backend/src/routers/comment.py:18-33 | over-long content is a validation error; otherwise a fresh id, and get returns the same read-model |
| CommentRouter.Get | backend/src/routers/comment.py:37-46 | succeeds iff the id is stored; otherwise NotFound "Comment with ID {id} not found" |
| CommentRouter.GetAll | backend/src/routers/comment.py:51-66 | bad params are a validation error; "No comments found" iff the page is empty, even when comments exist; otherwise the comments' read-models from offset (page-1)*size in table order, with total = number of comments stored, page and size echoed, pages = the ceiling page count and the page within it |
| CommentRouter.EveryCommentOnItsPage | backend/src/routers/comment.py:55-66 | every stored comment appears on exactly the page and position its place in the table gives |
| CommentRouter.Update | backend/src/routers/comment.py:70-91 | validation, not-found, empty update, null content; otherwise only the content changes, stamped when changed |
| CommentRouter.Delete | backend/src/routers/comment.py:95-104 | an absent id gives NotFound; otherwise exactly that comment is removed |
| UserRouter.NewUser | backend/src/routers/user.py:24-31 | the row copies the profile fields and stores a digest that differs from the password and verifies against it |
| UserRouter.Assignments | backend/src/routers/user.py:78 | no assignment iff no field was sent |
| UserRouter.ProfileAssignmentsMerge | backend/src/routers/user.py:83-84 | the loop over the fields before the password merges those fields and keeps the digest |
| UserRouter.Merge | backend/src/routers/user.py:78-84 | sent fields take the new values, a sent password as its digest; other fields are kept |
| UserRouter.AssignmentsMerge | backend/src/routers/user.py:83-84 | the setattr loop computes exactly the merge |
| UserRouter.NullColumn | backend/src/routers/user.py:86 | there is a column to report iff some sent value is null, and it is the first null one in the order first_name, last_name, username, email, role, password |
| UserRouter.Create | backend/src/routers/user.py:20-38 | bound violations are validation errors and an email in use is a UNIQUE error; otherwise a fresh id, get returns the same read-model, and the stored digest verifies the password |
| UserRouter.Get | backend/src/routers/user.py:42-50 | succeeds iff the id is stored; otherwise NotFound "User with ID {id} not found" |
| UserRouter.GetAll | backend/src/routers/user.py:54-67 | bad params are a validation error; "No users found" iff the page is empty; otherwise total = number of users, page and size echoed, pages = the ceiling page count with the page within it, and the slice in creation order |
| UserRouter.PagePastTheEndNotFound | backend/src/routers/user.py:60 | a page past the last one raises "No users found" although users exist |
| UserRouter.Update | backend/src/routers/user.py:71-91 | validation, not-found, empty update, null, an email taken by another user; otherwise only the sent fields change |
| UserRouter.Delete | backend/src/routers/user.py:95-104 | an absent id gives NotFound; otherwise the user and its whole cascade are removed and nothing else |
| UserRouter.DeletedUserChildrenNotFound | backend/src/routers/user.py:102-103 | after the cascade, getting any removed project, ticket or comment answers not found |

## Left out

- The FastAPI wiring: route binding, exception-handler registration, the
  session middleware and closing the session. The model takes the behaviour
  from the handler bodies. Which handler receives a request-body validation
  failure is the framework's choice and is not modelled.
- `handlers/database.py`: one-line delegations to `handle_error` that only add
  a label used in logs. `NotFoundException` and its status code live in
  `src/exceptions`, which is not part of this model.
- `routers/register.py`: JWT encoding and decoding, SMTP mail and token
  expiry, all of which are foreign crypto, I/O and wall-clock time.
- Passwords.Hash: a tagged stand-in, not a one-way hash. The model keeps the
  two properties the handlers depend on: the digest differs from the
  plaintext, and verification accepts only the original password.
- SQLAlchemy itself: queries, `refresh`, the identity map and `async`. Each
  handler is modelled as one atomic step, so a rollback has nothing pending
  to discard and only counts.
- A `null` update: the model checks for nulls before the assignment loop
  rather than at commit. The rollback makes the two orders indistinguishable.
- Logging and configuration (`LOG_APP`, `config.py`, `src/utils.py`) and the
  home route.
- Page links are (base URL, page, size) triples, not the URL strings
  `include_query_params` builds.
- Pagination.Create: a URL object is modelled by its text only; any other
  object with an `include_query_params` method is not modelled.
- CommentRouter.GetAll: the handler calls `paginate(db, select(Comment))`
  without its `params` argument (backend/src/routers/comment.py:55), so the
  library decides which `Params` the query uses, and it builds the page from
  `comments.params` (backend/src/routers/comment.py:65), an attribute that
  fastapi_pagination's `Page` may not have, which would raise AttributeError
  after the guard passes. The model builds the page from the request's params,
  as backend/src/routers/user.py:58 and 67 do, and promises a page for every
  non-empty slice.
- UserRouter.GetAll: `await paginate(...)` (backend/src/routers/user.py:58)
  runs on the synchronous session of `SESSION_LOCAL`
  (backend/src/backend/config.py:54). The model treats it as the finished
  query its `await` yields.
- CommentRouter.GetAll and UserRouter.GetAll: the `links` of fastapi_pagination's
  `Page` are library code and are not modelled; the page keeps items, total,
  page, size and pages.
- OrmHandlers.IntegrityError: the router failures carry the database's own
  message. SQLAlchemy's `str(exc)` wraps it in "(sqlite3.IntegrityError) ..."
  and appends the SQL statement, its parameters and a link; that wrapper is
  not modelled, so the message of a response to a router's Integrity failure
  lacks it.
- UserRouter.Merge: the user model file declares no password column. The model
  assumes that `setattr(user, "password", value)` (backend/src/routers/user.py:84)
  stores a digest, as `plain_password=` does on creation, and that the NOT NULL
  text for a null password names `users.password`.
- Cascade.UserRemoval: the user model file declares only the `tickets` and
  `comments` cascades. The removal of a user's projects is assumed from
  `ondelete="CASCADE"` and `back_populates="projects"` at
  backend/src/models/_project.py:19-21; with a default `User.projects`
  relationship the ORM would instead null `projects.creator_id` and fail
  its NOT NULL constraint.
- EmailStr validation of user emails. Email strings are accepted as given.
- Nested read-models: the creator, project, tickets, comments, status, level
  and category objects inside the read schemas, and the response-validation
  failure a dangling foreign key would cause. Read-models carry foreign keys
  as ids.
- Foreign-key enforcement, and SQLite's reuse of the largest id after the
  newest row is deleted. Ids here are never reused.
- Concurrency: there is none in the handlers.
