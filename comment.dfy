/** The `/comments` handlers (routers/comment.py). */
module CommentRouter {
  import opened Wrappers
  import opened Patches
  import opened Tables
  import opened Errors
  import opened Guard
  import opened Models
  import opened Sessions
  import opened Pagination
  import opened Setattr
  import Listing

  const ContentMaxLength := 500
  const ContentColumn := "comments.content"

  datatype CommentCreate = CommentCreate(content: string, creatorId: int, ticketId: int)

  datatype CommentUpdate = CommentUpdate(content: Patch<string>) {
    predicate IsEmpty() {
      !content.IsSet()
    }
  }

  /** The flat part of `CommentRead`: creator and ticket appear by id. */
  datatype CommentRead = CommentRead(
    id: nat,
    content: string,
    creatorId: int,
    ticketId: int,
    creationDate: Date,
    updateDate: Option<Date>)

  function Read(id: nat, c: Comment): CommentRead {
    CommentRead(id, c.content, c.creatorId, c.ticketId, c.creationDate, c.updateDate)
  }

  function ValidateCreate(data: CommentCreate): seq<FieldError> {
    MaxLength(["body", "content"], data.content, ContentMaxLength)
  }

  function ValidateUpdate(data: CommentUpdate): seq<FieldError> {
    PatchMaxLength(["body", "content"], data.content, ContentMaxLength)
  }

  function NewComment(data: CommentCreate, today: Date): (c: Comment)
    ensures c.content == data.content && c.creatorId == data.creatorId && c.ticketId == data.ticketId
    ensures c.creationDate == today && c.updateDate == None
  {
    Comment(data.content, data.creatorId, data.ticketId, today, None)
  }

  /** The only `setattr(comment, key, value)` the update schema allows. */
  datatype Assignment = AssignContent(content: string)

  function ContentAssignment(v: string): Assignment { AssignContent(v) }

  function Assignments(data: CommentUpdate): (fs: seq<Assignment>)
    requires !data.content.Null?
    ensures fs == [] <==> data.IsEmpty()
  {
    Sent(data.content, ContentAssignment)
  }

  function Assign(c: Comment, f: Assignment): (d: Comment)
    ensures d.creatorId == c.creatorId && d.ticketId == c.ticketId
    ensures d.creationDate == c.creationDate && d.updateDate == c.updateDate
  {
    c.(content := f.content)
  }

  /** The partial merge: the content when it was sent, every other column kept. */
  function Merge(c: Comment, data: CommentUpdate): (m: Comment)
    requires !data.content.Null?
    ensures data.IsEmpty() ==> m == c
    ensures m.content == (if data.content.Set? then data.content.value else c.content)
    ensures m.creatorId == c.creatorId && m.ticketId == c.ticketId
    ensures m.creationDate == c.creationDate && m.updateDate == c.updateDate
  {
    c.(content := data.content.ApplyTo(c.content))
  }

  lemma AssignmentsMerge(c: Comment, data: CommentUpdate)
    requires !data.content.Null?
    ensures ApplyEach(Assign, c, Assignments(data)) == Merge(c, data)
  {
    ApplySent(Assign, c, data.content, ContentAssignment);
  }

  /** `update_date` is written by the flush only when the content changed. */
  function Stamp(old_: Comment, new_: Comment, today: Date): Comment {
    if new_ == old_ then old_ else new_.(updateDate := Some(today))
  }

  function Updated(c: Comment, data: CommentUpdate, today: Date): Comment
    requires !data.content.Null?
  {
    Stamp(c, Merge(c, data), today)
  }

  /** The onupdate promise: `update_date` becomes today exactly when the
      content ends up different, and the stored row is otherwise the merge. */
  lemma UpdatedStamps(c: Comment, data: CommentUpdate, today: Date)
    requires !data.content.Null?
    ensures Updated(c, data, today).updateDate ==
      if Merge(c, data).content != c.content then Some(today) else c.updateDate
    ensures Updated(c, data, today).(updateDate := c.updateDate) == Merge(c, data)
  {
  }

  method Create(db: Session, data: CommentCreate, today: Date) returns (r: Result<CommentRead, Error>)
    requires db.Valid()
    modifies db`comments
    ensures db.Valid()
    ensures ValidateCreate(data) != [] ==> r == Failure(Validation(ValidateCreate(data))) && db.comments == old(db.comments)
    ensures ValidateCreate(data) == [] ==>
      && r == Success(Read(old(db.comments.nextId), NewComment(data, today)))
      && r.value.id !in old(db.comments.rows)
      && db.comments == Insert(old(db.comments), NewComment(data, today))
      && Get(db.comments, r.value.id) == r
  {
    var errors := ValidateCreate(data);
    if errors != [] {
      return Failure(Validation(errors));
    }
    var comment := NewComment(data, today);
    var id := db.comments.nextId;
    db.comments := Insert(db.comments, comment);
    r := Success(Read(id, comment));
  }

  function Get(comments: Table<Comment>, id: int): (r: Result<CommentRead, Error>)
    ensures r.Success? <==> Find(comments, id).Some?
    ensures r.Success? ==> r.value == Read(id, comments.rows[id])
    ensures r.Failure? ==> r.error == NotFound(NotFoundMessage("Comment", id))
  {
    var comment := Find(comments, id);
    match RaiseNotFoundIfAbsent(FromOption(comment), NotFoundMessage("Comment", id))
    case Fail(e) => Failure(e)
    case Pass => Success(Read(id, comment.value))
  }

  /** `paginate(db, select(Comment))`, the guard on the page's items, and
      `Page.create` with the query's total. A page past the last one is
      empty and raises, even when comments exist. */
  function GetAll(comments: Table<Comment>, params: Params): (r: Result<Page<CommentRead>, Error>)
    requires comments.Valid()
    ensures ValidateParams(params) != [] ==> r == Failure(Validation(ValidateParams(params)))
    ensures ValidateParams(params) == [] ==>
      && (r.Failure? <==> Offset(params.page, params.size) >= |comments.order|)
      && (r.Failure? ==> r.error == NotFound("No comments found"))
    ensures r.Success? ==>
      && r.value.total == |comments.rows|
      && r.value.page == params.page && r.value.size == params.size
      && r.value.pages == NumPages(r.value.total, params.size) && r.value.page <= r.value.pages
      && 0 < |r.value.items| <= params.size
      && r.value.items == Listing.PageItems(comments, params.page, params.size, Read)
  {
    Listing.GetPage(comments, params, Read, "No comments found")
  }

  /** Every comment is listed on exactly one page, at the position its
      place in the table says. */
  lemma EveryCommentOnItsPage(comments: Table<Comment>, size: int, k: nat)
    requires comments.Valid() && 1 <= size <= 100 && k < |comments.order|
    ensures var r := GetAll(comments, Params(k / size + 1, size));
      && r.Success?
      && k % size < |r.value.items|
      && r.value.items[k % size] == Read(comments.order[k], comments.rows[comments.order[k]])
  {
    Listing.EveryRowOnItsPage(comments, size, k, Read, "No comments found");
  }

  method Update(db: Session, id: int, data: CommentUpdate, today: Date) returns (r: Result<CommentRead, Error>)
    requires db.Valid()
    modifies db`comments
    ensures db.Valid()
    ensures ValidateUpdate(data) != [] ==> r == Failure(Validation(ValidateUpdate(data)))
    ensures ValidateUpdate(data) == [] && Find(old(db.comments), id).None? ==>
      r == Failure(NotFound(NotFoundMessage("Comment", id)))
    ensures ValidateUpdate(data) == [] && Find(old(db.comments), id).Some? ==>
      var current := old(db.comments.rows)[id];
      && (data.IsEmpty() ==> r == Success(Read(id, current)))
      && (data.content.Null? ==> r == Failure(Integrity(NotNullViolation(ContentColumn))))
      && (data.content.Set? ==> r == Success(Read(id, Updated(current, data, today))))
    ensures r.Failure? || data.IsEmpty() ==> db.comments == old(db.comments)
    ensures r.Success? && !data.IsEmpty() ==>
      db.comments == Put(old(db.comments), id, Updated(old(db.comments.rows)[id], data, today))
    ensures r.Success? ==> Get(db.comments, id) == r
  {
    var errors := ValidateUpdate(data);
    if errors != [] {
      return Failure(Validation(errors));
    }
    var comment := Find(db.comments, id);
    var guard := RaiseNotFoundIfAbsent(FromOption(comment), NotFoundMessage("Comment", id));
    if guard.Fail? {
      return Failure(guard.error);
    }
    var current := comment.value;
    if data.IsEmpty() {
      return Success(Read(id, current));
    }
    if data.content.Null? {
      return Failure(Integrity(NotNullViolation(ContentColumn)));
    }
    var fs := Assignments(data);
    var updated := SetEach(Assign, current, fs);
    AssignmentsMerge(current, data);
    updated := Stamp(current, updated, today);
    db.comments := Put(db.comments, id, updated);
    r := Success(Read(id, updated));
  }

  method Delete(db: Session, id: int) returns (r: Result<(), Error>)
    requires db.Valid()
    modifies db`comments
    ensures db.Valid()
    ensures Find(old(db.comments), id).None? ==>
      r == Failure(NotFound(NotFoundMessage("Comment", id))) && db.comments == old(db.comments)
    ensures Find(old(db.comments), id).Some? ==>
      r == Success(()) && db.comments == RemoveAll(old(db.comments), {id as nat})
  {
    var comment := Find(db.comments, id);
    var guard := RaiseNotFoundIfAbsent(FromOption(comment), NotFoundMessage("Comment", id));
    if guard.Fail? {
      return Failure(guard.error);
    }
    db.comments := RemoveAll(db.comments, {id as nat});
    r := Success(());
  }
}
