/** The `/tickets` handlers (routers/ticket.py). */
module TicketRouter {
  import opened Wrappers
  import opened Patches
  import opened Tables
  import opened Errors
  import opened Guard
  import opened Models
  import opened Sessions
  import opened Cascade
  import opened Setattr

  const TitleMaxLength := 100
  const DescriptionMaxLength := 500

  datatype TicketCreate = TicketCreate(
    title: string,
    description: string,
    creatorId: int,
    projectId: int,
    statusId: int,
    categoryId: int,
    levelId: int)

  /** The creator and the project of a ticket cannot be changed. */
  datatype TicketUpdate = TicketUpdate(
    title: Patch<string>,
    description: Patch<string>,
    statusId: Patch<int>,
    categoryId: Patch<int>,
    levelId: Patch<int>)
  {
    predicate IsEmpty() {
      !title.IsSet() && !description.IsSet() && !statusId.IsSet() && !categoryId.IsSet() && !levelId.IsSet()
    }

    predicate HasNull() {
      title.Null? || description.Null? || statusId.Null? || categoryId.Null? || levelId.Null?
    }
  }

  /** The flat part of `TicketRead`: the related rows appear by id. */
  datatype TicketRead = TicketRead(
    id: nat,
    title: string,
    description: string,
    creatorId: int,
    projectId: int,
    statusId: int,
    categoryId: int,
    levelId: int,
    creationDate: Date,
    updateDate: Option<Date>)

  function Read(id: nat, t: Ticket): TicketRead {
    TicketRead(id, t.title, t.description, t.creatorId, t.projectId, t.statusId, t.categoryId, t.levelId,
               t.creationDate, t.updateDate)
  }

  function ValidateCreate(data: TicketCreate): seq<FieldError> {
    MaxLength(["body", "title"], data.title, TitleMaxLength)
      + MaxLength(["body", "description"], data.description, DescriptionMaxLength)
  }

  function ValidateUpdate(data: TicketUpdate): seq<FieldError> {
    PatchMaxLength(["body", "title"], data.title, TitleMaxLength)
      + PatchMaxLength(["body", "description"], data.description, DescriptionMaxLength)
  }

  /** The new row: every column from the request, with the insert defaults. */
  function NewTicket(data: TicketCreate, today: Date): (t: Ticket)
    ensures t.title == data.title && t.description == data.description
    ensures t.creatorId == data.creatorId && t.projectId == data.projectId && t.statusId == data.statusId
    ensures t.categoryId == data.categoryId && t.levelId == data.levelId
    ensures t.creationDate == today && t.updateDate == None
  {
    Ticket(data.title, data.description, data.creatorId, data.projectId, data.statusId, data.categoryId,
           data.levelId, today, None)
  }

  /** One `setattr(ticket, key, value)` of the update loop, for a non-null value. */
  datatype Assignment =
    | AssignTitle(title: string)
    | AssignDescription(description: string)
    | AssignStatus(statusId: int)
    | AssignCategory(categoryId: int)
    | AssignLevel(levelId: int)

  function TitleAssignment(v: string): Assignment { AssignTitle(v) }
  function DescriptionAssignment(v: string): Assignment { AssignDescription(v) }
  function StatusAssignment(v: int): Assignment { AssignStatus(v) }
  function CategoryAssignment(v: int): Assignment { AssignCategory(v) }
  function LevelAssignment(v: int): Assignment { AssignLevel(v) }

  /** `data.model_dump(exclude_unset=True).items()`, in field order. */
  function Assignments(data: TicketUpdate): (fs: seq<Assignment>)
    requires !data.HasNull()
    ensures fs == [] <==> data.IsEmpty()
  {
    Sent(data.title, TitleAssignment) + Sent(data.description, DescriptionAssignment)
      + Sent(data.statusId, StatusAssignment) + Sent(data.categoryId, CategoryAssignment)
      + Sent(data.levelId, LevelAssignment)
  }

  function Assign(t: Ticket, f: Assignment): (u: Ticket)
    ensures u.creatorId == t.creatorId && u.projectId == t.projectId
    ensures u.creationDate == t.creationDate && u.updateDate == t.updateDate
  {
    match f
    case AssignTitle(v) => t.(title := v)
    case AssignDescription(v) => t.(description := v)
    case AssignStatus(v) => t.(statusId := v)
    case AssignCategory(v) => t.(categoryId := v)
    case AssignLevel(v) => t.(levelId := v)
  }

  /** The partial merge the update promises: a field that was sent takes the
      new value; the creator, the project and the dates keep their old one. */
  function Merge(t: Ticket, data: TicketUpdate): (m: Ticket)
    requires !data.HasNull()
    ensures data.IsEmpty() ==> m == t
    ensures m.title == (if data.title.Set? then data.title.value else t.title)
    ensures m.description == (if data.description.Set? then data.description.value else t.description)
    ensures m.statusId == (if data.statusId.Set? then data.statusId.value else t.statusId)
    ensures m.categoryId == (if data.categoryId.Set? then data.categoryId.value else t.categoryId)
    ensures m.levelId == (if data.levelId.Set? then data.levelId.value else t.levelId)
    ensures m.creatorId == t.creatorId && m.projectId == t.projectId
    ensures m.creationDate == t.creationDate && m.updateDate == t.updateDate
  {
    t.(title := data.title.ApplyTo(t.title),
       description := data.description.ApplyTo(t.description),
       statusId := data.statusId.ApplyTo(t.statusId),
       categoryId := data.categoryId.ApplyTo(t.categoryId),
       levelId := data.levelId.ApplyTo(t.levelId))
  }

  /** The setattr loop over the sent fields computes the partial merge. */
  lemma AssignmentsMerge(t: Ticket, data: TicketUpdate)
    requires !data.HasNull()
    ensures ApplyEach(Assign, t, Assignments(data)) == Merge(t, data)
  {
    var a1 := Sent(data.title, TitleAssignment);
    var a2 := Sent(data.description, DescriptionAssignment);
    var a3 := Sent(data.statusId, StatusAssignment);
    var a4 := Sent(data.categoryId, CategoryAssignment);
    var a5 := Sent(data.levelId, LevelAssignment);
    ApplyEachAppend(Assign, t, a1 + a2 + a3 + a4, a5);
    ApplyEachAppend(Assign, t, a1 + a2 + a3, a4);
    ApplyEachAppend(Assign, t, a1 + a2, a3);
    ApplyEachAppend(Assign, t, a1, a2);
    var t1 := ApplyEach(Assign, t, a1);
    var t2 := ApplyEach(Assign, t1, a2);
    var t3 := ApplyEach(Assign, t2, a3);
    var t4 := ApplyEach(Assign, t3, a4);
    ApplySent(Assign, t, data.title, TitleAssignment);
    ApplySent(Assign, t1, data.description, DescriptionAssignment);
    ApplySent(Assign, t2, data.statusId, StatusAssignment);
    ApplySent(Assign, t3, data.categoryId, CategoryAssignment);
    ApplySent(Assign, t4, data.levelId, LevelAssignment);
  }

  /** `update_date` is written by the flush only when some column changed. */
  function Stamp(old_: Ticket, new_: Ticket, today: Date): Ticket {
    if new_ == old_ then old_ else new_.(updateDate := Some(today))
  }

  /** The first column, in table order, that the update sets to null. */
  function NullColumn(data: TicketUpdate): (c: Option<string>)
    ensures c.None? <==> !data.HasNull()
    ensures data.title.Null? ==> c == Some("tickets.title")
    ensures !data.title.Null? && data.description.Null? ==> c == Some("tickets.description")
    ensures !data.title.Null? && !data.description.Null? && data.statusId.Null? ==> c == Some("tickets.status_id")
    ensures !data.title.Null? && !data.description.Null? && !data.statusId.Null? && data.categoryId.Null? ==>
      c == Some("tickets.category_id")
    ensures (!data.title.Null? && !data.description.Null? && !data.statusId.Null? && !data.categoryId.Null?
      && data.levelId.Null?) ==> c == Some("tickets.level_id")
  {
    if data.title.Null? then Some("tickets.title")
    else if data.description.Null? then Some("tickets.description")
    else if data.statusId.Null? then Some("tickets.status_id")
    else if data.categoryId.Null? then Some("tickets.category_id")
    else if data.levelId.Null? then Some("tickets.level_id")
    else None
  }

  function Updated(t: Ticket, data: TicketUpdate, today: Date): Ticket
    requires !data.HasNull()
  {
    Stamp(t, Merge(t, data), today)
  }

  /** The onupdate promise: `update_date` becomes today exactly when one of
      the five assignable columns ends up different, and the stored row is
      otherwise the merge. */
  lemma UpdatedStamps(t: Ticket, data: TicketUpdate, today: Date)
    requires !data.HasNull()
    ensures var m := Merge(t, data);
      Updated(t, data, today).updateDate ==
        if m.title != t.title || m.description != t.description || m.statusId != t.statusId
          || m.categoryId != t.categoryId || m.levelId != t.levelId
        then Some(today) else t.updateDate
    ensures Updated(t, data, today).(updateDate := t.updateDate) == Merge(t, data)
  {
  }

  method Create(db: Session, data: TicketCreate, today: Date) returns (r: Result<TicketRead, Error>)
    requires db.Valid()
    modifies db`tickets
    ensures db.Valid()
    ensures ValidateCreate(data) != [] ==> r == Failure(Validation(ValidateCreate(data))) && db.tickets == old(db.tickets)
    ensures ValidateCreate(data) == [] ==>
      && r == Success(Read(old(db.tickets.nextId), NewTicket(data, today)))
      && r.value.id !in old(db.tickets.rows)
      && db.tickets == Insert(old(db.tickets), NewTicket(data, today))
      && Get(db.tickets, r.value.id) == r
  {
    var errors := ValidateCreate(data);
    if errors != [] {
      return Failure(Validation(errors));
    }
    var ticket := NewTicket(data, today);
    var id := db.tickets.nextId;
    db.tickets := Insert(db.tickets, ticket);
    r := Success(Read(id, ticket));
  }

  function Get(tickets: Table<Ticket>, id: int): (r: Result<TicketRead, Error>)
    ensures r.Success? <==> Find(tickets, id).Some?
    ensures r.Success? ==> r.value == Read(id, tickets.rows[id])
    ensures r.Failure? ==> r.error == NotFound(NotFoundMessage("Ticket", id))
  {
    var ticket := Find(tickets, id);
    match RaiseNotFoundIfAbsent(FromOption(ticket), NotFoundMessage("Ticket", id))
    case Fail(e) => Failure(e)
    case Pass => Success(Read(id, ticket.value))
  }

  function GetAll(tickets: Table<Ticket>): (r: Result<seq<TicketRead>, Error>)
    requires tickets.Valid()
    ensures r.Failure? <==> tickets.rows == map[]
    ensures r.Failure? ==> r.error == NotFound("No tickets found")
    ensures r.Success? ==>
      && |r.value| == |tickets.order|
      && forall i :: 0 <= i < |r.value| ==> r.value[i] == Read(tickets.order[i], tickets.rows[tickets.order[i]])
  {
    var all := Entries(tickets);
    EntriesEmpty(tickets);
    match RaiseNotFoundIfAbsent(Rows(all), "No tickets found")
    case Fail(e) => Failure(e)
    case Pass => Success(seq(|all|, i requires 0 <= i < |all| => Read(all[i].0, all[i].1)))
  }

  /** A null sent for a column fails at commit; the rollback discards the
      assignments, so they are applied only once no column is null. */
  method Update(db: Session, id: int, data: TicketUpdate, today: Date) returns (r: Result<TicketRead, Error>)
    requires db.Valid()
    modifies db`tickets
    ensures db.Valid()
    ensures ValidateUpdate(data) != [] ==> r == Failure(Validation(ValidateUpdate(data)))
    ensures ValidateUpdate(data) == [] && Find(old(db.tickets), id).None? ==>
      r == Failure(NotFound(NotFoundMessage("Ticket", id)))
    ensures ValidateUpdate(data) == [] && Find(old(db.tickets), id).Some? ==>
      var current := old(db.tickets.rows)[id];
      && (data.IsEmpty() ==> r == Success(Read(id, current)))
      && (!data.IsEmpty() && data.HasNull() ==> r == Failure(Integrity(NotNullViolation(NullColumn(data).value))))
      && (!data.IsEmpty() && !data.HasNull() ==> r == Success(Read(id, Updated(current, data, today))))
    ensures r.Failure? || data.IsEmpty() ==> db.tickets == old(db.tickets)
    ensures r.Success? && !data.IsEmpty() ==>
      db.tickets == Put(old(db.tickets), id, Updated(old(db.tickets.rows)[id], data, today))
    ensures r.Success? ==> Get(db.tickets, id) == r
  {
    var errors := ValidateUpdate(data);
    if errors != [] {
      return Failure(Validation(errors));
    }
    var ticket := Find(db.tickets, id);
    var guard := RaiseNotFoundIfAbsent(FromOption(ticket), NotFoundMessage("Ticket", id));
    if guard.Fail? {
      return Failure(guard.error);
    }
    var current := ticket.value;
    if data.IsEmpty() {
      return Success(Read(id, current));
    }
    var nullColumn := NullColumn(data);
    if nullColumn.Some? {
      return Failure(Integrity(NotNullViolation(nullColumn.value)));
    }
    var fs := Assignments(data);
    var updated := SetEach(Assign, current, fs);
    AssignmentsMerge(current, data);
    updated := Stamp(current, updated, today);
    db.tickets := Put(db.tickets, id, updated);
    r := Success(Read(id, updated));
  }

  /** The cascade removes the ticket's comments with it. */
  method Delete(db: Session, id: int) returns (r: Result<(), Error>)
    requires db.Valid()
    modifies db`tickets, db`comments
    ensures db.Valid()
    ensures Find(old(db.tickets), id).None? ==>
      && r == Failure(NotFound(NotFoundMessage("Ticket", id)))
      && db.tickets == old(db.tickets) && db.comments == old(db.comments)
    ensures Find(old(db.tickets), id).Some? ==>
      var rm := TicketRemoval(old(db.comments.rows), id);
      && r == Success(())
      && db.tickets == RemoveAll(old(db.tickets), rm.tickets)
      && db.comments == RemoveAll(old(db.comments), rm.comments)
  {
    var ticket := Find(db.tickets, id);
    var guard := RaiseNotFoundIfAbsent(FromOption(ticket), NotFoundMessage("Ticket", id));
    if guard.Fail? {
      return Failure(guard.error);
    }
    var rm := TicketRemoval(db.comments.rows, id);
    db.DeleteTickets(rm.tickets);
    db.DeleteComments(rm.comments);
    r := Success(());
  }
}
