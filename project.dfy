/** The `/projects` handlers (routers/project.py). */
module ProjectRouter {
  import opened Wrappers
  import opened Patches
  import opened Tables
  import opened Errors
  import opened Guard
  import opened Models
  import opened Sessions
  import opened Cascade
  import opened Setattr

  const LabelMaxLength := 100
  const DescriptionMaxLength := 500
  const LabelColumn := "projects.label"
  const DescriptionColumn := "projects.description"

  datatype ProjectCreate = ProjectCreate(labelText: string, description: string, creatorId: int)

  datatype ProjectUpdate = ProjectUpdate(labelText: Patch<string>, description: Patch<string>) {
    predicate IsEmpty() {
      !labelText.IsSet() && !description.IsSet()
    }

    predicate HasNull() {
      labelText.Null? || description.Null?
    }
  }

  /** The flat part of `ProjectRead`; the nested creator and tickets are
      other tables' rows. */
  datatype ProjectRead = ProjectRead(
    id: nat,
    labelText: string,
    description: string,
    creatorId: int,
    creationDate: Date,
    updateDate: Option<Date>)

  function Read(id: nat, p: Project): ProjectRead {
    ProjectRead(id, p.labelText, p.description, p.creatorId, p.creationDate, p.updateDate)
  }

  function ValidateCreate(data: ProjectCreate): seq<FieldError> {
    MaxLength(["body", "label"], data.labelText, LabelMaxLength)
      + MaxLength(["body", "description"], data.description, DescriptionMaxLength)
  }

  function ValidateUpdate(data: ProjectUpdate): seq<FieldError> {
    PatchMaxLength(["body", "label"], data.labelText, LabelMaxLength)
      + PatchMaxLength(["body", "description"], data.description, DescriptionMaxLength)
  }

  /** The new row: `Project(**data.model_dump())` with the insert defaults. */
  function NewProject(data: ProjectCreate, today: Date): (p: Project)
    ensures p.labelText == data.labelText && p.description == data.description && p.creatorId == data.creatorId
    ensures p.creationDate == today && p.updateDate == None
  {
    Project(data.labelText, data.description, data.creatorId, today, None)
  }

  /** One `setattr(project, key, value)` of the update loop, for a non-null value. */
  datatype Assignment = AssignLabel(labelText: string) | AssignDescription(description: string)

  function LabelAssignment(v: string): Assignment { AssignLabel(v) }
  function DescriptionAssignment(v: string): Assignment { AssignDescription(v) }

  /** `data.model_dump(exclude_unset=True).items()`, in field order. */
  function Assignments(data: ProjectUpdate): (fs: seq<Assignment>)
    requires !data.HasNull()
    ensures fs == [] <==> data.IsEmpty()
  {
    Sent(data.labelText, LabelAssignment) + Sent(data.description, DescriptionAssignment)
  }

  function Assign(p: Project, f: Assignment): (q: Project)
    ensures q.creatorId == p.creatorId && q.creationDate == p.creationDate && q.updateDate == p.updateDate
  {
    match f
    case AssignLabel(v) => p.(labelText := v)
    case AssignDescription(v) => p.(description := v)
  }

  /** The partial merge the update promises: a field that was sent takes
      the new value, every other column keeps its old one. */
  function Merge(p: Project, data: ProjectUpdate): (m: Project)
    requires !data.HasNull()
    ensures data.IsEmpty() ==> m == p
    ensures m.labelText == (if data.labelText.Set? then data.labelText.value else p.labelText)
    ensures m.description == (if data.description.Set? then data.description.value else p.description)
    ensures m.creatorId == p.creatorId && m.creationDate == p.creationDate && m.updateDate == p.updateDate
  {
    p.(labelText := data.labelText.ApplyTo(p.labelText), description := data.description.ApplyTo(p.description))
  }

  /** The setattr loop over the sent fields computes the partial merge. */
  lemma AssignmentsMerge(p: Project, data: ProjectUpdate)
    requires !data.HasNull()
    ensures ApplyEach(Assign, p, Assignments(data)) == Merge(p, data)
  {
    var a := Sent(data.labelText, LabelAssignment);
    var b := Sent(data.description, DescriptionAssignment);
    ApplyEachAppend(Assign, p, a, b);
    ApplySent(Assign, p, data.labelText, LabelAssignment);
    ApplySent(Assign, ApplyEach(Assign, p, a), data.description, DescriptionAssignment);
  }

  /** `update_date` has `onupdate=func.current_date()`; the flush writes it
      only when some column really changed. */
  function Stamp(old_: Project, new_: Project, today: Date): Project {
    if new_ == old_ then old_ else new_.(updateDate := Some(today))
  }

  /** The first column, in table order, that the update sets to null:
      SQLite's NOT NULL constraint names it. */
  function NullColumn(data: ProjectUpdate): (c: Option<string>)
    ensures c.None? <==> !data.HasNull()
    ensures data.labelText.Null? ==> c == Some(LabelColumn)
    ensures !data.labelText.Null? && data.description.Null? ==> c == Some(DescriptionColumn)
  {
    if data.labelText.Null? then Some(LabelColumn)
    else if data.description.Null? then Some(DescriptionColumn)
    else None
  }

  method Create(db: Session, data: ProjectCreate, today: Date) returns (r: Result<ProjectRead, Error>)
    requires db.Valid()
    modifies db`projects
    ensures db.Valid()
    ensures ValidateCreate(data) != [] ==> r == Failure(Validation(ValidateCreate(data))) && db.projects == old(db.projects)
    ensures ValidateCreate(data) == [] ==>
      && r == Success(Read(old(db.projects.nextId), NewProject(data, today)))
      && r.value.id !in old(db.projects.rows)
      && db.projects == Insert(old(db.projects), NewProject(data, today))
      && Get(db.projects, r.value.id) == r
  {
    var errors := ValidateCreate(data);
    if errors != [] {
      return Failure(Validation(errors));
    }
    var project := NewProject(data, today);
    var id := db.projects.nextId;
    db.projects := Insert(db.projects, project);
    r := Success(Read(id, project));
  }

  function Get(projects: Table<Project>, id: int): (r: Result<ProjectRead, Error>)
    ensures r.Success? <==> Find(projects, id).Some?
    ensures r.Success? ==> r.value == Read(id, projects.rows[id])
    ensures r.Failure? ==> r.error == NotFound(NotFoundMessage("Project", id))
  {
    var project := Find(projects, id);
    match RaiseNotFoundIfAbsent(FromOption(project), NotFoundMessage("Project", id))
    case Fail(e) => Failure(e)
    case Pass => Success(Read(id, project.value))
  }

  function GetAll(projects: Table<Project>): (r: Result<seq<ProjectRead>, Error>)
    requires projects.Valid()
    ensures r.Failure? <==> projects.rows == map[]
    ensures r.Failure? ==> r.error == NotFound("No projects found")
    ensures r.Success? ==>
      && |r.value| == |projects.order|
      && forall i :: 0 <= i < |r.value| ==> r.value[i] == Read(projects.order[i], projects.rows[projects.order[i]])
  {
    var all := Entries(projects);
    EntriesEmpty(projects);
    match RaiseNotFoundIfAbsent(Rows(all), "No projects found")
    case Fail(e) => Failure(e)
    case Pass => Success(seq(|all|, i requires 0 <= i < |all| => Read(all[i].0, all[i].1)))
  }

  /** The stored row after a successful, non-empty update. */
  function Updated(p: Project, data: ProjectUpdate, today: Date): Project
    requires !data.HasNull()
  {
    Stamp(p, Merge(p, data), today)
  }

  /** The onupdate promise: `update_date` becomes today exactly when the label
      or the description ends up different, and the stored row is otherwise
      the merge. */
  lemma UpdatedStamps(p: Project, data: ProjectUpdate, today: Date)
    requires !data.HasNull()
    ensures var m := Merge(p, data);
      Updated(p, data, today).updateDate ==
        if m.labelText != p.labelText || m.description != p.description then Some(today) else p.updateDate
    ensures Updated(p, data, today).(updateDate := p.updateDate) == Merge(p, data)
  {
  }

  /** A null sent for a column fails at commit; the rollback discards the
      assignments, so they are applied only once no column is null. */
  method Update(db: Session, id: int, data: ProjectUpdate, today: Date) returns (r: Result<ProjectRead, Error>)
    requires db.Valid()
    modifies db`projects
    ensures db.Valid()
    ensures ValidateUpdate(data) != [] ==> r == Failure(Validation(ValidateUpdate(data)))
    ensures ValidateUpdate(data) == [] && Find(old(db.projects), id).None? ==>
      r == Failure(NotFound(NotFoundMessage("Project", id)))
    ensures ValidateUpdate(data) == [] && Find(old(db.projects), id).Some? ==>
      var current := old(db.projects.rows)[id];
      && (data.IsEmpty() ==> r == Success(Read(id, current)))
      && (!data.IsEmpty() && data.HasNull() ==> r == Failure(Integrity(NotNullViolation(NullColumn(data).value))))
      && (!data.IsEmpty() && !data.HasNull() ==> r == Success(Read(id, Updated(current, data, today))))
    ensures r.Failure? || data.IsEmpty() ==> db.projects == old(db.projects)
    ensures r.Success? && !data.IsEmpty() ==>
      db.projects == Put(old(db.projects), id, Updated(old(db.projects.rows)[id], data, today))
    ensures r.Success? ==> Get(db.projects, id) == r
  {
    var errors := ValidateUpdate(data);
    if errors != [] {
      return Failure(Validation(errors));
    }
    var project := Find(db.projects, id);
    var guard := RaiseNotFoundIfAbsent(FromOption(project), NotFoundMessage("Project", id));
    if guard.Fail? {
      return Failure(guard.error);
    }
    var current := project.value;
    if data.IsEmpty() {
      return Success(Read(id, current));
    }
    var nullColumn := NullColumn(data);
    if nullColumn.Some? {
      return Failure(Integrity(NotNullViolation(nullColumn.value)));
    }
    var fs := Assignments(data);
    var updated := SetEach(Assign, current, fs);
    AssignmentsMerge(current, data);
    updated := Stamp(current, updated, today);
    db.projects := Put(db.projects, id, updated);
    r := Success(Read(id, updated));
  }

  /** The cascade removes the project's tickets and their comments with it. */
  method Delete(db: Session, id: int) returns (r: Result<(), Error>)
    requires db.Valid()
    modifies db`projects, db`tickets, db`comments
    ensures db.Valid()
    ensures Find(old(db.projects), id).None? ==>
      && r == Failure(NotFound(NotFoundMessage("Project", id)))
      && db.projects == old(db.projects) && db.tickets == old(db.tickets) && db.comments == old(db.comments)
    ensures Find(old(db.projects), id).Some? ==>
      var rm := ProjectRemoval(old(db.tickets.rows), old(db.comments.rows), id);
      && r == Success(())
      && db.projects == RemoveAll(old(db.projects), rm.projects)
      && db.tickets == RemoveAll(old(db.tickets), rm.tickets)
      && db.comments == RemoveAll(old(db.comments), rm.comments)
  {
    var project := Find(db.projects, id);
    var guard := RaiseNotFoundIfAbsent(FromOption(project), NotFoundMessage("Project", id));
    if guard.Fail? {
      return Failure(guard.error);
    }
    var rm := ProjectRemoval(db.tickets.rows, db.comments.rows, id);
    db.DeleteProjects(rm.projects);
    db.DeleteTickets(rm.tickets);
    db.DeleteComments(rm.comments);
    r := Success(());
  }
}
