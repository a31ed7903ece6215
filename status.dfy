/** The `/statuses` handlers (routers/status.py). */
module StatusRouter {
  import opened Wrappers
  import opened Patches
  import opened Tables
  import opened Errors
  import opened Guard
  import opened Models
  import opened Sessions

  const LabelMaxLength := 20
  const LabelColumn := "statuses.label"

  datatype StatusCreate = StatusCreate(labelText: string)

  datatype StatusUpdate = StatusUpdate(labelText: Patch<string>) {
    predicate IsEmpty() {
      !labelText.IsSet()
    }
  }

  datatype StatusRead = StatusRead(id: nat, labelText: string)

  function Read(id: nat, s: Status): StatusRead {
    StatusRead(id, s.labelText)
  }

  function ValidateCreate(data: StatusCreate): seq<FieldError> {
    MaxLength(["body", "label"], data.labelText, LabelMaxLength)
  }

  function ValidateUpdate(data: StatusUpdate): seq<FieldError> {
    PatchMaxLength(["body", "label"], data.labelText, LabelMaxLength)
  }

  predicate LabelTaken(rows: map<nat, Status>, labelText: string) {
    exists k :: k in rows && rows[k].labelText == labelText
  }

  function Merge(s: Status, data: StatusUpdate): (m: Status)
    requires !data.labelText.Null?
    ensures data.IsEmpty() ==> m == s
    ensures data.labelText.Set? ==> m.labelText == data.labelText.value
  {
    Status(data.labelText.ApplyTo(s.labelText))
  }

  method CreateStatus(db: Session, data: StatusCreate) returns (r: Result<StatusRead, Error>)
    requires db.Valid()
    modifies db`statuses
    ensures db.Valid()
    ensures ValidateCreate(data) != [] ==> r == Failure(Validation(ValidateCreate(data)))
    ensures ValidateCreate(data) == [] && LabelTaken(old(db.statuses.rows), data.labelText) ==>
      r == Failure(Integrity(UniqueViolation(LabelColumn)))
    ensures r.Success? <==> ValidateCreate(data) == [] && !LabelTaken(old(db.statuses.rows), data.labelText)
    ensures r.Failure? ==> db.statuses == old(db.statuses)
    ensures r.Success? ==>
      && r.value == StatusRead(old(db.statuses.nextId), data.labelText)
      && r.value.id !in old(db.statuses.rows)
      && db.statuses == Insert(old(db.statuses), Status(data.labelText))
      && GetStatus(db.statuses, r.value.id) == r
  {
    var errors := ValidateCreate(data);
    if errors != [] {
      return Failure(Validation(errors));
    }
    if LabelTaken(db.statuses.rows, data.labelText) {
      return Failure(Integrity(UniqueViolation(LabelColumn)));
    }
    var status := Status(data.labelText);
    var id := db.statuses.nextId;
    db.statuses := Insert(db.statuses, status);
    r := Success(Read(id, status));
  }

  function GetStatus(statuses: Table<Status>, id: int): (r: Result<StatusRead, Error>)
    ensures r.Success? <==> Find(statuses, id).Some?
    ensures r.Success? ==> r.value == Read(id, statuses.rows[id])
    ensures r.Failure? ==> r.error == NotFound(NotFoundMessage("Status", id))
  {
    var status := Find(statuses, id);
    match RaiseNotFoundIfAbsent(FromOption(status), NotFoundMessage("Status", id))
    case Fail(e) => Failure(e)
    case Pass => Success(Read(id, status.value))
  }

  function GetStatuses(statuses: Table<Status>): (r: Result<seq<StatusRead>, Error>)
    requires statuses.Valid()
    ensures r.Failure? <==> statuses.rows == map[]
    ensures r.Failure? ==> r.error == NotFound("No statuses found")
    ensures r.Success? ==>
      && |r.value| == |statuses.order|
      && forall i :: 0 <= i < |r.value| ==> r.value[i] == Read(statuses.order[i], statuses.rows[statuses.order[i]])
  {
    var all := Entries(statuses);
    EntriesEmpty(statuses);
    match RaiseNotFoundIfAbsent(Rows(all), "No statuses found")
    case Fail(e) => Failure(e)
    case Pass => Success(seq(|all|, i requires 0 <= i < |all| => Read(all[i].0, all[i].1)))
  }

  method UpdateStatus(db: Session, id: int, data: StatusUpdate) returns (r: Result<StatusRead, Error>)
    requires db.Valid()
    modifies db`statuses
    ensures db.Valid()
    ensures ValidateUpdate(data) != [] ==> r == Failure(Validation(ValidateUpdate(data)))
    ensures ValidateUpdate(data) == [] && Find(old(db.statuses), id).None? ==>
      r == Failure(NotFound(NotFoundMessage("Status", id)))
    ensures ValidateUpdate(data) == [] && Find(old(db.statuses), id).Some? ==>
      var current := old(db.statuses.rows)[id];
      && (data.IsEmpty() ==> r == Success(Read(id, current)))
      && (data.labelText.Null? ==> r == Failure(Integrity(NotNullViolation(LabelColumn))))
      && (data.labelText.Set? && LabelTaken(old(db.statuses.rows) - {id as nat}, data.labelText.value) ==>
            r == Failure(Integrity(UniqueViolation(LabelColumn))))
      && (data.labelText.Set? && !LabelTaken(old(db.statuses.rows) - {id as nat}, data.labelText.value) ==>
            r == Success(Read(id, Merge(current, data))))
    ensures r.Failure? || data.IsEmpty() ==> db.statuses == old(db.statuses)
    ensures r.Success? && !data.IsEmpty() ==>
      db.statuses == Put(old(db.statuses), id, Merge(old(db.statuses.rows)[id], data))
    ensures r.Success? ==> GetStatus(db.statuses, id) == r
  {
    var errors := ValidateUpdate(data);
    if errors != [] {
      return Failure(Validation(errors));
    }
    var status := Find(db.statuses, id);
    var guard := RaiseNotFoundIfAbsent(FromOption(status), NotFoundMessage("Status", id));
    if guard.Fail? {
      return Failure(guard.error);
    }
    var current := status.value;
    if data.IsEmpty() {
      return Success(Read(id, current));
    }
    if data.labelText.Null? {
      return Failure(Integrity(NotNullViolation(LabelColumn)));
    }
    if LabelTaken(db.statuses.rows - {id as nat}, data.labelText.value) {
      return Failure(Integrity(UniqueViolation(LabelColumn)));
    }
    var updated := Merge(current, data);
    db.statuses := Put(db.statuses, id, updated);
    r := Success(Read(id, updated));
  }

  method DeleteStatus(db: Session, id: int) returns (r: Result<(), Error>)
    requires db.Valid()
    modifies db`statuses
    ensures db.Valid()
    ensures Find(old(db.statuses), id).None? ==>
      r == Failure(NotFound(NotFoundMessage("Status", id))) && db.statuses == old(db.statuses)
    ensures Find(old(db.statuses), id).Some? ==>
      r == Success(()) && db.statuses == RemoveAll(old(db.statuses), {id as nat})
  {
    var status := Find(db.statuses, id);
    var guard := RaiseNotFoundIfAbsent(FromOption(status), NotFoundMessage("Status", id));
    if guard.Fail? {
      return Failure(guard.error);
    }
    db.statuses := RemoveAll(db.statuses, {id as nat});
    r := Success(());
  }
}
