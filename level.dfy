/** The `/levels` handlers (routers/level.py). The level schema declares no
    length bound, so no request body is rejected here. */
module LevelRouter {
  import opened Wrappers
  import opened Patches
  import opened Tables
  import opened Errors
  import opened Guard
  import opened Models
  import opened Sessions

  const LabelColumn := "levels.label"

  datatype LevelCreate = LevelCreate(labelText: string)

  datatype LevelUpdate = LevelUpdate(labelText: Patch<string>) {
    predicate IsEmpty() {
      !labelText.IsSet()
    }
  }

  datatype LevelRead = LevelRead(id: nat, labelText: string)

  function Read(id: nat, l: Level): LevelRead {
    LevelRead(id, l.labelText)
  }

  predicate LabelTaken(rows: map<nat, Level>, labelText: string) {
    exists k :: k in rows && rows[k].labelText == labelText
  }

  function Merge(l: Level, data: LevelUpdate): (m: Level)
    requires !data.labelText.Null?
    ensures data.IsEmpty() ==> m == l
    ensures data.labelText.Set? ==> m.labelText == data.labelText.value
  {
    Level(data.labelText.ApplyTo(l.labelText))
  }

  method Create(db: Session, data: LevelCreate) returns (r: Result<LevelRead, Error>)
    requires db.Valid()
    modifies db`levels
    ensures db.Valid()
    ensures r.Failure? <==> LabelTaken(old(db.levels.rows), data.labelText)
    ensures r.Failure? ==> r.error == Integrity(UniqueViolation(LabelColumn)) && db.levels == old(db.levels)
    ensures r.Success? ==>
      && r.value == LevelRead(old(db.levels.nextId), data.labelText)
      && r.value.id !in old(db.levels.rows)
      && db.levels == Insert(old(db.levels), Level(data.labelText))
      && Get(db.levels, r.value.id) == r
  {
    if LabelTaken(db.levels.rows, data.labelText) {
      return Failure(Integrity(UniqueViolation(LabelColumn)));
    }
    var level := Level(data.labelText);
    var id := db.levels.nextId;
    db.levels := Insert(db.levels, level);
    r := Success(Read(id, level));
  }

  function Get(levels: Table<Level>, id: int): (r: Result<LevelRead, Error>)
    ensures r.Success? <==> Find(levels, id).Some?
    ensures r.Success? ==> r.value == Read(id, levels.rows[id])
    ensures r.Failure? ==> r.error == NotFound(NotFoundMessage("Level", id))
  {
    var level := Find(levels, id);
    match RaiseNotFoundIfAbsent(FromOption(level), NotFoundMessage("Level", id))
    case Fail(e) => Failure(e)
    case Pass => Success(Read(id, level.value))
  }

  /** An explicit emptiness check raises first; the guard after it then
      always passes, so the outcome is that of a single guard. */
  function GetAll(levels: Table<Level>): (r: Result<seq<LevelRead>, Error>)
    requires levels.Valid()
    ensures r.Failure? <==> levels.rows == map[]
    ensures r.Failure? ==> r.error == NotFound("No levels found")
    ensures r.Success? ==>
      && |r.value| == |levels.order|
      && forall i :: 0 <= i < |r.value| ==> r.value[i] == Read(levels.order[i], levels.rows[levels.order[i]])
  {
    var all := Entries(levels);
    EntriesEmpty(levels);
    if all == [] then Failure(NotFound("No levels found"))
    else
      match RaiseNotFoundIfAbsent(Rows(all), "No levels found")
      case Fail(e) => Failure(e)
      case Pass => Success(seq(|all|, i requires 0 <= i < |all| => Read(all[i].0, all[i].1)))
  }

  method Update(db: Session, id: int, data: LevelUpdate) returns (r: Result<LevelRead, Error>)
    requires db.Valid()
    modifies db`levels
    ensures db.Valid()
    ensures Find(old(db.levels), id).None? ==> r == Failure(NotFound(NotFoundMessage("Level", id)))
    ensures Find(old(db.levels), id).Some? ==>
      var current := old(db.levels.rows)[id];
      && (data.IsEmpty() ==> r == Success(Read(id, current)))
      && (data.labelText.Null? ==> r == Failure(Integrity(NotNullViolation(LabelColumn))))
      && (data.labelText.Set? && LabelTaken(old(db.levels.rows) - {id as nat}, data.labelText.value) ==>
            r == Failure(Integrity(UniqueViolation(LabelColumn))))
      && (data.labelText.Set? && !LabelTaken(old(db.levels.rows) - {id as nat}, data.labelText.value) ==>
            r == Success(Read(id, Merge(current, data))))
    ensures r.Failure? || data.IsEmpty() ==> db.levels == old(db.levels)
    ensures r.Success? && !data.IsEmpty() ==>
      db.levels == Put(old(db.levels), id, Merge(old(db.levels.rows)[id], data))
    ensures r.Success? ==> Get(db.levels, id) == r
  {
    var level := Find(db.levels, id);
    var guard := RaiseNotFoundIfAbsent(FromOption(level), NotFoundMessage("Level", id));
    if guard.Fail? {
      return Failure(guard.error);
    }
    var current := level.value;
    if data.IsEmpty() {
      return Success(Read(id, current));
    }
    if data.labelText.Null? {
      return Failure(Integrity(NotNullViolation(LabelColumn)));
    }
    if LabelTaken(db.levels.rows - {id as nat}, data.labelText.value) {
      return Failure(Integrity(UniqueViolation(LabelColumn)));
    }
    var updated := Merge(current, data);
    db.levels := Put(db.levels, id, updated);
    r := Success(Read(id, updated));
  }

  method Delete(db: Session, id: int) returns (r: Result<(), Error>)
    requires db.Valid()
    modifies db`levels
    ensures db.Valid()
    ensures Find(old(db.levels), id).None? ==>
      r == Failure(NotFound(NotFoundMessage("Level", id))) && db.levels == old(db.levels)
    ensures Find(old(db.levels), id).Some? ==>
      r == Success(()) && db.levels == RemoveAll(old(db.levels), {id as nat})
  {
    var level := Find(db.levels, id);
    var guard := RaiseNotFoundIfAbsent(FromOption(level), NotFoundMessage("Level", id));
    if guard.Fail? {
      return Failure(guard.error);
    }
    db.levels := RemoveAll(db.levels, {id as nat});
    r := Success(());
  }
}
