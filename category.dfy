/** The `/categories` handlers (routers/category.py). */
module CategoryRouter {
  import opened Wrappers
  import opened Patches
  import opened Tables
  import opened Errors
  import opened Guard
  import opened Models
  import opened Sessions

  const LabelMaxLength := 20
  const LabelColumn := "categories.label"

  datatype CategoryCreate = CategoryCreate(labelText: string)

  datatype CategoryUpdate = CategoryUpdate(labelText: Patch<string>) {
    /** `model_dump(exclude_unset=True)` is empty. */
    predicate IsEmpty() {
      !labelText.IsSet()
    }
  }

  datatype CategoryRead = CategoryRead(id: nat, labelText: string)

  function Read(id: nat, c: Category): CategoryRead {
    CategoryRead(id, c.labelText)
  }

  function ValidateCreate(data: CategoryCreate): seq<FieldError> {
    MaxLength(["body", "label"], data.labelText, LabelMaxLength)
  }

  /** `id: Path(ge=0)` and the body's `max_length`, checked before the handler runs. */
  function ValidateUpdate(id: int, data: CategoryUpdate): (es: seq<FieldError>)
    ensures id < 0 ==> es != []
  {
    AtLeast(["path", "id"], id, 0) + PatchMaxLength(["body", "label"], data.labelText, LabelMaxLength)
  }

  /** The unique index on `label`: some row already has this label. */
  predicate LabelTaken(rows: map<nat, Category>, labelText: string) {
    exists k :: k in rows && rows[k].labelText == labelText
  }

  /** The partial merge: `category.label = data.label` when the label was sent. */
  function Merge(c: Category, data: CategoryUpdate): (m: Category)
    requires !data.labelText.Null?
    ensures data.IsEmpty() ==> m == c
    ensures data.labelText.Set? ==> m.labelText == data.labelText.value
  {
    Category(data.labelText.ApplyTo(c.labelText))
  }

  method Create(db: Session, data: CategoryCreate) returns (r: Result<CategoryRead, Error>)
    requires db.Valid()
    modifies db`categories
    ensures db.Valid()
    ensures ValidateCreate(data) != [] ==> r == Failure(Validation(ValidateCreate(data)))
    ensures ValidateCreate(data) == [] && LabelTaken(old(db.categories.rows), data.labelText) ==>
      r == Failure(Integrity(UniqueViolation(LabelColumn)))
    ensures r.Success? <==> ValidateCreate(data) == [] && !LabelTaken(old(db.categories.rows), data.labelText)
    ensures r.Failure? ==> db.categories == old(db.categories)
    ensures r.Success? ==>
      && r.value == CategoryRead(old(db.categories.nextId), data.labelText)
      && r.value.id !in old(db.categories.rows)
      && db.categories == Insert(old(db.categories), Category(data.labelText))
      && Get(db.categories, r.value.id) == r
  {
    var errors := ValidateCreate(data);
    if errors != [] {
      return Failure(Validation(errors));
    }
    if LabelTaken(db.categories.rows, data.labelText) {
      return Failure(Integrity(UniqueViolation(LabelColumn)));
    }
    var category := Category(data.labelText);
    var id := db.categories.nextId;
    db.categories := Insert(db.categories, category);
    r := Success(Read(id, category));
  }

  function Get(categories: Table<Category>, id: int): (r: Result<CategoryRead, Error>)
    ensures r.Success? <==> Find(categories, id).Some?
    ensures r.Success? ==> r.value == Read(id, categories.rows[id])
    ensures r.Failure? ==> r.error == NotFound(NotFoundMessage("Category", id))
  {
    var category := Find(categories, id);
    match RaiseNotFoundIfAbsent(FromOption(category), NotFoundMessage("Category", id))
    case Fail(e) => Failure(e)
    case Pass => Success(Read(id, category.value))
  }

  function GetAll(categories: Table<Category>): (r: Result<seq<CategoryRead>, Error>)
    requires categories.Valid()
    ensures r.Failure? <==> categories.rows == map[]
    ensures r.Failure? ==> r.error == NotFound("No categories found")
    ensures r.Success? ==>
      && |r.value| == |categories.order|
      && forall i :: 0 <= i < |r.value| ==> r.value[i] == Read(categories.order[i], categories.rows[categories.order[i]])
  {
    var all := Entries(categories);
    EntriesEmpty(categories);
    match RaiseNotFoundIfAbsent(Rows(all), "No categories found")
    case Fail(e) => Failure(e)
    case Pass => Success(seq(|all|, i requires 0 <= i < |all| => Read(all[i].0, all[i].1)))
  }

  method Update(db: Session, id: int, data: CategoryUpdate) returns (r: Result<CategoryRead, Error>)
    requires db.Valid()
    modifies db`categories
    ensures db.Valid()
    ensures ValidateUpdate(id, data) != [] ==> r == Failure(Validation(ValidateUpdate(id, data)))
    ensures ValidateUpdate(id, data) == [] && Find(old(db.categories), id).None? ==>
      r == Failure(NotFound(NotFoundMessage("Category", id)))
    ensures ValidateUpdate(id, data) == [] && Find(old(db.categories), id).Some? ==>
      var current := old(db.categories.rows)[id];
      && (data.IsEmpty() ==> r == Success(Read(id, current)))
      && (data.labelText.Null? ==> r == Failure(Integrity(NotNullViolation(LabelColumn))))
      && (data.labelText.Set? && LabelTaken(old(db.categories.rows) - {id as nat}, data.labelText.value) ==>
            r == Failure(Integrity(UniqueViolation(LabelColumn))))
      && (data.labelText.Set? && !LabelTaken(old(db.categories.rows) - {id as nat}, data.labelText.value) ==>
            r == Success(Read(id, Merge(current, data))))
    ensures r.Failure? || data.IsEmpty() ==> db.categories == old(db.categories)
    ensures r.Success? && !data.IsEmpty() ==>
      db.categories == Put(old(db.categories), id, Merge(old(db.categories.rows)[id], data))
    ensures r.Success? ==> Get(db.categories, id) == r
  {
    var errors := ValidateUpdate(id, data);
    if errors != [] {
      return Failure(Validation(errors));
    }
    var category := Find(db.categories, id);
    var guard := RaiseNotFoundIfAbsent(FromOption(category), NotFoundMessage("Category", id));
    if guard.Fail? {
      return Failure(guard.error);
    }
    var current := category.value;
    if data.IsEmpty() {
      return Success(Read(id, current));
    }
    if data.labelText.Null? {
      return Failure(Integrity(NotNullViolation(LabelColumn)));
    }
    if LabelTaken(db.categories.rows - {id as nat}, data.labelText.value) {
      return Failure(Integrity(UniqueViolation(LabelColumn)));
    }
    var updated := Merge(current, data);
    db.categories := Put(db.categories, id, updated);
    r := Success(Read(id, updated));
  }

  /** Deletes the category and returns it; tickets that reference it are
      left as they are. */
  method Delete(db: Session, id: int) returns (r: Result<CategoryRead, Error>)
    requires db.Valid()
    modifies db`categories
    ensures db.Valid()
    ensures Find(old(db.categories), id).None? ==>
      r == Failure(NotFound(NotFoundMessage("Category", id))) && db.categories == old(db.categories)
    ensures Find(old(db.categories), id).Some? ==>
      && r == Success(Read(id, old(db.categories.rows)[id]))
      && db.categories == RemoveAll(old(db.categories), {id as nat})
      && Get(db.categories, id).Failure?
  {
    var category := Find(db.categories, id);
    var guard := RaiseNotFoundIfAbsent(FromOption(category), NotFoundMessage("Category", id));
    if guard.Fail? {
      return Failure(guard.error);
    }
    db.categories := RemoveAll(db.categories, {id as nat});
    r := Success(Read(id, category.value));
  }
}
