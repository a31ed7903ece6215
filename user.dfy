/** The `/users` handlers (routers/user.py). */
module UserRouter {
  import opened Wrappers
  import opened Patches
  import opened Tables
  import opened Errors
  import opened Guard
  import opened Models
  import opened Sessions
  import opened Pagination
  import opened Setattr
  import Listing
  import opened Cascade
  import opened Passwords
  import ProjectRouter
  import TicketRouter
  import CommentRouter

  const NameMaxLength := 50
  const RoleMaxLength := 20
  const PasswordMinLength := 8
  const EmailColumn := "users.email"

  datatype UserCreate = UserCreate(
    firstName: string,
    lastName: string,
    username: string,
    email: string,
    role: string,
    password: string)

  datatype UserUpdate = UserUpdate(
    firstName: Patch<string>,
    lastName: Patch<string>,
    username: Patch<string>,
    email: Patch<string>,
    role: Patch<string>,
    password: Patch<string>)
  {
    predicate IsEmpty() {
      && !firstName.IsSet() && !lastName.IsSet() && !username.IsSet()
      && !email.IsSet() && !role.IsSet() && !password.IsSet()
    }

    predicate HasNull() {
      firstName.Null? || lastName.Null? || username.Null? || email.Null? || role.Null? || password.Null?
    }
  }

  /** The flat part of `UserRead`: no password, no nested collections. */
  datatype UserRead = UserRead(
    id: nat,
    firstName: string,
    lastName: string,
    username: string,
    email: string,
    role: string)

  function Read(id: nat, u: User): UserRead {
    UserRead(id, u.firstName, u.lastName, u.username, u.email, u.role)
  }

  function ValidateCreate(data: UserCreate): seq<FieldError> {
    MaxLength(["body", "first_name"], data.firstName, NameMaxLength)
      + MaxLength(["body", "last_name"], data.lastName, NameMaxLength)
      + MaxLength(["body", "username"], data.username, NameMaxLength)
      + MaxLength(["body", "role"], data.role, RoleMaxLength)
      + MinLength(["body", "password"], data.password, PasswordMinLength)
  }

  function ValidateUpdate(data: UserUpdate): seq<FieldError> {
    PatchMaxLength(["body", "first_name"], data.firstName, NameMaxLength)
      + PatchMaxLength(["body", "last_name"], data.lastName, NameMaxLength)
      + PatchMaxLength(["body", "username"], data.username, NameMaxLength)
      + PatchMaxLength(["body", "role"], data.role, RoleMaxLength)
      + PatchMinLength(["body", "password"], data.password, PasswordMinLength)
  }

  /** `User(..., plain_password=data.password)`: the row keeps a digest. */
  function NewUser(data: UserCreate): (u: User)
    ensures u.firstName == data.firstName && u.lastName == data.lastName && u.username == data.username
    ensures u.email == data.email && u.role == data.role
    ensures u.passwordDigest != data.password && Verify(data.password, u.passwordDigest)
  {
    User(data.firstName, data.lastName, data.username, data.email, data.role, Hash(data.password))
  }

  /** The unique index on `email`: another row already has this address. */
  predicate EmailTaken(rows: map<nat, User>, email: string) {
    exists k :: k in rows && rows[k].email == email
  }

  /** One `setattr(user, key, value)` of the update loop, for a non-null value. */
  datatype Assignment =
    | AssignFirstName(firstName: string)
    | AssignLastName(lastName: string)
    | AssignUsername(username: string)
    | AssignEmail(email: string)
    | AssignRole(role: string)
    | AssignPassword(password: string)

  function FirstNameAssignment(v: string): Assignment { AssignFirstName(v) }
  function LastNameAssignment(v: string): Assignment { AssignLastName(v) }
  function UsernameAssignment(v: string): Assignment { AssignUsername(v) }
  function EmailAssignment(v: string): Assignment { AssignEmail(v) }
  function RoleAssignment(v: string): Assignment { AssignRole(v) }
  function PasswordAssignment(v: string): Assignment { AssignPassword(v) }

  /** `data.model_dump(exclude_unset=True).items()`, in field order. */
  function Assignments(data: UserUpdate): (fs: seq<Assignment>)
    requires !data.HasNull()
    ensures fs == [] <==> data.IsEmpty()
  {
    Sent(data.firstName, FirstNameAssignment) + Sent(data.lastName, LastNameAssignment)
      + Sent(data.username, UsernameAssignment) + Sent(data.email, EmailAssignment)
      + Sent(data.role, RoleAssignment) + Sent(data.password, PasswordAssignment)
  }

  /** Assigning the password stores its digest, as on creation. */
  function Assign(u: User, f: Assignment): User {
    match f
    case AssignFirstName(v) => u.(firstName := v)
    case AssignLastName(v) => u.(lastName := v)
    case AssignUsername(v) => u.(username := v)
    case AssignEmail(v) => u.(email := v)
    case AssignRole(v) => u.(role := v)
    case AssignPassword(v) => u.(passwordDigest := Hash(v))
  }

  /** The partial merge the update promises: a field that was sent takes the
      new value (the password as a digest), every other field is kept. */
  function Merge(u: User, data: UserUpdate): (m: User)
    requires !data.HasNull()
    ensures data.IsEmpty() ==> m == u
    ensures m.firstName == (if data.firstName.Set? then data.firstName.value else u.firstName)
    ensures m.lastName == (if data.lastName.Set? then data.lastName.value else u.lastName)
    ensures m.username == (if data.username.Set? then data.username.value else u.username)
    ensures m.email == (if data.email.Set? then data.email.value else u.email)
    ensures m.role == (if data.role.Set? then data.role.value else u.role)
    ensures m.passwordDigest == (if data.password.Set? then Hash(data.password.value) else u.passwordDigest)
  {
    User(data.firstName.ApplyTo(u.firstName), data.lastName.ApplyTo(u.lastName),
         data.username.ApplyTo(u.username), data.email.ApplyTo(u.email), data.role.ApplyTo(u.role),
         if data.password.Set? then Hash(data.password.value) else u.passwordDigest)
  }

  /** The sent fields before the password, in field order. */
  function ProfileAssignments(data: UserUpdate): seq<Assignment>
    requires !data.HasNull()
  {
    Sent(data.firstName, FirstNameAssignment) + Sent(data.lastName, LastNameAssignment)
      + Sent(data.username, UsernameAssignment) + Sent(data.email, EmailAssignment)
      + Sent(data.role, RoleAssignment)
  }

  /** The loop over the fields before the password merges those fields. */
  lemma ProfileAssignmentsMerge(u: User, data: UserUpdate)
    requires !data.HasNull()
    ensures ApplyEach(Assign, u, ProfileAssignments(data)) == Merge(u, data).(passwordDigest := u.passwordDigest)
  {
    var a1 := Sent(data.firstName, FirstNameAssignment);
    var a2 := Sent(data.lastName, LastNameAssignment);
    var a3 := Sent(data.username, UsernameAssignment);
    var a4 := Sent(data.email, EmailAssignment);
    var a5 := Sent(data.role, RoleAssignment);
    ApplyEachAppend(Assign, u, a1 + a2 + a3 + a4, a5);
    ApplyEachAppend(Assign, u, a1 + a2 + a3, a4);
    ApplyEachAppend(Assign, u, a1 + a2, a3);
    ApplyEachAppend(Assign, u, a1, a2);
    var u1 := ApplyEach(Assign, u, a1);
    var u2 := ApplyEach(Assign, u1, a2);
    var u3 := ApplyEach(Assign, u2, a3);
    var u4 := ApplyEach(Assign, u3, a4);
    ApplySent(Assign, u, data.firstName, FirstNameAssignment);
    ApplySent(Assign, u1, data.lastName, LastNameAssignment);
    ApplySent(Assign, u2, data.username, UsernameAssignment);
    ApplySent(Assign, u3, data.email, EmailAssignment);
    ApplySent(Assign, u4, data.role, RoleAssignment);
  }

  /** The setattr loop over the sent fields computes the partial merge. */
  lemma AssignmentsMerge(u: User, data: UserUpdate)
    requires !data.HasNull()
    ensures ApplyEach(Assign, u, Assignments(data)) == Merge(u, data)
  {
    var a6 := Sent(data.password, PasswordAssignment);
    assert Assignments(data) == ProfileAssignments(data) + a6;
    ApplyEachAppend(Assign, u, ProfileAssignments(data), a6);
    ProfileAssignmentsMerge(u, data);
    ApplySent(Assign, ApplyEach(Assign, u, ProfileAssignments(data)), data.password, PasswordAssignment);
  }

  /** The first column, in table order, that the update sets to null. */
  function NullColumn(data: UserUpdate): (c: Option<string>)
    ensures c.None? <==> !data.HasNull()
    ensures data.firstName.Null? ==> c == Some("users.first_name")
    ensures !data.firstName.Null? && data.lastName.Null? ==> c == Some("users.last_name")
    ensures !data.firstName.Null? && !data.lastName.Null? && data.username.Null? ==> c == Some("users.username")
    ensures !data.firstName.Null? && !data.lastName.Null? && !data.username.Null? && data.email.Null? ==>
      c == Some("users.email")
    ensures (!data.firstName.Null? && !data.lastName.Null? && !data.username.Null? && !data.email.Null?
      && data.role.Null?) ==> c == Some("users.role")
    ensures (!data.firstName.Null? && !data.lastName.Null? && !data.username.Null? && !data.email.Null?
      && !data.role.Null? && data.password.Null?) ==> c == Some("users.password")
  {
    if data.firstName.Null? then Some("users.first_name")
    else if data.lastName.Null? then Some("users.last_name")
    else if data.username.Null? then Some("users.username")
    else if data.email.Null? then Some("users.email")
    else if data.role.Null? then Some("users.role")
    else if data.password.Null? then Some("users.password")
    else None
  }

  method Create(db: Session, data: UserCreate) returns (r: Result<UserRead, Error>)
    requires db.Valid()
    modifies db`users
    ensures db.Valid()
    ensures ValidateCreate(data) != [] ==> r == Failure(Validation(ValidateCreate(data)))
    ensures ValidateCreate(data) == [] && EmailTaken(old(db.users.rows), data.email) ==>
      r == Failure(Integrity(UniqueViolation(EmailColumn)))
    ensures r.Success? <==> ValidateCreate(data) == [] && !EmailTaken(old(db.users.rows), data.email)
    ensures r.Failure? ==> db.users == old(db.users)
    ensures r.Success? ==>
      && r.value == Read(old(db.users.nextId), NewUser(data))
      && r.value.id !in old(db.users.rows)
      && db.users == Insert(old(db.users), NewUser(data))
      && Get(db.users, r.value.id) == r
      && Verify(data.password, db.users.rows[r.value.id].passwordDigest)
  {
    var errors := ValidateCreate(data);
    if errors != [] {
      return Failure(Validation(errors));
    }
    if EmailTaken(db.users.rows, data.email) {
      return Failure(Integrity(UniqueViolation(EmailColumn)));
    }
    var user := NewUser(data);
    var id := db.users.nextId;
    db.users := Insert(db.users, user);
    r := Success(Read(id, user));
  }

  function Get(users: Table<User>, id: int): (r: Result<UserRead, Error>)
    ensures r.Success? <==> Find(users, id).Some?
    ensures r.Success? ==> r.value == Read(id, users.rows[id])
    ensures r.Failure? ==> r.error == NotFound(NotFoundMessage("User", id))
  {
    var user := Find(users, id);
    match RaiseNotFoundIfAbsent(FromOption(user), NotFoundMessage("User", id))
    case Fail(e) => Failure(e)
    case Pass => Success(Read(id, user.value))
  }

  /** `paginate(db, select(User), params)`, the guard on the page's items,
      and `Page.create` with the query's total. */
  function GetAll(users: Table<User>, params: Params): (r: Result<Page<UserRead>, Error>)
    requires users.Valid()
    ensures ValidateParams(params) != [] ==> r == Failure(Validation(ValidateParams(params)))
    ensures ValidateParams(params) == [] ==>
      && (r.Failure? <==> Offset(params.page, params.size) >= |users.order|)
      && (r.Failure? ==> r.error == NotFound("No users found"))
    ensures r.Success? ==>
      && r.value.total == |users.rows|
      && r.value.page == params.page && r.value.size == params.size
      && r.value.pages == NumPages(r.value.total, params.size) && r.value.page <= r.value.pages
      && 0 < |r.value.items| <= params.size
      && r.value.items == Listing.PageItems(users, params.page, params.size, Read)
  {
    Listing.GetPage(users, params, Read, "No users found")
  }

  /** A page past the last one raises although users exist. */
  lemma PagePastTheEndNotFound(users: Table<User>, params: Params)
    requires users.Valid() && ValidateParams(params) == []
    requires users.rows != map[] && Offset(params.page, params.size) >= |users.order|
    ensures GetAll(users, params) == Failure(NotFound("No users found"))
  {
  }

  method Update(db: Session, id: int, data: UserUpdate) returns (r: Result<UserRead, Error>)
    requires db.Valid()
    modifies db`users
    ensures db.Valid()
    ensures ValidateUpdate(data) != [] ==> r == Failure(Validation(ValidateUpdate(data)))
    ensures ValidateUpdate(data) == [] && Find(old(db.users), id).None? ==>
      r == Failure(NotFound(NotFoundMessage("User", id)))
    ensures ValidateUpdate(data) == [] && Find(old(db.users), id).Some? ==>
      var current := old(db.users.rows)[id];
      var others := old(db.users.rows) - {id as nat};
      && (data.IsEmpty() ==> r == Success(Read(id, current)))
      && (!data.IsEmpty() && data.HasNull() ==> r == Failure(Integrity(NotNullViolation(NullColumn(data).value))))
      && (!data.IsEmpty() && !data.HasNull() && data.email.Set? && EmailTaken(others, data.email.value) ==>
            r == Failure(Integrity(UniqueViolation(EmailColumn))))
      && (!data.IsEmpty() && !data.HasNull() && !(data.email.Set? && EmailTaken(others, data.email.value)) ==>
            r == Success(Read(id, Merge(current, data))))
    ensures r.Failure? || data.IsEmpty() ==> db.users == old(db.users)
    ensures r.Success? && !data.IsEmpty() ==>
      db.users == Put(old(db.users), id, Merge(old(db.users.rows)[id], data))
    ensures r.Success? ==> Get(db.users, id) == r
  {
    var errors := ValidateUpdate(data);
    if errors != [] {
      return Failure(Validation(errors));
    }
    var user := Find(db.users, id);
    var guard := RaiseNotFoundIfAbsent(FromOption(user), NotFoundMessage("User", id));
    if guard.Fail? {
      return Failure(guard.error);
    }
    var current := user.value;
    if data.IsEmpty() {
      return Success(Read(id, current));
    }
    var nullColumn := NullColumn(data);
    if nullColumn.Some? {
      return Failure(Integrity(NotNullViolation(nullColumn.value)));
    }
    if data.email.Set? && EmailTaken(db.users.rows - {id as nat}, data.email.value) {
      return Failure(Integrity(UniqueViolation(EmailColumn)));
    }
    var fs := Assignments(data);
    var updated := SetEach(Assign, current, fs);
    AssignmentsMerge(current, data);
    db.users := Put(db.users, id, updated);
    r := Success(Read(id, updated));
  }

  /** The cascade removes the user's projects, tickets and comments, and
      those of the removed projects and tickets. */
  method Delete(db: Session, id: int) returns (r: Result<(), Error>)
    requires db.Valid()
    modifies db`users, db`projects, db`tickets, db`comments
    ensures db.Valid()
    ensures Find(old(db.users), id).None? ==>
      && r == Failure(NotFound(NotFoundMessage("User", id)))
      && db.users == old(db.users) && db.projects == old(db.projects)
      && db.tickets == old(db.tickets) && db.comments == old(db.comments)
    ensures Find(old(db.users), id).Some? ==>
      var rm := UserRemoval(old(db.projects.rows), old(db.tickets.rows), old(db.comments.rows), id);
      && r == Success(())
      && db.users == RemoveAll(old(db.users), {id as nat})
      && db.projects == RemoveAll(old(db.projects), rm.projects)
      && db.tickets == RemoveAll(old(db.tickets), rm.tickets)
      && db.comments == RemoveAll(old(db.comments), rm.comments)
  {
    var user := Find(db.users, id);
    var guard := RaiseNotFoundIfAbsent(FromOption(user), NotFoundMessage("User", id));
    if guard.Fail? {
      return Failure(guard.error);
    }
    var rm := UserRemoval(db.projects.rows, db.tickets.rows, db.comments.rows, id);
    db.DeleteUsers({id as nat});
    db.DeleteProjects(rm.projects);
    db.DeleteTickets(rm.tickets);
    db.DeleteComments(rm.comments);
    r := Success(());
  }

  /** After a user is deleted, getting anything it owned answers not found. */
  lemma DeletedUserChildrenNotFound(projects: Table<Project>, tickets: Table<Ticket>, comments: Table<Comment>, id: nat, k: nat)
    requires projects.Valid() && tickets.Valid() && comments.Valid()
    ensures var rm := UserRemoval(projects.rows, tickets.rows, comments.rows, id);
      && (k in rm.projects ==> ProjectRouter.Get(RemoveAll(projects, rm.projects), k).Failure?)
      && (k in rm.tickets ==> TicketRouter.Get(RemoveAll(tickets, rm.tickets), k).Failure?)
      && (k in rm.comments ==> CommentRouter.Get(RemoveAll(comments, rm.comments), k).Failure?)
  {
  }
}
