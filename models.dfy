/** The stored records, one per table. Ids are the table keys; foreign keys
    are plain ints, since SQLite does not enforce them here. */
module Models {
  import opened Wrappers

  /** A day, as `func.current_date()` stamps it. */
  type Date = nat

  datatype Category = Category(labelText: string)

  datatype Level = Level(labelText: string)

  datatype Status = Status(labelText: string)

  datatype Project = Project(
    labelText: string,
    description: string,
    creatorId: int,
    creationDate: Date,
    updateDate: Option<Date>)

  datatype Ticket = Ticket(
    title: string,
    description: string,
    creatorId: int,
    projectId: int,
    statusId: int,
    categoryId: int,
    levelId: int,
    creationDate: Date,
    updateDate: Option<Date>)

  datatype Comment = Comment(
    content: string,
    creatorId: int,
    ticketId: int,
    creationDate: Date,
    updateDate: Option<Date>)

  datatype User = User(
    firstName: string,
    lastName: string,
    username: string,
    email: string,
    role: string,
    passwordDigest: string)
}
