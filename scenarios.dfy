/** Request sequences in the style of the repository's router tests,
    proved from the handlers' contracts alone. */
module Scenarios {
  import opened Wrappers
  import opened Patches
  import opened Tables
  import opened Errors
  import opened Sessions
  import CategoryRouter
  import ProjectRouter
  import TicketRouter
  import CommentRouter
  import UserRouter
  import Cascade

  /** Create and read a category; a second one with the same label is refused. */
  method CategoryCreateThenGet() {
    var db := new Session();
    var created := CategoryRouter.Create(db, CategoryRouter.CategoryCreate("Bug"));
    assert created == Success(CategoryRouter.CategoryRead(1, "Bug"));
    assert CategoryRouter.Get(db.categories, 1) == created;
    assert db.categories.rows[1].labelText == "Bug";
    var duplicate := CategoryRouter.Create(db, CategoryRouter.CategoryCreate("Bug"));
    assert duplicate == Failure(Integrity(UniqueViolation("categories.label")));
  }

  /** An update that sends nothing answers with the row as it is. */
  method CategoryEmptyUpdate() {
    var db := new Session();
    var created := CategoryRouter.Create(db, CategoryRouter.CategoryCreate("Bug"));
    assert created == Success(CategoryRouter.CategoryRead(1, "Bug"));
    var same := CategoryRouter.Update(db, 1, CategoryRouter.CategoryUpdate(Unset));
    assert same == created;
  }

  /** Rename, delete and read again a category. */
  method CategoryRenameThenDelete() {
    var db := new Session();
    var created := CategoryRouter.Create(db, CategoryRouter.CategoryCreate("Bug"));
    assert created.Success? && created.value.id == 1;
    var renamed := CategoryRouter.Update(db, 1, CategoryRouter.CategoryUpdate(Set("Defect")));
    assert renamed == Success(CategoryRouter.CategoryRead(1, "Defect"));
    var deleted := CategoryRouter.Delete(db, 1);
    assert deleted == renamed;
    assert CategoryRouter.Get(db.categories, 1) == Failure(NotFound(NotFoundMessage("Category", 1)));
  }

  /** A user who created a project. */
  method SeedUserProject() returns (db: Session)
    ensures fresh(db) && db.Valid()
    ensures 1 in db.users.rows
    ensures 1 in db.projects.rows && db.projects.rows[1].creatorId == 1
    ensures db.tickets == Empty() && db.comments == Empty()
  {
    db := new Session();
    var u := UserRouter.UserCreate("Ada", "Lovelace", "ada", "ada@example.org", "admin", "secret-pass");
    assert UserRouter.ValidateCreate(u) == [];
    var user := UserRouter.Create(db, u);
    assert user.Success? && user.value.id == 1;
    var p := ProjectRouter.ProjectCreate("Engine", "Analytical", 1);
    assert ProjectRouter.ValidateCreate(p) == [];
    var project := ProjectRouter.Create(db, p, 7);
    assert project.Success? && project.value.id == 1;
  }

  /** A ticket on project 1 and a comment on that ticket, both by user 2. */
  method AddTicketComment(db: Session)
    requires db.Valid() && db.tickets == Empty() && db.comments == Empty()
    modifies db`tickets, db`comments
    ensures db.Valid()
    ensures 1 in db.tickets.rows && db.tickets.rows[1].projectId == 1
    ensures 1 in db.comments.rows && db.comments.rows[1].ticketId == 1
  {
    var t := TicketRouter.TicketCreate("Crash", "On start", 2, 1, 1, 1, 1);
    assert TicketRouter.ValidateCreate(t) == [];
    var ticket := TicketRouter.Create(db, t, 7);
    assert ticket.Success? && ticket.value.id == 1;
    var c := CommentRouter.CommentCreate("Seen it", 2, 1);
    assert CommentRouter.ValidateCreate(c) == [];
    var comment := CommentRouter.Create(db, c, 8);
    assert comment.Success? && comment.value.id == 1;
  }

  /** Deleting the user takes its project, the project's ticket and the
      ticket's comment with it. */
  method UserCascade() {
    var db := SeedUserProject();
    AddTicketComment(db);
    var projects, tickets, comments := db.projects.rows, db.tickets.rows, db.comments.rows;
    var deleted := UserRouter.Delete(db, 1);
    assert deleted == Success(());
    assert ProjectRouter.Get(db.projects, 1).Failure?;
    assert TicketRouter.Get(db.tickets, 1).Failure?;
    assert CommentRouter.Get(db.comments, 1).Failure?;
  }
}
