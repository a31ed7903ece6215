/** The per-request database session (`request.state.db`): the seven tables
    it reads and writes, and how often it has been rolled back. */
module Sessions {
  import opened Tables
  import opened Models

  class Session {
    var categories: Table<Category>
    var levels: Table<Level>
    var statuses: Table<Status>
    var projects: Table<Project>
    var tickets: Table<Ticket>
    var comments: Table<Comment>
    var users: Table<User>
    var rollbacks: nat

    ghost predicate Valid()
      reads this
    {
      && categories.Valid() && levels.Valid() && statuses.Valid()
      && projects.Valid() && tickets.Valid() && comments.Valid() && users.Valid()
    }

    /** A session over an empty database. */
    constructor ()
      ensures Valid() && rollbacks == 0
      ensures categories == Empty() && levels == Empty() && statuses == Empty()
      ensures projects == Empty() && tickets == Empty() && comments == Empty() && users == Empty()
    {
      categories, levels, statuses := Empty(), Empty(), Empty();
      projects, tickets, comments, users := Empty(), Empty(), Empty(), Empty();
      rollbacks := 0;
    }

    /** `db.delete(row)` for every row of `ids`, then `db.commit()`; the
        router deletes that cascade touch several tables use these. */
    method DeleteUsers(ids: set<nat>)
      requires Valid()
      modifies this`users
      ensures Valid() && users == RemoveAll(old(users), ids)
    {
      users := RemoveAll(users, ids);
    }

    method DeleteProjects(ids: set<nat>)
      requires Valid()
      modifies this`projects
      ensures Valid() && projects == RemoveAll(old(projects), ids)
    {
      projects := RemoveAll(projects, ids);
    }

    method DeleteTickets(ids: set<nat>)
      requires Valid()
      modifies this`tickets
      ensures Valid() && tickets == RemoveAll(old(tickets), ids)
    {
      tickets := RemoveAll(tickets, ids);
    }

    method DeleteComments(ids: set<nat>)
      requires Valid()
      modifies this`comments
      ensures Valid() && comments == RemoveAll(old(comments), ids)
    {
      comments := RemoveAll(comments, ids);
    }

    /** `db.rollback()`. Every operation of the model is atomic, so there is
        no pending change to discard; the counter records that it happened. */
    method Rollback()
      modifies this`rollbacks
      ensures rollbacks == old(rollbacks) + 1
    {
      rollbacks := rollbacks + 1;
    }
  }
}
