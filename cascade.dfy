/** The delete cascades of the ORM relationships, as sets of row ids.
    `Ticket.comments` (models/_ticket.py) and `Project.tickets`
    (models/_project.py) are `cascade="all, delete-orphan"`, and a user owns
    the projects, tickets and comments it created. The cascade is followed
    transitively: the comments of a deleted ticket go with it, whichever way
    the ticket was reached. */
module Cascade {
  import opened Tables
  import opened Models

  /** The ids each table loses. */
  datatype Removal = Removal(projects: set<nat>, tickets: set<nat>, comments: set<nat>)

  function CommentsOnTickets(comments: map<nat, Comment>, tickets: set<nat>): set<nat> {
    set k | k in comments && comments[k].ticketId in tickets
  }

  function TicketsInProjects(tickets: map<nat, Ticket>, projects: set<nat>): set<nat> {
    set k | k in tickets && tickets[k].projectId in projects
  }

  /** Deleting ticket `id` deletes it and its comments. */
  function TicketRemoval(comments: map<nat, Comment>, id: nat): (rm: Removal)
    ensures rm.projects == {} && rm.tickets == {id}
    ensures forall k :: k in rm.comments <==> k in comments && comments[k].ticketId == id
  {
    Removal({}, {id}, CommentsOnTickets(comments, {id}))
  }

  /** Deleting project `id` deletes it, its tickets and their comments. */
  function ProjectRemoval(tickets: map<nat, Ticket>, comments: map<nat, Comment>, id: nat): (rm: Removal)
    ensures rm.projects == {id}
    ensures forall k :: k in rm.tickets <==> k in tickets && tickets[k].projectId == id
    ensures forall k :: k in rm.comments <==>
      k in comments && comments[k].ticketId in tickets && tickets[comments[k].ticketId].projectId == id
  {
    var ts := TicketsInProjects(tickets, {id});
    Removal({id}, ts, CommentsOnTickets(comments, ts))
  }

  /** Deleting user `id` deletes:
      - the projects it created: `Project.creator_id` is a foreign key to
        `users.id` with `ondelete="CASCADE"`, and `Project.creator` is the
        other side of a `User.projects` relationship
        (`back_populates="projects"`);
      - the tickets it created (`User.tickets` is `cascade="all,
        delete-orphan"`) and the tickets of those projects (`Project.tickets`);
      - the comments it wrote (`User.comments`) and the comments on those
        tickets (`Ticket.comments`). */
  function UserRemoval(projects: map<nat, Project>, tickets: map<nat, Ticket>, comments: map<nat, Comment>, id: nat): (rm: Removal)
    ensures forall k :: k in rm.projects <==> k in projects && projects[k].creatorId == id
    ensures forall k :: k in rm.tickets <==>
      k in tickets && (tickets[k].creatorId == id || tickets[k].projectId in rm.projects)
    ensures forall k :: k in rm.comments <==>
      k in comments && (comments[k].creatorId == id || comments[k].ticketId in rm.tickets)
  {
    var ps := set k | k in projects && projects[k].creatorId == id;
    var ts := set k | k in tickets && (tickets[k].creatorId == id || tickets[k].projectId in ps);
    var cs := set k | k in comments && (comments[k].creatorId == id || comments[k].ticketId in ts);
    Removal(ps, ts, cs)
  }

  /** No comment is left pointing at a ticket that the removal deleted,
      and no ticket at a deleted project. */
  predicate NoOrphans(rm: Removal, tickets: map<nat, Ticket>, comments: map<nat, Comment>) {
    && (forall k :: k in tickets && k !in rm.tickets ==> tickets[k].projectId !in rm.projects)
    && (forall k :: k in comments && k !in rm.comments ==> comments[k].ticketId !in rm.tickets)
  }

  lemma TicketRemovalNoOrphans(tickets: map<nat, Ticket>, comments: map<nat, Comment>, id: nat)
    ensures NoOrphans(TicketRemoval(comments, id), tickets, comments)
  {
  }

  lemma ProjectRemovalNoOrphans(tickets: map<nat, Ticket>, comments: map<nat, Comment>, id: nat)
    ensures NoOrphans(ProjectRemoval(tickets, comments, id), tickets, comments)
  {
  }

  lemma UserRemovalNoOrphans(projects: map<nat, Project>, tickets: map<nat, Ticket>, comments: map<nat, Comment>, id: nat)
    ensures var rm := UserRemoval(projects, tickets, comments, id);
      && NoOrphans(rm, tickets, comments)
      && (forall k :: k in projects && k !in rm.projects ==> projects[k].creatorId != id)
      && (forall k :: k in tickets && k !in rm.tickets ==> tickets[k].creatorId != id)
      && (forall k :: k in comments && k !in rm.comments ==> comments[k].creatorId != id)
  {
  }
}
