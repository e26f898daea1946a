/** The two ticket routes server.js mounts behind `requireAuth` (`PATCH` and `DELETE` on
    `/api/tickets/:id`), and the staff workflow they take part in: a customer submits, staff
    log in and triage, and the collection survives a restart of the server. */
module Api {
  import opened Wrappers
  import opened Text
  import opened Tickets
  import opened Validation
  import opened Store
  import opened Auth

  /** A gated route's answer: refused by `requireAuth`, or the handler's own reply. */
  datatype Guarded = Refused(gate: Gate) | Served(reply: TicketReply) {
    function Code(): int {
      match this
      case Refused(Unauthorized) => 401
      case Refused(_) => 302
      case Served(reply) => reply.Code()
    }
  }

  /** `app.patch('/api/tickets/:id', requireAuth, ...)`: an anonymous session is answered 401
      and neither the collection nor the file changes. */
  method HandlePatch(store: TicketStore, session: Session, id: string, body: PatchBody,
                     noteId: string, now: int, write: WriteOutcome) returns (g: Guarded)
    modifies store
    ensures !session.isAuthenticated ==> g == Refused(Unauthorized)
    ensures !session.isAuthenticated ==> store.tickets == old(store.tickets) && store.disk == old(store.disk)
    ensures session.isAuthenticated ==> g.Served?
    ensures session.isAuthenticated ==> store.tickets == Patched(old(store.tickets), id, body, noteId, now)
    ensures session.isAuthenticated ==>
      store.disk == if g.reply.Found? && Updates(body) then AfterWrite(write, old(store.disk), store.tickets) else old(store.disk)
    ensures g.Served? ==> (g.reply.NotFound? <==> !HasId(old(store.tickets), id))
    ensures g.Served? && g.reply.Found? ==>
      g.reply.ticket == ApplyPatch(old(store.tickets)[FindIndex(old(store.tickets), id)], body, noteId, now)
    ensures old(store.Valid()) ==> store.Valid()
  {
    var gate := RequireAuth(session.isAuthenticated, TicketPath(id));
    if gate != Proceed {
      TicketMutationsGated(id);
      g := Refused(gate);
      return;
    }
    var r := store.PatchTicket(id, body, noteId, now, write);
    g := Served(r);
  }

  /** `app.delete('/api/tickets/:id', requireAuth, ...)`: an anonymous session is answered
      401 and neither the collection nor the file changes. */
  method HandleDelete(store: TicketStore, session: Session, id: string, write: WriteOutcome)
    returns (g: Guarded)
    modifies store
    ensures !session.isAuthenticated ==> g == Refused(Unauthorized)
    ensures !session.isAuthenticated ==> store.tickets == old(store.tickets) && store.disk == old(store.disk)
    ensures session.isAuthenticated ==> g.Served?
    ensures g.Served? ==> (g.reply.NotFound? <==> !HasId(old(store.tickets), id))
    ensures g.Served? && g.reply.NotFound? ==> store.tickets == old(store.tickets) && store.disk == old(store.disk)
    ensures g.Served? && g.reply.Found? ==>
      store.tickets == Removed(old(store.tickets), FindIndex(old(store.tickets), id))
    ensures g.Served? && g.reply.Found? ==> store.disk == AfterWrite(write, old(store.disk), store.tickets)
    ensures old(store.Valid()) ==> store.Valid()
  {
    var gate := RequireAuth(session.isAuthenticated, TicketPath(id));
    if gate != Proceed {
      TicketMutationsGated(id);
      g := Refused(gate);
      return;
    }
    var r := store.DeleteTicket(id, write);
    g := Served(r);
  }

  /** The triage body `{ priority: "urgent" }`. */
  const RaiseToUrgent: PatchBody := PatchBody(None, Unsent, Some("urgent"), None, None)

  /** Raising the priority changes the priority and the update time and nothing else. */
  lemma RaiseToUrgentEffect(t: Ticket, noteId: string, now: int)
    ensures Updates(RaiseToUrgent) && !AddsNote(RaiseToUrgent)
    ensures ApplyPatch(t, RaiseToUrgent, noteId, now) == t.(priority := "urgent", updatedAt := now)
  {
    assert Priorities[3] == "urgent";
  }

  /** In a one-ticket collection, a patch on that ticket's id patches that ticket. */
  lemma PatchedSingleton(t: Ticket, body: PatchBody, noteId: string, now: int)
    ensures Patched([t], t.id, body, noteId, now) == [ApplyPatch(t, body, noteId, now)]
  {
    SingletonHasId(t);
  }

  /** A fresh server with no data file takes a customer's acceptable submission and serves it
      back by id. */
  method Intake(sub: Submission, id: string, t0: int)
    returns (store: TicketStore, created: CreateReply, fetched: TicketReply)
    requires Acceptable(sub)
    ensures fresh(store)
    ensures created == Created(NewTicket(sub, id, t0)) && fetched == Found(created.ticket)
    ensures store.tickets == [created.ticket] && store.disk == Saved(store.tickets)
  {
    store := new TicketStore(Absent);
    created := store.CreateTicket(sub, id, t0, Written);
    assert created.Created? && store.tickets == [created.ticket];
    SingletonHasId(created.ticket);
    fetched := store.GetTicket(id);
  }

  /** On a one-ticket server, an anonymous `PATCH` raising the priority is refused; after the
      staff login the same request succeeds, and the file holds the raised ticket. */
  method Triage(store: TicketStore, session: Session, noteId: string, t1: int,
                passwordMatches: string -> bool)
    returns (refused: Guarded, login: LoginReply, patched: Guarded)
    requires |store.tickets| == 1 && !session.isAuthenticated && passwordMatches("admin123")
    modifies store, session
    ensures refused == Refused(Unauthorized) && login == LoggedIn(AdminUsername)
    ensures patched == Served(Found(old(store.tickets[0]).(priority := "urgent", updatedAt := t1)))
    ensures store.tickets == [patched.reply.ticket] && store.disk == Saved(store.tickets)
  {
    var t := store.tickets[0];
    assert store.tickets == [t];
    SingletonHasId(t);
    refused := HandlePatch(store, session, t.id, RaiseToUrgent, noteId, t1, Written);
    login := session.Login(Some("admin"), Some("admin123"), passwordMatches);
    PatchedSingleton(t, RaiseToUrgent, noteId, t1);
    RaiseToUrgentEffect(t, noteId, t1);
    patched := HandlePatch(store, session, t.id, RaiseToUrgent, noteId, t1, Written);
  }

  /** The whole staff workflow on a fresh server: a customer submits an acceptable ticket and
      reads it back, an anonymous `PATCH` is refused, staff log in and raise the priority to
      `urgent`, and a restarted server loads the same collection. The replies are 201, 200,
      401, 200, 200; the ticket is the submitted one with only its priority and update time
      changed. */
  method StaffWorkflow(sub: Submission, id: string, noteId: string, t0: int, t1: int,
                       passwordMatches: string -> bool)
    returns (codes: seq<int>, ticket: Ticket, reloaded: seq<Ticket>)
    requires Acceptable(sub) && passwordMatches("admin123") && t0 < t1
    ensures codes == [201, 200, 401, 200, 200]
    ensures ticket == NewTicket(sub, id, t0).(priority := "urgent", updatedAt := t1)
    ensures ticket.status == "open" && ticket.createdAt < ticket.updatedAt
    ensures reloaded == [ticket]
  {
    var store, created, fetched := Intake(sub, id, t0);
    var session := new Session();
    var refused, login, patched := Triage(store, session, noteId, t1, passwordMatches);
    ticket := patched.reply.ticket;
    var restarted := new TicketStore(store.disk);
    codes := [created.Code(), fetched.Code(), refused.Code(), login.Code(), patched.Code()];
    reloaded := restarted.tickets;
  }

  /** After a successful save, a server started on that file holds the same collection. */
  method Restart(store: TicketStore) returns (restarted: TicketStore)
    modifies store
    ensures restarted.tickets == store.tickets && store.tickets == old(store.tickets)
  {
    store.SaveTickets(Written);
    restarted := new TicketStore(store.disk);
  }

  /** A save that fails after `writeFileSync` has truncated the file loses every ticket: a
      server started on that file holds none, whatever the collection was. */
  method RestartAfterFailedSave(store: TicketStore) returns (restarted: TicketStore)
    modifies store
    ensures store.tickets == old(store.tickets) && restarted.tickets == []
  {
    store.SaveTickets(FailedAfterTruncate);
    restarted := new TicketStore(store.disk);
  }
}
