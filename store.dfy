/** The server's ticket collection: the module-level `tickets` array of server.js, the handlers
    that create, read, patch and delete its entries, and its persistence to `tickets.json`.
    A fresh id (`uuidv4()`) and the current time (`new Date()`) are parameters, and so is how
    `fs.writeFileSync` ends, as a `WriteOutcome`. */
module Store {
  import opened Wrappers
  import opened Text
  import opened Tickets
  import opened Validation

  /** What `tickets.json` holds: nothing, something `JSON.parse` or the read rejects, or a
      saved collection. */
  datatype StoredFile = Absent | Unreadable | Saved(contents: seq<Ticket>)

  /** `loadTickets`: the collection a file restores to; a missing or unreadable file gives the
      empty collection. */
  /** How `fs.writeFileSync(DATA_FILE, text)` ends. It opens the file with flag 'w', which
      truncates it, and then writes: it can fail before the truncation (the file cannot be
      opened, and keeps what it held), succeed, or fail after it (a full disk, an I/O error),
      leaving an empty or partial text. Neither is a complete JSON array, so `JSON.parse`
      rejects it on the next load. */
  datatype WriteOutcome = Written | OpenFailed | FailedAfterTruncate

  /** The file after a save of `ts` that ended as `write`, when it held `before`. */
  function AfterWrite(write: WriteOutcome, before: StoredFile, ts: seq<Ticket>): (f: StoredFile)
    ensures write.Written? ==> Restore(f) == ts
    ensures write.OpenFailed? ==> f == before
    ensures write.FailedAfterTruncate? ==> Restore(f) == []
  {
    match write
    case Written => Saved(ts)
    case OpenFailed => before
    case FailedAfterTruncate => Unreadable
  }

  function Restore(file: StoredFile): (ts: seq<Ticket>)
    ensures file.Saved? ==> ts == file.contents
    ensures !file.Saved? ==> ts == []
  {
    match file
    case Saved(contents) => contents
    case _ => []
  }

  /** The ticket `POST /api/tickets` builds from an acceptable submission. */
  function NewTicket(sub: Submission, id: string, now: int): (t: Ticket)
    requires Acceptable(sub)
    ensures t.id == id
    ensures t.status == "open" && IsStatus(t.status)
    ensures t.priority == "medium" && IsPriority(t.priority)
    ensures t.assignedTo == None && t.notes == []
    ensures t.createdAt == now && t.updatedAt == now
  {
    Ticket(
      id,
      Trim(sub.name.value),
      Trim(sub.phone.value),
      Trim(sub.email.value),
      Trim(sub.deviceName.value),
      if sub.description.Some? then Trim(sub.description.value) else [],
      "open",
      "medium",
      None,
      [],
      now,
      now)
  }

  /** The text fields of a new ticket are the submitted ones trimmed: the required ones are
      non-empty, the description is trimmed or empty. */
  lemma NewTicketFields(sub: Submission, id: string, now: int)
    requires Acceptable(sub)
    ensures var t := NewTicket(sub, id, now);
      && t.name == Trim(sub.name.value) && t.name != [] && IsTrimmed(t.name)
      && t.phone == Trim(sub.phone.value) && t.phone != [] && IsTrimmed(t.phone)
      && t.deviceName == Trim(sub.deviceName.value) && t.deviceName != [] && IsTrimmed(t.deviceName)
      && t.description == (if sub.description.Some? then Trim(sub.description.value) else [])
      && IsTrimmed(t.description)
  {
    TrimIsTrimmed(sub.name.value);
    TrimIsTrimmed(sub.phone.value);
    TrimIsTrimmed(sub.deviceName.value);
    if sub.description.Some? {
      TrimIsTrimmed(sub.description.value);
    }
  }

  /** The stored e-mail is exactly the submitted text: one the pattern accepts has nothing
      to trim. */
  lemma NewTicketEmailVerbatim(sub: Submission, id: string, now: int)
    requires Acceptable(sub)
    ensures NewTicket(sub, id, now).email == sub.email.value
    ensures IsEmail(NewTicket(sub, id, now).email)
  {
    EmailIsTrimmed(sub.email.value);
  }

  /** The `assignedTo` key of a PATCH body: absent (`undefined`), or present with `null` or a
      string. */
  datatype Assignment = Unsent | Sent(value: Option<string>)

  /** The fields of a PATCH body the handler reads. */
  datatype PatchBody = PatchBody(
    status: Option<string>,
    assignedTo: Assignment,
    priority: Option<string>,
    note: Option<string>,
    author: Option<string>)

  /** `status && [...].includes(status)` */
  predicate SetsStatus(body: PatchBody) {
    body.status.Some? && IsStatus(body.status.value)
  }

  /** `priority && [...].includes(priority)` */
  predicate SetsPriority(body: PatchBody) {
    body.priority.Some? && IsPriority(body.priority.value)
  }

  /** `note && note.trim()` */
  predicate AddsNote(body: PatchBody) {
    body.note.Some? && !IsBlank(body.note.value)
  }

  /** Whether some branch of the handler sets `updated`. */
  predicate Updates(body: PatchBody) {
    SetsStatus(body) || body.assignedTo.Sent? || SetsPriority(body) || AddsNote(body)
  }

  /** `req.body.author || 'Staff'`: a present, non-empty author is kept verbatim. */
  function NoteAuthor(author: Option<string>): (a: string)
    ensures a != []
    ensures author.Some? && author.value != [] ==> a == author.value
    ensures author.None? || author.value == [] ==> a == "Staff"
  {
    if author.Some? && author.value != [] then author.value else "Staff"
  }

  /** The note a PATCH appends. */
  function NewNote(body: PatchBody, noteId: string, now: int): (n: Note)
    requires AddsNote(body)
    ensures n.id == noteId && n.timestamp == now
    ensures n.text != [] && IsTrimmed(n.text) && n.text == Trim(body.note.value)
    ensures n.author == NoteAuthor(body.author)
  {
    TrimIsTrimmed(body.note.value);
    Note(noteId, Trim(body.note.value), NoteAuthor(body.author), now)
  }

  /** The ticket after a PATCH: a permissive merge of the recognised fields. */
  function ApplyPatch(t: Ticket, body: PatchBody, noteId: string, now: int): (r: Ticket)
    // Fields no PATCH touches.
    ensures r.id == t.id && r.name == t.name && r.phone == t.phone && r.email == t.email
    ensures r.deviceName == t.deviceName && r.description == t.description
    ensures r.createdAt == t.createdAt
    // A status or priority changes only to an enumerated value taken from the body.
    ensures r.status == (if SetsStatus(body) then body.status.value else t.status)
    ensures r.priority == (if SetsPriority(body) then body.priority.value else t.priority)
    ensures IsStatus(t.status) ==> IsStatus(r.status)
    ensures IsPriority(t.priority) ==> IsPriority(r.priority)
    // `assignedTo` is overwritten verbatim exactly when the key is present.
    ensures r.assignedTo == (if body.assignedTo.Sent? then body.assignedTo.value else t.assignedTo)
    // Notes only grow, by at most one, at the end.
    ensures t.notes <= r.notes && |r.notes| <= |t.notes| + 1
    ensures |r.notes| == |t.notes| + 1 <==> AddsNote(body)
    ensures AddsNote(body) ==> r.notes[|t.notes|] == NewNote(body, noteId, now)
    // The timestamp moves exactly when something was set; otherwise nothing changes.
    ensures r.updatedAt == (if Updates(body) then now else t.updatedAt)
    ensures !Updates(body) ==> r == t
  {
    var withStatus := if SetsStatus(body) then t.(status := body.status.value) else t;
    var withAssignee :=
      if body.assignedTo.Sent? then withStatus.(assignedTo := body.assignedTo.value) else withStatus;
    var withPriority :=
      if SetsPriority(body) then withAssignee.(priority := body.priority.value) else withAssignee;
    var withNote :=
      if AddsNote(body) then withPriority.(notes := withPriority.notes + [NewNote(body, noteId, now)])
      else withPriority;
    if Updates(body) then withNote.(updatedAt := now) else withNote
  }

  /** The collection after `PATCH /api/tickets/:id`: the first ticket with that id is patched,
      and an unknown id changes nothing. */
  function Patched(ts: seq<Ticket>, id: string, body: PatchBody, noteId: string, now: int): (r: seq<Ticket>)
    ensures |r| == |ts|
    ensures !HasId(ts, id) ==> r == ts
    ensures forall j :: 0 <= j < |ts| && j != FindIndex(ts, id) ==> r[j] == ts[j]
  {
    var k := FindIndex(ts, id);
    if k == -1 then ts else ts[k := ApplyPatch(ts[k], body, noteId, now)]
  }

  /** `splice(k, 1)`: the collection without its `k`-th ticket. */
  function Removed(ts: seq<Ticket>, k: nat): (r: seq<Ticket>)
    requires k < |ts|
    ensures |r| == |ts| - 1
    ensures forall j :: 0 <= j < k ==> r[j] == ts[j]
    ensures forall j :: k <= j < |r| ==> r[j] == ts[j + 1]
  {
    ts[..k] + ts[k + 1..]
  }

  /** A PATCH keeps ids unique and statuses and priorities within their enums. */
  lemma PatchedPreservesValid(ts: seq<Ticket>, id: string, body: PatchBody, noteId: string, now: int)
    requires UniqueIds(ts) && WithinEnums(ts)
    ensures UniqueIds(Patched(ts, id, body, noteId, now)) && WithinEnums(Patched(ts, id, body, noteId, now))
  {
    var r := Patched(ts, id, body, noteId, now);
    forall j | 0 <= j < |r| ensures r[j].id == ts[j].id && IsStatus(r[j].status) && IsPriority(r[j].priority) {
    }
  }

  /** Only the patched ticket's notes change, and only by growing. */
  lemma PatchedNotesOnlyGrow(ts: seq<Ticket>, id: string, body: PatchBody, noteId: string, now: int)
    ensures var r := Patched(ts, id, body, noteId, now);
      forall j :: 0 <= j < |ts| ==> ts[j].notes <= r[j].notes
  {
    var r := Patched(ts, id, body, noteId, now);
    forall j | 0 <= j < |ts| ensures ts[j].notes <= r[j].notes {
      if j == FindIndex(ts, id) {
        assert r[j] == ApplyPatch(ts[j], body, noteId, now);
      }
    }
  }

  /** A PATCH that sets nothing leaves the collection as it was. */
  lemma PatchWithoutUpdateIsIdentity(ts: seq<Ticket>, id: string, body: PatchBody, noteId: string, now: int)
    requires !Updates(body)
    ensures Patched(ts, id, body, noteId, now) == ts
  {
    var k := FindIndex(ts, id);
    if k != -1 {
      assert ts[k := ts[k]] == ts;
    }
  }

  /** Without a note, sending the same PATCH twice at the same moment is sending it once. */
  lemma ApplyPatchIdempotent(t: Ticket, body: PatchBody, noteId: string, now: int)
    requires !AddsNote(body)
    ensures ApplyPatch(ApplyPatch(t, body, noteId, now), body, noteId, now) == ApplyPatch(t, body, noteId, now)
  {
  }

  /** A status outside the enumeration is ignored: `{ status: "bogus" }` changes nothing, not
      even the update time. */
  lemma UnknownStatusIgnored(t: Ticket, noteId: string, now: int)
    ensures ApplyPatch(t, PatchBody(Some("bogus"), Unsent, None, None, None), noteId, now) == t
  {
    assert !IsStatus("bogus") by {
      assert forall k :: 0 <= k < |Statuses| ==> Statuses[k][0] != 'b';
    }
  }

  /** `{ assignedTo: null }` clears the assignee and counts as an update. */
  lemma NullAssigneeClears(t: Ticket, noteId: string, now: int)
    ensures ApplyPatch(t, PatchBody(None, Sent(None), None, None, None), noteId, now)
      == t.(assignedTo := None, updatedAt := now)
  {
  }

  /** Two PATCHes with notes keep both notes, oldest first, after the notes already held. */
  lemma NotesKeptInOrder(t: Ticket, b1: PatchBody, n1: string, now1: int,
                         b2: PatchBody, n2: string, now2: int)
    requires AddsNote(b1) && AddsNote(b2)
    ensures ApplyPatch(ApplyPatch(t, b1, n1, now1), b2, n2, now2).notes
      == t.notes + [NewNote(b1, n1, now1), NewNote(b2, n2, now2)]
  {
    var r1 := ApplyPatch(t, b1, n1, now1);
    var r2 := ApplyPatch(r1, b2, n2, now2);
    PrefixAndLast(t.notes, r1.notes);
    PrefixAndLast(r1.notes, r2.notes);
  }

  /** A sequence one longer than a prefix of it is that prefix and its last element. */
  lemma PrefixAndLast<T>(a: seq<T>, b: seq<T>)
    requires a <= b && |b| == |a| + 1
    ensures b == a + [b[|a|]]
  {
    assert b == b[..|a|] + [b[|a|]];
  }

  /** The removed ticket's id is gone when ids are unique, and no others were lost. */
  lemma RemovedDropsOnlyTarget(ts: seq<Ticket>, k: nat)
    requires k < |ts| && UniqueIds(ts)
    ensures !HasId(Removed(ts, k), ts[k].id)
    ensures forall j :: 0 <= j < |ts| && j != k ==> ts[j] in Removed(ts, k)
  {
    var r := Removed(ts, k);
    forall j | 0 <= j < |r| ensures r[j].id != ts[k].id {
      if j >= k {
        assert r[j] == ts[j + 1];
      }
    }
    forall j | 0 <= j < |ts| && j != k ensures ts[j] in r {
      if j < k {
        assert r[j] == ts[j];
      } else {
        assert r[j - 1] == ts[j];
      }
    }
  }

  /** Removing a ticket keeps ids unique and statuses and priorities within their enums. */
  lemma RemovedPreservesValid(ts: seq<Ticket>, k: nat)
    requires k < |ts| && UniqueIds(ts) && WithinEnums(ts)
    ensures UniqueIds(Removed(ts, k)) && WithinEnums(Removed(ts, k))
  {
    var r := Removed(ts, k);
    assert forall j :: 0 <= j < |r| ==> r[j] == ts[if j < k then j else j + 1];
  }

  /** Appending a ticket with a fresh id and enumerated fields keeps the collection valid. */
  lemma AppendPreservesValid(ts: seq<Ticket>, t: Ticket)
    requires UniqueIds(ts) && WithinEnums(ts)
    requires !HasId(ts, t.id) && IsStatus(t.status) && IsPriority(t.priority)
    ensures UniqueIds(ts + [t]) && WithinEnums(ts + [t])
  {
    var r := ts + [t];
    forall i, j | 0 <= i < j < |r| ensures r[i].id != r[j].id {
      if j == |ts| {
        assert r[i] == ts[i];
      }
    }
  }

  /** `GET /api/tickets/:id` and `PATCH`/`DELETE` replies: the ticket (200) or 404. */
  datatype TicketReply = Found(ticket: Ticket) | NotFound {
    function Code(): int {
      if Found? then 200 else 404
    }
  }

  /** `POST /api/tickets` replies: the new ticket (201) or the validation errors (400). */
  datatype CreateReply = Created(ticket: Ticket) | Rejected(errors: seq<Violation>) {
    function Code(): int {
      if Created? then 201 else 400
    }
  }

  /** The server process: the in-memory collection and the file it persists to. */
  class TicketStore {
    var tickets: seq<Ticket>
    var disk: StoredFile

    /** Ids are unique and statuses and priorities are enumerated values. A loaded file may
        break this; every handler keeps it once it holds. */
    ghost predicate Valid()
      reads this
    {
      UniqueIds(tickets) && WithinEnums(tickets)
    }

    /** Server start-up: `loadTickets()` on the file found on disk. */
    constructor (file: StoredFile)
      ensures disk == file && tickets == Restore(file)
    {
      disk := file;
      tickets := Restore(file);
    }

    /** `loadTickets()`: replace the collection by the file's contents. */
    method LoadTickets()
      modifies this
      ensures disk == old(disk) && tickets == Restore(disk)
    {
      tickets := Restore(disk);
    }

    /** `saveTickets()`: write the collection. A failure is logged and not reported; one after
        the truncation leaves a file that loads as no tickets at all. */
    method SaveTickets(write: WriteOutcome)
      modifies this
      ensures tickets == old(tickets)
      ensures disk == AfterWrite(write, old(disk), tickets)
      ensures write.Written? ==> Restore(disk) == tickets
      ensures write.OpenFailed? ==> disk == old(disk)
      ensures write.FailedAfterTruncate? ==> Restore(disk) == []
    {
      match write
      case Written => disk := Saved(tickets);
      case OpenFailed =>
      case FailedAfterTruncate => disk := Unreadable;
    }

    /** `GET /api/tickets`: every ticket, and how many. */
    method ListTickets() returns (data: seq<Ticket>, count: nat)
      ensures data == tickets && count == |tickets|
    {
      data := tickets;
      count := |tickets|;
    }

    /** `GET /api/tickets/:id`: the first ticket with that id, or 404. */
    method GetTicket(id: string) returns (r: TicketReply)
      ensures r.NotFound? <==> !HasId(tickets, id)
      ensures r.Found? ==> r.ticket.id == id && r.ticket == tickets[FindIndex(tickets, id)]
    {
      var k := FindIndex(tickets, id);
      if k == -1 {
        r := NotFound;
      } else {
        r := Found(tickets[k]);
      }
    }

    /** `POST /api/tickets`: a rejected submission changes nothing; an accepted one appends
        exactly one new ticket and saves. */
    method CreateTicket(sub: Submission, id: string, now: int, write: WriteOutcome) returns (r: CreateReply)
      requires !HasId(tickets, id)
      modifies this
      ensures r.Rejected? <==> !Acceptable(sub)
      ensures r.Rejected? ==> r.errors == Violations(sub)
      ensures r.Rejected? ==> tickets == old(tickets) && disk == old(disk)
      ensures r.Created? ==> Acceptable(sub) && r.ticket == NewTicket(sub, id, now)
      ensures r.Created? ==> tickets == old(tickets) + [r.ticket]
      ensures r.Created? ==> disk == AfterWrite(write, old(disk), tickets)
      ensures old(Valid()) ==> Valid()
    {
      var errors := ValidateTicket(sub);
      if |errors| > 0 {
        r := Rejected(errors);
        return;
      }
      var t := NewTicket(sub, id, now);
      if Valid() {
        AppendPreservesValid(tickets, t);
      }
      tickets := tickets + [t];
      SaveTickets(write);
      r := Created(t);
    }

    /** `PATCH /api/tickets/:id`: merges the body into the first ticket with that id, field
        by field, and refreshes `updatedAt` and saves only when something was set. */
    method PatchTicket(id: string, body: PatchBody, noteId: string, now: int, write: WriteOutcome)
      returns (r: TicketReply)
      modifies this
      ensures r.NotFound? <==> !HasId(old(tickets), id)
      ensures tickets == Patched(old(tickets), id, body, noteId, now)
      ensures r.Found? ==> r.ticket == tickets[FindIndex(old(tickets), id)]
      ensures r.Found? ==> r.ticket == ApplyPatch(old(tickets)[FindIndex(old(tickets), id)], body, noteId, now)
      ensures disk == if r.Found? && Updates(body) then AfterWrite(write, old(disk), tickets) else old(disk)
      ensures old(Valid()) ==> Valid()
    {
      var k := FindIndex(tickets, id);
      if k == -1 {
        r := NotFound;
        return;
      }
      ghost var before := tickets;
      if Valid() {
        PatchedPreservesValid(tickets, id, body, noteId, now);
      }
      // The handler assigns the fields of the ticket object `tickets[k]`; `t` is that object.
      var t := tickets[k];
      var updated := false;
      if body.status.Some? && IsStatus(body.status.value) {
        t := t.(status := body.status.value);
        updated := true;
      }
      if body.assignedTo.Sent? {
        t := t.(assignedTo := body.assignedTo.value);
        updated := true;
      }
      if body.priority.Some? && IsPriority(body.priority.value) {
        t := t.(priority := body.priority.value);
        updated := true;
      }
      if body.note.Some? && !IsBlank(body.note.value) {
        t := t.(notes := t.notes + [Note(noteId, Trim(body.note.value), NoteAuthor(body.author), now)]);
        updated := true;
      }
      if updated {
        t := t.(updatedAt := now);
        tickets := tickets[k := t];
        SaveTickets(write);
      }
      assert t == ApplyPatch(before[k], body, noteId, now);
      r := Found(t);
    }

    /** `DELETE /api/tickets/:id`: splices out the first ticket with that id and returns it. */
    method DeleteTicket(id: string, write: WriteOutcome) returns (r: TicketReply)
      modifies this
      ensures r.NotFound? <==> !HasId(old(tickets), id)
      ensures r.NotFound? ==> tickets == old(tickets) && disk == old(disk)
      ensures r.Found? ==> r.ticket.id == id && r.ticket == old(tickets)[FindIndex(old(tickets), id)]
      ensures r.Found? ==> tickets == Removed(old(tickets), FindIndex(old(tickets), id))
      ensures r.Found? ==> disk == AfterWrite(write, old(disk), tickets)
      ensures old(Valid()) ==> Valid()
    {
      var k := FindIndex(tickets, id);
      if k == -1 {
        r := NotFound;
        return;
      }
      var deleted := tickets[k];
      if Valid() {
        RemovedPreservesValid(tickets, k);
      }
      tickets := tickets[..k] + tickets[k + 1..];
      SaveTickets(write);
      r := Found(deleted);
    }
  }
}
