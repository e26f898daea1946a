/** The ticket record that server.js keeps in its `tickets` array, persists as JSON and serves
    to the dashboard. Timestamps (`new Date().toISOString()`) are modelled as integers. */
module Tickets {
  import opened Wrappers

  /** One staff annotation: `{ id, text, author, timestamp }`. */
  datatype Note = Note(id: string, text: string, author: string, timestamp: int)

  /** One support request. `assignedTo` is `null` (None) or a string (Some). */
  datatype Ticket = Ticket(
    id: string,
    name: string,
    phone: string,
    email: string,
    deviceName: string,
    description: string,
    status: string,
    priority: string,
    assignedTo: Option<string>,
    notes: seq<Note>,
    createdAt: int,
    updatedAt: int)

  /** The values a PATCH accepts for `status` and for `priority`. */
  const Statuses: seq<string> := ["open", "in-progress", "resolved", "closed"]
  const Priorities: seq<string> := ["low", "medium", "high", "urgent"]

  predicate IsStatus(s: string) {
    s in Statuses
  }

  predicate IsPriority(p: string) {
    p in Priorities
  }

  /** No two tickets share an id. */
  predicate UniqueIds(ts: seq<Ticket>) {
    forall i, j :: 0 <= i < j < |ts| ==> ts[i].id != ts[j].id
  }

  /** Every ticket's status and priority are among the enumerated values. */
  predicate WithinEnums(ts: seq<Ticket>) {
    forall i :: 0 <= i < |ts| ==> IsStatus(ts[i].status) && IsPriority(ts[i].priority)
  }

  predicate HasId(ts: seq<Ticket>, id: string) {
    exists i :: 0 <= i < |ts| && ts[i].id == id
  }

  /** `tickets.findIndex(t => t.id === id)`: the first position holding `id`, or -1. */
  function FindIndex(ts: seq<Ticket>, id: string): (r: int)
    ensures -1 <= r < |ts|
    ensures r == -1 <==> !HasId(ts, id)
    ensures 0 <= r ==> ts[r].id == id && forall j :: 0 <= j < r ==> ts[j].id != id
  {
    if ts == [] then -1
    else if ts[0].id == id then 0
    else
      var j := FindIndex(ts[1..], id);
      assert forall k :: 1 <= k < |ts| ==> ts[k] == ts[1..][k - 1];
      if j == -1 then -1 else j + 1
  }

  /** With unique ids, the ticket found is the only one carrying that id. */
  lemma FindIndexUnique(ts: seq<Ticket>, id: string, k: nat)
    requires UniqueIds(ts) && k < |ts| && ts[k].id == id
    ensures FindIndex(ts, id) == k
  {
  }

  /** A one-ticket collection holds its ticket's id, at index 0. */
  lemma SingletonHasId(t: Ticket)
    ensures HasId([t], t.id) && FindIndex([t], t.id) == 0
  {
    assert [t][0].id == t.id;
  }
}
