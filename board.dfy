/** The staff dashboard of public/board-script.js: the filter predicate of `applyFilters`,
    the newest-first ordering of `renderTickets`, the counters of `updateStats`, and the PATCH
    bodies `updateTicket` and `addNote` send. DOM reads are parameters; rendering is left out. */
module Board {
  import opened Wrappers
  import opened Text
  import opened Tickets
  import opened Store

  /** The three filter controls: a status and a priority select (empty means "all") and the
      raw search text. */
  datatype Filters = Filters(status: string, priority: string, search: string)

  /** The filters that show every ticket. */
  const NoFilters: Filters := Filters("", "", "")

  /** `!searchFilter || <one of five fields, lowercased, includes it>`, for an already
      lowercased query `q`. */
  predicate MatchesSearch(t: Ticket, q: string) {
    || q == []
    || Contains(Lower(t.name), q)
    || Contains(Lower(t.email), q)
    || Contains(Lower(t.deviceName), q)
    || Contains(Lower(t.description), q)
    || Contains(Lower(t.id), q)
  }

  /** The `filter` callback of `applyFilters`. */
  predicate Matches(t: Ticket, f: Filters) {
    && (f.status == [] || t.status == f.status)
    && (f.priority == [] || t.priority == f.priority)
    && MatchesSearch(t, Lower(f.search))
  }

  /** `tickets.filter(...)`: the matching tickets in their original order. */
  function FilterTickets(ts: seq<Ticket>, f: Filters): (r: seq<Ticket>)
    ensures |r| <= |ts|
    ensures forall t :: t in r <==> t in ts && Matches(t, f)
  {
    if ts == [] then []
    else
      var rest := FilterTickets(ts[1..], f);
      assert forall t :: t in ts <==> t == ts[0] || t in ts[1..];
      if Matches(ts[0], f) then [ts[0]] + rest else rest
  }

  /** Each matching ticket is shown as often as it occurs in the collection, and no other one is. */
  lemma {:induction false} FilterMultiplicity(ts: seq<Ticket>, f: Filters)
    ensures forall t :: multiset(FilterTickets(ts, f))[t] == if Matches(t, f) then multiset(ts)[t] else 0
    decreases |ts|
  {
    if ts != [] {
      FilterMultiplicity(ts[1..], f);
      assert ts == [ts[0]] + ts[1..];
      assert multiset(ts) == multiset{ts[0]} + multiset(ts[1..]);
    }
  }

  /** `a` is `b` with some elements dropped, the rest kept in order. */
  ghost predicate SubsequenceOf<T>(a: seq<T>, b: seq<T>)
    decreases |b|
  {
    || a == []
    || (b != [] && ((a[0] == b[0] && SubsequenceOf(a[1..], b[1..])) || SubsequenceOf(a, b[1..])))
  }

  /** The filtered list keeps the original order: it is a subsequence of `tickets`. */
  lemma {:induction false} FilterIsSubsequence(ts: seq<Ticket>, f: Filters)
    ensures SubsequenceOf(FilterTickets(ts, f), ts)
    decreases |ts|
  {
    if ts != [] {
      FilterIsSubsequence(ts[1..], f);
      if Matches(ts[0], f) {
        assert FilterTickets(ts, f)[1..] == FilterTickets(ts[1..], f);
      }
    }
  }

  /** With both selects on "all" and an empty search every ticket is shown, in order. */
  lemma {:induction false} NoFiltersShowAll(ts: seq<Ticket>)
    ensures FilterTickets(ts, NoFilters) == ts
    decreases |ts|
  {
    if ts != [] {
      NoFiltersShowAll(ts[1..]);
      assert Lower(NoFilters.search) == [];
      assert ts == [ts[0]] + ts[1..];
    }
  }

  /** The query is lowercased before matching, so its case never matters. */
  lemma SearchIgnoresCase(t: Ticket, f: Filters)
    ensures Matches(t, f) <==> Matches(t, f.(search := Lower(f.search)))
  {
    LowerIdempotent(f.search);
  }

  /** A query that occurs in the customer's name, ignoring case, finds the ticket. */
  lemma SearchFindsName(t: Ticket, q: string)
    requires Contains(Lower(t.name), Lower(q))
    ensures Matches(t, Filters("", "", q))
  {
    assert MatchesSearch(t, Lower(q));
  }

  /** Ordered newest first by creation time. */
  predicate NewestFirst(ts: seq<Ticket>) {
    forall i, j :: 0 <= i < j < |ts| ==> ts[i].createdAt >= ts[j].createdAt
  }

  /** Places `t` before the first ticket not newer than it. */
  function Insert(t: Ticket, ts: seq<Ticket>): (r: seq<Ticket>)
    requires NewestFirst(ts)
    ensures NewestFirst(r)
    ensures multiset(r) == multiset(ts) + multiset{t}
    ensures |r| == |ts| + 1
    ensures r != [] && (r[0] == t || (ts != [] && r[0] == ts[0]))
  {
    if ts == [] || t.createdAt >= ts[0].createdAt then
      PrependNewestFirst(t, ts);
      [t] + ts
    else
      var rest := Insert(t, ts[1..]);
      assert ts == [ts[0]] + ts[1..];
      PrependNewestFirst(ts[0], rest);
      [ts[0]] + rest
  }

  /** A ticket at least as new as the head of a newest-first list can go in front of it. */
  lemma PrependNewestFirst(x: Ticket, ts: seq<Ticket>)
    requires NewestFirst(ts) && (ts == [] || x.createdAt >= ts[0].createdAt)
    ensures NewestFirst([x] + ts)
  {
    var r := [x] + ts;
    forall i, j | 0 <= i < j < |r| ensures r[i].createdAt >= r[j].createdAt {
      if i == 0 {
        assert r[j] == ts[j - 1];
        assert ts[0].createdAt >= ts[j - 1].createdAt;
      } else {
        assert r[i] == ts[i - 1] && r[j] == ts[j - 1];
      }
    }
  }

  /** `[...filteredTickets].sort((a, b) => b.createdAt - a.createdAt)`: a sorted copy. */
  function SortNewestFirst(ts: seq<Ticket>): (r: seq<Ticket>)
    ensures NewestFirst(r)
    ensures multiset(r) == multiset(ts)
    ensures |r| == |ts|
  {
    if ts == [] then []
    else
      assert ts == [ts[0]] + ts[1..];
      Insert(ts[0], SortNewestFirst(ts[1..]))
  }

  /** The four counters of `updateStats`. */
  datatype Stats = Stats(total: nat, open: nat, inProgress: nat, resolved: nat)

  /** `tickets.filter(t => t.status === s).length` */
  function CountStatus(ts: seq<Ticket>, s: string): (n: nat)
    ensures n <= |ts|
  {
    if ts == [] then 0 else (if ts[0].status == s then 1 else 0) + CountStatus(ts[1..], s)
  }

  /** The three exact statuses are disjoint, so their counts together fit in the total. */
  lemma {:induction false} CountsWithinTotal(ts: seq<Ticket>)
    ensures CountStatus(ts, "open") + CountStatus(ts, "in-progress") + CountStatus(ts, "resolved") <= |ts|
    decreases |ts|
  {
    if ts != [] {
      CountsWithinTotal(ts[1..]);
    }
  }

  /** A status counter is the number of tickets the board shows with that status selected and
      nothing else filtered. */
  lemma {:induction false} CountMatchesFilter(ts: seq<Ticket>, s: string)
    requires s != []
    ensures CountStatus(ts, s) == |FilterTickets(ts, Filters(s, "", ""))|
    decreases |ts|
  {
    if ts != [] {
      CountMatchesFilter(ts[1..], s);
      assert Lower("") == [];
    }
  }

  /** `updateStats()`: the total, and the counts of `open`, `in-progress` and `resolved`, which
      together never exceed the total. */
  function ComputeStats(ts: seq<Ticket>): (st: Stats)
    ensures st.total == |ts|
    ensures st.open + st.inProgress + st.resolved <= st.total
    ensures st.open == CountStatus(ts, "open") && st.inProgress == CountStatus(ts, "in-progress")
    ensures st.resolved == CountStatus(ts, "resolved")
  {
    CountsWithinTotal(ts);
    Stats(|ts|, CountStatus(ts, "open"), CountStatus(ts, "in-progress"), CountStatus(ts, "resolved"))
  }

  /** `updateTicket`: each control present in the modal contributes its field; the assignee is
      the trimmed input, or `null` when it trims to nothing. */
  function UpdateBody(statusSelect: Option<string>, prioritySelect: Option<string>,
                      assignedToInput: Option<string>): (b: PatchBody)
    ensures b.status == statusSelect && b.priority == prioritySelect
    ensures b.note == None && b.author == None
    ensures b.assignedTo.Sent? <==> assignedToInput.Some?
    ensures b.assignedTo.Sent? ==> (b.assignedTo.value == None <==> IsBlank(assignedToInput.value))
    ensures b.assignedTo.Sent? && b.assignedTo.value.Some? ==>
      b.assignedTo.value.value == Trim(assignedToInput.value) && b.assignedTo.value.value != []
      && IsTrimmed(b.assignedTo.value.value)
  {
    if assignedToInput.None? then PatchBody(statusSelect, Unsent, prioritySelect, None, None)
    else
      var input := assignedToInput.value;
      TrimIsTrimmed(input);
      var assignee := if IsBlank(input) then None else Some(Trim(input));
      PatchBody(statusSelect, Sent(assignee), prioritySelect, None, None)
  }

  /** With the assignee box present, every `updateTicket` counts as an update on the server:
      the update time moves even when no value changed, and the assignee becomes the trimmed
      input or `null`. */
  lemma UpdateAlwaysTouches(t: Ticket, s: Option<string>, p: Option<string>, a: string,
                            noteId: string, now: int)
    ensures var r := ApplyPatch(t, UpdateBody(s, p, Some(a)), noteId, now);
      && r.updatedAt == now
      && r.assignedTo == (if IsBlank(a) then None else Some(Trim(a)))
      && r.notes == t.notes
  {
    var b := UpdateBody(s, p, Some(a));
    assert Updates(b) && !AddsNote(b);
  }

  /** `addNote`: nothing is sent for a note that trims to nothing; otherwise the trimmed note
      and the trimmed author, or `Staff` when that is empty. */
  function NoteBody(noteInput: string, authorInput: string): (b: Option<PatchBody>)
    ensures b.None? <==> IsBlank(noteInput)
    ensures b.Some? ==> b.value.note == Some(Trim(noteInput)) && b.value.author.Some?
    ensures b.Some? ==> b.value.author.value == (if IsBlank(authorInput) then "Staff" else Trim(authorInput))
    ensures b.Some? ==> b.value.status == None && b.value.priority == None && b.value.assignedTo == Unsent
  {
    if IsBlank(noteInput) then None
    else
      var author := if IsBlank(authorInput) then "Staff" else Trim(authorInput);
      Some(PatchBody(None, Unsent, None, Some(Trim(noteInput)), Some(author)))
  }

  /** A note the dashboard sends is appended once by the server, with the text and author the
      dashboard computed: trimming again on the server changes nothing. */
  lemma NoteBodyAppends(t: Ticket, noteInput: string, authorInput: string, noteId: string, now: int)
    requires !IsBlank(noteInput)
    ensures var b := NoteBody(noteInput, authorInput).value;
      && AddsNote(b)
      && ApplyPatch(t, b, noteId, now).notes == t.notes + [Note(noteId, Trim(noteInput),
           if IsBlank(authorInput) then "Staff" else Trim(authorInput), now)]
  {
    var b := NoteBody(noteInput, authorInput).value;
    TrimIdempotent(noteInput);
    assert AddsNote(b);
    if !IsBlank(authorInput) {
      assert Trim(authorInput) != [];
    }
    PrefixAndLast(t.notes, ApplyPatch(t, b, noteId, now).notes);
  }

  /** The dashboard's state: the last loaded collection and the currently shown subset. */
  class Dashboard {
    var tickets: seq<Ticket>
    var filteredTickets: seq<Ticket>

    /** `filteredTickets` is the filtered view of `tickets` under `f`. */
    ghost predicate Shows(f: Filters)
      reads this
    {
      filteredTickets == FilterTickets(tickets, f)
    }

    constructor ()
      ensures tickets == [] && filteredTickets == []
      ensures forall f :: Shows(f)
    {
      tickets := [];
      filteredTickets := [];
    }

    /** `applyFilters()`: recompute the view from the collection and the controls. */
    method ApplyFilters(f: Filters)
      modifies this
      ensures tickets == old(tickets)
      ensures filteredTickets == FilterTickets(tickets, f)
      ensures Shows(f)
    {
      filteredTickets := FilterTickets(tickets, f);
    }

    /** `loadTickets()`: on a successful reply the collection is replaced, the view refiltered
        and the counters recomputed; on a failed one nothing changes. */
    method LoadTickets(reply: Option<seq<Ticket>>, f: Filters) returns (stats: Option<Stats>)
      modifies this
      ensures reply.Some? ==> tickets == reply.value && Shows(f) && stats == Some(ComputeStats(tickets))
      ensures reply.None? ==> tickets == old(tickets) && filteredTickets == old(filteredTickets)
      ensures reply.None? ==> stats == None
    {
      if reply.Some? {
        tickets := reply.value;
        ApplyFilters(f);
        stats := Some(ComputeStats(tickets));
      } else {
        stats := None;
      }
    }

    /** `renderTickets()` order: a newest-first copy of the view; the view itself is left as
        it is. */
    method DisplayOrder() returns (shown: seq<Ticket>)
      ensures NewestFirst(shown) && multiset(shown) == multiset(filteredTickets)
    {
      shown := SortNewestFirst(filteredTickets);
    }
  }
}
