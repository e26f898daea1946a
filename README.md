# Ticket management system: a verified model

This project models a small customer-support service for device repairs and proves
properties of the model. It has four parts.

- **The Express server (server.js).** It validates customer submissions and keeps the
  ticket collection in memory, persisted to a JSON file. Anyone may create and read
  tickets. Only an authenticated staff session may patch or delete them.
- **The staff dashboard (public/board-script.js).** It filters and sorts the collection,
  counts tickets by status and builds the PATCH bodies for updates and notes.
- **The customer form (public/submit-script.js).** It validates every required input
  before posting the raw values.
- **The Python report generator (ticket_processor.py).** It counts statuses, classifies
  device names, buckets e-mail domains and phone numbers, and picks the most frequent
  values for its summary.

Modules:

- **Text**: trimming, ASCII lower-casing and substring search. It also holds the e-mail
  pattern `^[^\s@]+@[^\s@]+\.[^\s@]+$`, written as a matcher and proved equivalent to
  the pattern, and the removal of non-digits.
- **Tickets**: the ticket and note records, the status and priority enumerations and the
  first-index search used by the `find`/`findIndex` handlers.
- **Validation**: `validateTicket` as a method that pushes messages rule by rule. It is
  proved against one specification: the exact list of violations, in rule order, which
  is empty exactly when the submission is acceptable.
- **Store**: the server's collection as a class (`TicketStore`) with the in-memory
  tickets and the file on disk. Its handlers are proved against the functions `NewTicket`,
  `ApplyPatch`, `Patched` and `Removed`. Preservation lemmas show that unique ids and
  enumerated status and priority values survive every handler.
- **Auth**: `requireAuth`, and the login, logout and status handlers over a `Session`
  class.
- **Api**: the gated PATCH and DELETE routes, plus a complete staff workflow. The
  workflow submits a ticket, reads it back, is refused while anonymous, logs in, raises
  the priority and restarts the server. It is proved to produce the replies 201, 200,
  401, 200, 200 and the expected ticket.
- **Board**: the dashboard's filter predicate and filter function, the newest-first
  ordering, the status counts and the PATCH bodies it sends, plus a `Dashboard` class
  holding `tickets` and `filteredTickets`.
- **Submit**: `validateField` and the loop of `handleFormSubmit`. A lemma relates what
  the form accepts to what the server accepts.
- **Tally**: Python's `Counter`, with its keys in first-seen order, and `max(d, key=d.get)`.
- **Processor**: the analyses of ticket_processor.py on tickets read as maps from field
  names to strings.

Inputs the model does not compute are parameters:

- the fresh ids from `uuidv4()`;
- the current time from `new Date()`;
- the outcome of `bcrypt.compareSync`, as the function `passwordMatches`;
- how `fs.writeFileSync` ends, as a `WriteOutcome`: written, failed before it truncated the file, or failed after;
- whether `req.session.destroy` succeeds, as `destroyOk`;
- what `fetch` returned to the dashboard, as an `Option`.

Four behaviours of the code a reader might not expect:

- A failed login leaves the session as it was.
- A PATCH that sets nothing neither refreshes `updatedAt` nor saves. It still answers 200 with the ticket.
- A logout whose session store reports an error answers 500 and keeps the session.
- The form checks the trimmed e-mail against the pattern, but the server checks the raw text. They disagree on white space that `trim()` removes and a browser's e-mail input keeps: a no-break space (U+00A0) before `a@b.co` passes the page's script check and is rejected by the server (`Submit.EmailWithNoBreakSpace`). A body posted without the page, such as ` a@b.co`, is rejected by the server as well (`Text.SampleEmailLeadingSpace`).

## Model

| member | source | states |
|---|---|---|
| Text.Trim | server.js:170-186 | the result is the input without leading and trailing white space: the drop lemmas show only white space is removed, and the result starts and ends with a visible character |
| Text.IsBlank | server.js:170 | `!x \|\| !x.trim()` for a present text: blank exactly when its trim is empty |
| Text.StartsWith | server.js:40 | `startsWith`: the prefix is an initial segment of the text |
| Text.Contains | public/board-script.js:125-129 | `includes` and Python's `in`: the text occurs at some offset |
| Text.IsEmail | server.js:180 | the pattern `^[^\s@]+@[^\s@]+\.[^\s@]+$`, also used by public/submit-script.js:37-38, as a matcher split at the first '@' |
| Text.TrimEmptyIff | server.js:170 | `s.trim()` is empty exactly when `s` is all white space (both directions) |
| Text.TrimIdempotent | public/board-script.js:389-390 | trimming twice equals trimming once, so the dashboard's trim and the server's trim of a note agree |
| Text.Lower | public/board-script.js:119-129 | the lower-cased text has the same length and is the ASCII lower-case of each character |
| Text.LowerIdempotent | public/board-script.js:119-129 | lower-casing an already lower-cased query changes nothing |
| Text.IsEmailIffPattern | server.js:180 | the matcher accepts a string exactly when it is some non-empty run without white space or '@', an '@', then a run with an inner '.', both without white space or '@' |
| Text.EmailIsTrimmed | server.js:180 | a string the pattern accepts has no white space, so it is its own trim |
| Text.SampleEmailAccepted | server.js:180 | `a@b.co` matches the pattern |
| Text.SampleEmailDanglingAt | server.js:180 | `bad@` does not match |
| Text.SampleEmailLeadingSpace | server.js:180 | ` a@b.co` does not match: the server tests the untrimmed text |
| Text.SampleEmailLeadingNoBreakSpace | server.js:180 | `a@b.co` after a no-break space does not match, because U+00A0 is in `\s` |
| Text.Digits | public/submit-script.js:44 | the result holds only digits and is no longer than the input; an all-digit input is returned unchanged |
| Text.DigitsAppend | public/submit-script.js:44 | the digits of a concatenation are the digits of each part, in order |
| Text.DigitsMultiplicity | ticket_processor.py:173 | every digit is kept as often as the input holds it, and no other character is kept |
| Text.DigitsLength | ticket_processor.py:173 | removing the non-digits leaves as many characters as the input has digits |
| Text.IndexOf | ticket_processor.py:166 | the first position of the character, or -1 exactly when it is absent |
| Tickets.FindIndex | server.js:213 | the first index whose ticket has the id, or -1 exactly when no ticket has it |
| Tickets.FindIndexUnique | server.js:288 | with unique ids, `findIndex` returns the only index holding the id |
| Validation.Violations | server.js:167-189 | the list of violations in rule order: name, phone, e-mail or e-mail format, and device; empty exactly when the submission is acceptable; never both e-mail messages |
| Validation.ValidateTicket | server.js:167-189 | the messages pushed one rule at a time equal the specified violation list |
| Validation.Missing | server.js:170-186 | a field is missing when it is absent or blank, the test each presence rule makes |
| Validation.EmailMalformed | server.js:178-182 | the format rule fails when the e-mail is present and not blank but does not match the pattern |
| Validation.Acceptable | server.js:167-189 | a submission is acceptable when no presence rule and not the format rule fails |
| Validation.PushViolations | server.js:168-188 | each rule's message is pushed exactly when that rule fails, in rule order |
| Validation.ReportsViolationsUnique | server.js:167-189 | any two lists that report the same submission's violations in rule order are equal |
| Validation.FailedMembers | server.js:170-186 | a rule is listed exactly when it is among those checked and it fails |
| Validation.FailedInRuleOrder | server.js:170-186 | the failed rules keep the order in which they are checked |
| Validation.CollectFailed | server.js:170-186 | the pushes agree with filtering the rule order by failure |
| Validation.AcceptableInspect | server.js:243 | a submission is acceptable exactly when it fails no rule |
| Validation.ListsEmpty | server.js:243 | no violation is reported exactly when no rule fails |
| Validation.RankedListsEqual | server.js:167-189 | two rule-ordered lists with the same members are equal |
| Validation.RankAndMessageInjective | server.js:171-185 | distinct rules have distinct positions and distinct messages |
| Validation.NotBlankWhenFirstVisible | server.js:170 | a text whose first character is visible is not blank |
| Validation.SampleAccepted | server.js:167-189 | a complete submission with `a@b.co` has no violations |
| Validation.SampleBadEmail | server.js:178-182 | the same submission with `bad@` fails only the format rule |
| Validation.SampleEmptyBody | server.js:170-186 | an empty body fails the four presence rules, in order, and not the format rule |
| Store.Restore | server.js:138-152 | a saved file restores its contents; a missing or unreadable file gives the empty collection |
| Store.NewTicket | server.js:252-265 | a new ticket has the given id, status `open`, priority `medium`, no assignee, no notes, and both timestamps equal to now |
| Store.NewTicketFields | server.js:254-258 | the text fields are the submitted ones trimmed: the required ones are non-empty and the description is trimmed or empty |
| Store.NewTicketEmailVerbatim | server.js:256 | the stored e-mail is exactly the submitted text, and it matches the pattern |
| Store.NoteAuthor | server.js:323 | `author` or `Staff`: a present, non-empty author is kept verbatim |
| Store.SetsStatus | server.js:301 | a status is set when it is present and one of the four enumerated statuses, none of which is empty |
| Store.SetsPriority | server.js:311 | a priority is set when it is present and one of the four enumerated priorities, none of which is empty |
| Store.AddsNote | server.js:316 | a note is added when it is present and not blank |
| Store.Updates | server.js:299-327 | `updated` becomes true when the status, the assignee, the priority or a note is set |
| Store.NewNote | server.js:320-325 | the note has the given id and time, the trimmed non-empty text and the author rule |
| Store.ApplyPatch | server.js:297-332 | only recognised fields change; status and priority change only to enumerated values; `assignedTo` is overwritten exactly when the key is present; notes grow by exactly one at the end exactly when the note is non-blank; `updatedAt` moves exactly when something was set, and otherwise the ticket is unchanged |
| Store.Patched | server.js:288-332 | the collection keeps its length; an unknown id changes nothing; only the first ticket with the id can change |
| Store.Removed | server.js:361 | `splice(k, 1)`: one shorter, with the tickets before `k` in place and the ones after it shifted down by one |
| Store.PatchedPreservesValid | server.js:286-347 | a PATCH keeps ids unique and status and priority values enumerated |
| Store.PatchedNotesOnlyGrow | server.js:316-327 | no ticket loses a note through a PATCH |
| Store.PatchWithoutUpdateIsIdentity | server.js:329-332 | a PATCH that sets nothing leaves the collection unchanged |
| Store.ApplyPatchIdempotent | server.js:297-332 | without a note, applying the same PATCH twice at the same time equals applying it once |
| Store.UnknownStatusIgnored | server.js:301 | `{ status: "bogus" }` changes nothing, not even `updatedAt` |
| Store.NullAssigneeClears | server.js:306-309 | `{ assignedTo: null }` clears the assignee and counts as an update |
| Store.NotesKeptInOrder | server.js:316-327 | two PATCHes with notes append both notes, oldest first, after the existing ones |
| Store.RemovedDropsOnlyTarget | server.js:361 | with unique ids, the deleted id is gone and every other ticket remains |
| Store.RemovedPreservesValid | server.js:361 | deleting keeps ids unique and values enumerated |
| Store.AppendPreservesValid | server.js:267 | appending a ticket with a fresh id and enumerated values keeps the collection valid |
| Store.TicketStore.constructor | server.js:164 | start-up loads whatever the file restores to |
| Store.TicketStore.LoadTickets | server.js:138-152 | the collection becomes what the file restores to, and the file is unchanged |
| Store.AfterWrite | server.js:154-161 | the file after a save: a completed write restores to the collection, a write that could not open the file leaves it as it was, and one that failed after the `'w'` flag truncated the file restores to no tickets |
| Store.TicketStore.SaveTickets | server.js:154-161 | the collection is unchanged and the file becomes `AfterWrite` of the outcome: restored as the collection when written, as it was when the open failed, and as no tickets when the write failed after truncating |
| Store.TicketStore.ListTickets | server.js:194-208 | every ticket is returned, with the count |
| Store.TicketStore.GetTicket | server.js:211-233 | 404 exactly when no ticket has the id; otherwise the first ticket with it |
| Store.TicketStore.CreateTicket | server.js:236-283 | rejected exactly when the submission is not acceptable, with the violation list and nothing changed; otherwise exactly one `NewTicket` is appended and saved, the file becoming `AfterWrite` of the outcome |
| Store.TicketStore.PatchTicket | server.js:286-347 | 404 exactly when the id is unknown; otherwise the collection becomes `Patched` and the reply is the patched ticket; the file is saved, becoming `AfterWrite` of the outcome, only when something was set; validity is preserved |
| Store.TicketStore.DeleteTicket | server.js:350-377 | 404 with nothing changed exactly when the id is unknown; otherwise the first matching ticket is returned, the collection becomes `Removed` and is saved, the file becoming `AfterWrite` of the outcome |
| Auth.RequireAuth | server.js:36-49 | the handler runs exactly when the session is authenticated; otherwise `/api/` paths get 401 and every other path a redirect to `/login` |
| Auth.TicketPath | server.js:286 | the path `/api/tickets/:id` of the PATCH and DELETE routes for an id |
| Auth.TicketMutationsGated | server.js:286 | an anonymous PATCH or DELETE on any ticket path is refused with 401 |
| Auth.StaffPagesRedirect | server.js:36-49 | every anonymous request for a path outside `/api/` is redirected to `/login`, including the staff pages `/board` and `/ticket/:id` of server.js:402-408 |
| Auth.Session.constructor | server.js:25-33 | a new session is anonymous |
| Auth.Session.Login | server.js:52-88 | 400 exactly when a credential is missing or empty; a login succeeds exactly for the staff username with a password that verifies, and binds that username; any failure leaves the session unchanged |
| Auth.Session.Logout | server.js:90-103 | 200 exactly when the session is destroyed, which makes the client anonymous; otherwise 500 and the session remains |
| Auth.Session.Status | server.js:105-111 | the authentication flag, and the username only when authenticated |
| Api.HandlePatch | server.js:286-347 | an anonymous request gets 401 with the collection and file unchanged; an authenticated one gets the handler's reply and effect |
| Api.HandleDelete | server.js:350-377 | an anonymous request gets 401 with nothing changed; an authenticated one gets the delete handler's reply and effect |
| Api.RaiseToUrgentEffect | server.js:311-314 | `{ priority: "urgent" }` changes only the priority and `updatedAt` |
| Api.PatchedSingleton | server.js:288-302 | in a one-ticket collection, a PATCH on that ticket's id patches it |
| Api.Intake | server.js:236-283 | on a fresh server, an acceptable submission is created (201) and read back by id (200), and the file holds it |
| Api.Triage | server.js:52-88 | an anonymous priority raise is refused (401); after the staff login the same request succeeds and the file holds the raised ticket |
| Api.StaffWorkflow | server.js:236-347 | the workflow's replies are 201, 200, 401, 200, 200; the final ticket is the submitted one with only its priority and `updatedAt` changed; a restarted server reloads exactly that ticket |
| Api.Restart | server.js:138-161 | after a successful save, a server started on the file holds the same collection |
| Api.RestartAfterFailedSave | server.js:138-161 | after a save that fails once `writeFileSync` has truncated the file, a server started on it holds no tickets, whatever the collection was |
| Board.FilterTickets | public/board-script.js:121-132 | a ticket is shown exactly when it is in the collection and matches the status, priority and search filters |
| Board.Matches | public/board-script.js:121-131 | a ticket matches when an empty or equal status, an empty or equal priority and the search all match |
| Board.MatchesSearch | public/board-script.js:123-128 | an empty query matches; otherwise the lower-cased query occurs in the lower-cased name, e-mail, device, description or id |
| Board.FilterMultiplicity | public/board-script.js:121-132 | a matching ticket is shown as many times as it occurs in the collection, and a non-matching one never |
| Board.FilterIsSubsequence | public/board-script.js:121 | filtering keeps the collection's order |
| Board.NoFiltersShowAll | public/board-script.js:122-124 | with every filter empty, the whole collection is shown |
| Board.SearchIgnoresCase | public/board-script.js:119 | a search and its lower-cased form match the same tickets |
| Board.SearchFindsName | public/board-script.js:125 | a query occurring in the lower-cased name, itself lower-cased, finds the ticket |
| Board.Insert | public/board-script.js:152-154 | inserting into a newest-first list keeps it newest-first and adds exactly the new ticket |
| Board.PrependNewestFirst | public/board-script.js:152-154 | a ticket at least as new as the head of a newest-first list keeps it newest-first when put in front |
| Board.SortNewestFirst | public/board-script.js:152-154 | the sorted copy is newest-first and is a permutation of the filtered tickets |
| Board.CountStatus | public/board-script.js:447-449 | a status count never exceeds the number of tickets |
| Board.CountsWithinTotal | public/board-script.js:445-449 | the open, in-progress and resolved counts together never exceed the total |
| Board.CountMatchesFilter | public/board-script.js:447-449 | a status count equals the number of tickets the status filter shows |
| Board.ComputeStats | public/board-script.js:445-449 | the total is the collection's size, and each count is that status's count |
| Board.UpdateBody | public/board-script.js:351-360 | the selects are sent as they are; `assignedTo` is sent exactly when the input exists, as `null` exactly when it is blank, otherwise trimmed and non-empty |
| Board.UpdateAlwaysTouches | public/board-script.js:351-360 | applied on the server, a dashboard update always refreshes `updatedAt`, stores a trimmed assignee or none, and adds no note |
| Board.NoteBody | public/board-script.js:385-395 | no request exactly when the note is blank; otherwise the trimmed note with the trimmed author or `Staff` |
| Board.NoteBodyAppends | public/board-script.js:385-395 | applied on the server, a note body appends exactly one note with the trimmed text and the chosen author |
| Board.Dashboard.constructor | public/board-script.js:2-8 | a new dashboard shows nothing |
| Board.Dashboard.ApplyFilters | public/board-script.js:116-135 | `filteredTickets` becomes the filter of `tickets`, which is unchanged |
| Board.Dashboard.LoadTickets | public/board-script.js:90-114 | a successful reply replaces the tickets, refilters them and recomputes the stats; a failed one changes nothing |
| Board.Dashboard.DisplayOrder | public/board-script.js:151-156 | the shown cards are newest-first and a permutation of `filteredTickets` |
| Submit.ValidateField | public/submit-script.js:25-55 | valid exactly when the field is acceptable rule by rule, and then there is no message; a blank required field gets the required message; the e-mail and phone messages belong to those input types |
| Submit.PhoneCharsOnly | public/submit-script.js:43 | `/^[\d\s\-\+\(\)\.]+$/`: a non-empty text of digits, white space and `-+().` |
| Submit.PhoneAcceptable | public/submit-script.js:43-44 | the phone pattern holds and at least ten digits remain after removing the non-digits |
| Submit.FormInputs | public/submit-script.js:92 | the required inputs the loop validates |
| Submit.FormSubmission | public/submit-script.js:109-116 | the posted body holds the raw form values under their keys |
| Submit.HandleFormSubmit | public/submit-script.js:87-104 | every input is validated, none skipped after a failure, and the form is valid exactly when all inputs are acceptable |
| Submit.ClientAcceptedIsServerAccepted | public/submit-script.js:87-117 | a form the page accepts, with an e-mail that has no surrounding white space, passes the server's validation when its raw values are posted |
| Submit.EmailWithNoBreakSpace | public/submit-script.js:26-41 | `a@b.co` after a no-break space passes the page's e-mail check, which trims it away, but draws `InvalidEmail` from the server, which tests it untrimmed |
| Tally.Lookup | ticket_processor.py:80-81 | a positive count belongs to a key that is present |
| Tally.Bump | ticket_processor.py:81 | keys keep their places, counts never fall, and a new key goes at the end with count one |
| Tally.BumpCounts | ticket_processor.py:81 | seeing a key once more adds one to its count and to the total, and to nothing else |
| Tally.BumpKeepsShape | ticket_processor.py:81 | keys stay distinct and counts positive |
| Tally.Count | ticket_processor.py:81 | each key's count is its number of occurrences, the counts add up to the length, keys are distinct and counts positive |
| Tally.FirstIndex | ticket_processor.py:81 | the position where a key first occurs: it holds the key and no earlier position does |
| Tally.FirstIndexAppend | ticket_processor.py:81 | appending an element does not move the first occurrence of a key already present |
| Tally.CountKeys | ticket_processor.py:81 | the counter's keys are exactly the elements seen |
| Tally.CountFirstSeen | ticket_processor.py:81 | the counter lists its keys in the order each is first seen, the order in which the dictionary iterates |
| Tally.MaxCount | ticket_processor.py:195 | the largest count is at least every count and is attained |
| Tally.ArgMax | ticket_processor.py:195 | the first position with the largest count |
| Tally.ArgMaxIsMaximal | ticket_processor.py:195 | with distinct keys, no key's count exceeds that of the picked key |
| Processor.TruthyValues | ticket_processor.py:92 | the present, non-empty values of the field, at most one per ticket |
| Processor.TruthyValuesCount | ticket_processor.py:159-160 | there are exactly as many values as tickets whose field is present and non-empty |
| Processor.TruthyValuesMembers | ticket_processor.py:159-160 | a string is among the values exactly when some ticket holds it, non-empty, in that field |
| Processor.Truthy | ticket_processor.py:92 | `ticket.get(key)` is truthy: present and non-empty |
| Processor.TruthyValuesMultiplicity | ticket_processor.py:159-160 | each value occurs once per ticket whose field holds it, non-empty |
| Processor.StatusesOf | ticket_processor.py:80 | one status per ticket, `unknown` when it has none |
| Processor.StatusOf | ticket_processor.py:80 | `ticket.get('status', 'unknown')` |
| Processor.StatusCounts | ticket_processor.py:78-88 | each status is counted by its occurrences, and the counts add up to the number of tickets |
| Processor.MissingStatusIsUnknown | ticket_processor.py:80 | a ticket without a status is counted under `unknown` |
| Processor.Classify | ticket_processor.py:98-119 | the first term list that matches decides the type; a brand is only recorded with a type; an Android device is Samsung exactly when the name contains `samsung`; a laptop's brand is the first of Dell, HP, Lenovo and Apple whose term (`dell`, `hp`, `lenovo`, `macbook`) the name contains, and none when it contains none; desktops get no brand |
| Processor.ContainsAny | ticket_processor.py:100-117 | `any(term in device for term in terms)`: some term occurs in the name |
| Processor.HpDesktopIsLaptop | ticket_processor.py:107-112 | `hp desktop` is classified as an HP laptop, because the laptop test comes first |
| Processor.LowerAll | ticket_processor.py:92 | one lower-cased entry per name |
| Processor.DevicesOf | ticket_processor.py:92 | the lower-cased non-empty device names, in ticket order |
| Processor.TypesOf | ticket_processor.py:98-119 | at most one device type per device |
| Processor.BrandsOf | ticket_processor.py:98-119 | never more brands than device types |
| Processor.TypesMultiplicity | ticket_processor.py:98-119 | each type occurs once per device classified as it |
| Processor.BrandsMultiplicity | ticket_processor.py:98-119 | each brand occurs once per device recorded with it |
| Processor.DeviceCounts | ticket_processor.py:122-123 | `Counter(device_types)[t]` and `Counter(brands)[b]` are the numbers of devices classified as `t` and recorded with `b` |
| Processor.Collected | ticket_processor.py:163-167 | what a loop that appends at most one value per element collects: never more values than elements |
| Processor.CollectedMultiplicity | ticket_processor.py:163-167 | such a loop collects each value once per element that yields it |
| Processor.AppendOptionCount | ticket_processor.py:167 | appending at most one value adds one occurrence of it and of no other |
| Processor.AnalyzeDevices | ticket_processor.py:90-125 | the total is the number of tickets with a non-empty device name; the type and brand counts are `Counter`s of the classification loop; each type's count is the number of devices classified as it and each brand's count the number of devices recorded with it; brands never outnumber types, and types never outnumber devices |
| Processor.SecondField | ticket_processor.py:166 | `email.split('@')[1]`: the text after the first '@' up to the next '@' or the end |
| Processor.Domain | ticket_processor.py:166 | the lower-cased domain of an e-mail with an '@' contains no '@' |
| Processor.DomainsOf | ticket_processor.py:163-167 | at most one domain per e-mail, none containing '@' |
| Processor.DomainsOfCount | ticket_processor.py:163-167 | exactly one domain is recorded per e-mail containing '@' |
| Processor.DomainsOfSound | ticket_processor.py:163-167 | every recorded domain is `email.split('@')[1].lower()` of some e-mail containing '@' |
| Processor.DomainsOfComplete | ticket_processor.py:163-167 | the domain of every e-mail containing '@' is recorded |
| Processor.DomainCountsPresent | ticket_processor.py:163-167 | a domain has a non-zero count exactly when some e-mail containing '@' has that domain |
| Processor.DomainCountPresent | ticket_processor.py:163-167 | the same for a single domain, given that the domain list is sound and complete |
| Processor.DomainOpt | ticket_processor.py:165-166 | a domain exactly when the e-mail contains '@' |
| Processor.DomainsOfCollected | ticket_processor.py:163-167 | the domain list is what the loop collects, one `DomainOpt` per e-mail |
| Processor.DomainPositionsHits | ticket_processor.py:163-167 | the e-mails with domain `d` are those for which `DomainOpt` yields `d` |
| Processor.DomainsOfMultiplicity | ticket_processor.py:163-167 | each domain is recorded once per e-mail containing '@' that has it |
| Processor.PatternOf | ticket_processor.py:173-179 | a 10-digit or 11-digit bucket exactly when the phone holds that many digits |
| Processor.PatternsOf | ticket_processor.py:170-179 | one bucket per phone |
| Processor.CollectDomains | ticket_processor.py:163-167 | the loop records one domain per e-mail containing '@', records the domain of each such e-mail, and records nothing that is not the domain of one |
| Processor.CollectPatterns | ticket_processor.py:170-179 | the loop collects exactly the specified buckets |
| Processor.AnalyzeContactInfo | ticket_processor.py:157-186 | the e-mail and phone totals count the tickets with those fields non-empty; the domain counts add up to the number of e-mails containing '@', which is at most the e-mail total; a domain is counted exactly when some such e-mail has it, and its count is the number of such e-mails; the phone buckets add up to exactly the phone total |
| Processor.Pick | ticket_processor.py:194-195 | present exactly when the counts are non-empty, and then the first key with the largest count |
| Processor.GenerateSummary | ticket_processor.py:188-212 | each pick is present exactly when its counts are non-empty, and is then the first key with the largest count |
| Processor.SummaryStatusIsMostFrequent | ticket_processor.py:192-196 | on real tickets the summary's status is counted at least as often as any other status |

## Left out

- Store.NewTicket: one time parameter stands for the two `new Date()` reads of server.js:263-264, so `createdAt == updatedAt` holds by construction; the milliseconds that may pass between the two reads are not modelled.
- Store.ApplyPatch: one time parameter stands for the `new Date()` reads of server.js:324 and :330, so a new note's timestamp equals the ticket's new `updatedAt`; the time that may pass between the two reads is not modelled.
- File I/O, JSON parsing, the session store, bcrypt, `uuidv4()`, `new Date()`, `fetch` and the DOM are left out. Their outcomes are parameters.
- Store.TicketStore.CreateTicket: requires the new id to be unused. `uuidv4()` collisions are not modelled.
- The `try`/`catch` 500 replies of the ticket and login handlers are left out. The modelled code paths cannot throw.
- A loaded ticket without a `notes` array (server.js:317-319) is left out. The `Ticket` record always has notes.
- Non-string JSON values are left out: numbers, booleans, nested objects, and `null` for fields other than `assignedTo`. Fields are strings or absent. The processor's tickets are maps to strings.
- Text.Lower: models only ASCII case mapping. JavaScript's `toLowerCase` and Python's `lower` also map non-ASCII letters.
- Text.Digits: keeps only the ASCII digits. Python's `\d` also matches other Unicode decimal digits.
- Submit.FormInputs: which inputs are required, their order and their types (`email`, `tel`) come from the page's markup, which is not part of this model. The script names only the selector `input[required], textarea[required]` and the `FormData` keys.
- The browser's handling of e-mail inputs is not modelled: a browser strips ASCII white space (such as a leading space) from an e-mail input's value before the script reads it, and without `novalidate` its own `type=email` validation may refuse a value before the submit handler runs. Submit.ValidateField sees the value as the script reads it.
- Board.SortNewestFirst: the timestamps are integers. Parsing ISO dates and the stability of `Array.prototype.sort` are not modelled, so only newest-first order and permutation are proved.
- Static file serving, the page routes `/`, `/submit` and `/login`, `/api/health` and rate or session-cookie settings are left out. They hold no logic beyond serving a file.
- Rendering, messages, timers, the loading indicator and the view toggle of the dashboard are left out.
- Processor.AnalyzeDevices: `most_common_devices` is left out. Its tie order under `most_common` is an implementation detail of `Counter`.
- Processor.AnalyzeContactInfo: counts every domain. The source keeps only the ten most common, and that truncation and its tie order are not modelled.
- The percentages of `_analyze_status_distribution` are left out, because floating-point rounding is not modelled.
- `_analyze_time_patterns` is left out, because it needs date parsing. Its busiest-hours counter is a parameter of Processor.GenerateSummary.
- Processor.GenerateSummary: returns the peak hour as a number, without the `":00"` formatting.
- `fetch_tickets`, report writing and the command-line entry point of ticket_processor.py are left out. They are I/O.
- script.js, login-script.js and check-files.js are not part of this model.
