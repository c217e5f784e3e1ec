# WhatsApp monitor: conversation reconciliation and lead statistics

A Dafny model of the core of a React console that monitors a company's
WhatsApp line. Messages live in a `messages` table and reach the console in two
ways: a history fetch at start-up and a realtime change feed of INSERT and
UPDATE events. `App.tsx` reconciles both into one list of conversations, one
per phone number, where the phone is compared by its digits only. The agent's
own sends are shown optimistically before the database has written them. Next
to the chat, a CRM board sorts contacts into qualification columns or segment
columns. A dashboard counts the funnel stages, the segments and the messages
per hour. Two list views filter conversations and contacts.

The modules follow the program:

- `Text`, `Wrappers`, `Sorting` and `Tally` hold the shared vocabulary:
  - `Text`: the digit projection `replace(/\D/g, '')`, lower-casing, `includes`, truthiness, and `||` over optional strings.
  - `Sorting`: `Array.prototype.sort`, modelled as a stable insertion sort over a comparator.
  - `Tally`: selections, filters, and the insertion-ordered count map.
- `Utils`: `formatPhone`.
- `Types`: the records of `types.ts`, plus the untyped database row.
- `Ordering`: `sortMessages` and the newest-first order of the list.
- `History`: `loadHistory`. Its loop is a method proved equal to a fold function (`Group`), and the grouping properties are proved about that fold.
- `Reconciler`: the INSERT, UPDATE and send handlers, as the pure functions they are in the source (each builds a new array).
- `Socket`: `services/socket.ts`. `RealtimeService` is a class whose methods update its fields. The database and the realtime library become parameters and a set of open channels.
- `CrmBoard`, `Dashboard`, `ConversationList`, `ContactList`: the four components.

The invariant that holds the reconciliation together is `Reconciler.UniqueKeys`:
no two conversations share the digits of their phone. History establishes it,
and every handler preserves it. It is also what makes a redelivered event
harmless.

## Model

| member | source | states |
|---|---|---|
| Utils.FormatPhone | utils.ts:4-30 | `formatPhone`; its layout, the digits it keeps and its idempotence are stated by `FormatPhoneShape`, `FormatPhoneKeepsDigits` and `FormatPhoneIdempotent` |
| Utils.FormatOptionalPhone | utils.ts:4-5 | a null or undefined phone formats to the empty string, any other phone as `formatPhone` does |
| Utils.FormatPhoneShape | utils.ts:4-30 | "" for an empty phone; the phone unchanged unless its digits are 55 plus 10 or 11 more; otherwise the `+55 (DD) NNNNN-NNNN` or `+55 (DD) NNNN-NNNN` layout, character by character |
| Utils.FormatPhoneKeepsDigits | utils.ts:8-29 | formatting keeps exactly the digits of the input |
| Utils.FormatPhoneIdempotent | utils.ts:4-30 | formatting an already formatted phone changes nothing |
| Types.RowName | App.tsx:95 | the name of a row is the first truthy of `contact_name`, `name`, `push_name`, `sender_name`, or none |
| Types.SenderOf | App.tsx:87 | only direction "outbound" is the agent |
| Ordering.IdLe | App.tsx:26-40 | the numeric-aware id order: digit runs compare by value, other characters by code unit; `TwoBeforeTen` and `MessageLeIsTotalPreorder` state it |
| Ordering.MessageLe | App.tsx:26-40 | the `sortMessages` comparator: instant first, then id; `MessageLeIsTotalPreorder` proves it total and transitive and `SortMessagesOrder` states what it means in a sorted thread |
| Ordering.MessageLeIsTotalPreorder | App.tsx:26-40 | the comparator of `sortMessages` (instant, then numeric-aware id) is total and transitive |
| Ordering.SortMessages | App.tsx:26-40 | the sorted thread is a permutation of the input and ordered by the comparator |
| Ordering.SortMessagesOrder | App.tsx:29-37 | in a sorted thread an earlier message has a smaller effective instant, or the same instant and an id that does not compare greater |
| Ordering.SortMessagesOfSorted | App.tsx:26-40 | re-sorting a sorted thread leaves it as it is (stable sort) |
| Ordering.LatestSortsLast | App.tsx:26-40 | a message later than every message of a thread is sorted to the end of it |
| Ordering.TwoBeforeTen | App.tsx:36-37 | with equal instants, id "2" sorts before id "10" |
| Ordering.EffectiveTime | App.tsx:29-30 | a message is ordered by its raw `createdAtRaw` instant when present, else by `timestamp` |
| Ordering.RecencyLe | App.tsx:138 | the newest-first comparator on `lastMessageTime`; `RecencyLeIsTotalPreorder` proves it total and transitive |
| Ordering.RecencyLeIsTotalPreorder | App.tsx:138 | the newest-first comparator is total and transitive, so the list sort is well defined |
| Ordering.SortByRecency | App.tsx:138 | the list is re-sorted into a permutation with `lastMessageTime` descending |
| Ordering.SortByRecencyUnique | App.tsx:138 | re-sorting keeps the digit phones distinct |
| History.MapHistoryRow | App.tsx:84-92 | a history row as a message: the row id or the fallback id, content defaulting to "", the sender from the direction; `RealtimeAgreesWithHistory` ties it to the feed mapping |
| History.RealtimeAgreesWithHistory | App.tsx:84-92 | a row with an id maps to the same message in history as in the feed; an id-less row gets the fallback id in history and "" in the feed |
| History.Rename | App.tsx:113-120 | a real row name replaces only a placeholder name, and nothing else changes |
| History.Step | App.tsx:79-131 | one iteration of the history loop on the map and its key order; `StepEffect` states its whole effect |
| History.Group | App.tsx:79-131 | the history loop as a fold over the rows; `GroupValid`, `GroupOrder` and `GroupMessages` state what it builds, and `GroupHistory` proves the loop equal to it |
| History.StepEffect | App.tsx:79-131 | one row skips when phoneless; otherwise its message is appended to its digit phone's conversation, created on first sight as active, unread 0, named by `dbName` or the formatted phone; the cache moves only to a strictly later timestamp; other conversations unchanged |
| History.GroupValid | App.tsx:79-131 | after the fold, every conversation is valid for its key and caches the first latest message of its thread |
| History.GroupOrder | App.tsx:77-111 | the map's key order lists every conversation key exactly once |
| History.GroupMessages | App.tsx:79-124 | each conversation holds exactly the messages of its phone's rows, in row order; no conversation exists for a phone no row carries |
| History.RowMessagesContains | App.tsx:79-124 | a row with a phone lands among the messages of its digit phone |
| History.RowMessagesCount | App.tsx:79-124 | a phone gets as many messages as it has rows |
| History.SortThread | App.tsx:134-136 | sorting a thread keeps everything but the thread order |
| History.Collect | App.tsx:134-138 | the value list holds, in key order, each grouped conversation with its thread sorted |
| History.LoadHistorySpec | App.tsx:72-147 | an empty history gives an empty list and keeps the active id; otherwise the list is a newest-first permutation of the grouped conversations, every thread sorted, and the active id is the first conversation's |
| History.LoadHistoryCount | App.tsx:79-131 | the loaded threads hold one message per row with a phone; exactly the phoneless rows are lost |
| History.LoadHistoryGrouping | App.tsx:79-138 | one conversation per digit phone, each holding exactly its rows' messages, and every phone row found in the conversation of its digits |
| History.LoadHistoryConversations | App.tsx:99-130 | every loaded conversation has an id equal to its own raw phone, unread 0, status active, tag "Histórico", and caches a message with the greatest timestamp of its thread |
| History.LoadedUnique | App.tsx:79-138 | the loaded list never holds two conversations with the same digit phone |
| History.LoadedHasRow | App.tsx:79-124 | every row with a phone has its message in some loaded conversation of its digit phone |
| History.NameNeverReverted | App.tsx:113-120 | once a conversation's name is no placeholder, no later row changes it |
| History.AddRow | App.tsx:80-130 | one iteration of the `forEach` as written does what one step of the fold does to the map and its key order |
| History.GroupHistory | App.tsx:77-131 | the imperative `forEach` builds the same map and key order as the fold |
| History.SortThreads | App.tsx:134-138 | the sorting loop yields the collected value list |
| History.LoadHistory | App.tsx:72-147 | `loadHistory` as written computes `LoadHistorySpec` |
| Reconciler.FindByKey | App.tsx:158-160 | `findIndex` returns the first conversation whose digit phone matches, or none when none matches |
| Reconciler.HandleInsert | App.tsx:154-214 | `handleNewMessage`; `InsertDuplicate`, `InsertExisting`, `InsertNew`, `InsertDelivers`, `InsertKeepsUniqueKeys`, `InsertIdempotent` and `InsertMessageCount` state its cases and invariants |
| Reconciler.AppendedShape | App.tsx:174-190 | a fresh message joins the thread as a permutation that stays sorted; the cache is the new message; unread resets for the active conversation and counts up otherwise; a name comes only over the placeholder; status becomes active |
| Reconciler.InsertDuplicate | App.tsx:167-170 | an id the phone's conversation already holds leaves the list unchanged |
| Reconciler.InsertExisting | App.tsx:163-192 | a fresh id for a known phone replaces that one conversation by the appended one and re-sorts newest first |
| Reconciler.InsertNew | App.tsx:194-212 | an unseen phone adds one conversation in front, id the raw phone, unread 1, holding only the message, named by the event or the formatted phone |
| Reconciler.InsertDelivers | App.tsx:154-214 | after an insert, the phone's conversation holds the message id |
| Reconciler.InsertKeepsUniqueKeys | App.tsx:154-214 | inserting keeps digit phones unique |
| Reconciler.InsertIdempotent | App.tsx:167-170 | applying the same insert twice is applying it once |
| Reconciler.InsertMessageCount | App.tsx:154-214 | one message more in total, unless the insert is a repeat |
| Reconciler.InsertCacheNotLatest | App.tsx:186-187 | a late delivery of an older message still becomes the cached last message |
| Reconciler.HandleUpdate | App.tsx:217-235 | `handleMessageUpdate`; `UpdateFrame`, `UpdateKeepsInvariants`, `UpdateMessageCount`, `UpdateUnknownId` and `UpdateIdempotent` state what it changes and keeps |
| Reconciler.ReplaceByIdShape | App.tsx:224-226 | replacement keeps the length and swaps in the update exactly where the id matches |
| Reconciler.ReplaceUnknownId | App.tsx:224-226 | replacing an id the thread does not hold leaves the thread unchanged |
| Reconciler.UpdateFrame | App.tsx:217-235 | an update keeps the list's length and order and every field but the messages; a matching thread keeps its length and is resorted |
| Reconciler.UpdateKeepsInvariants | App.tsx:217-235 | an update keeps digit phones unique and the list newest first |
| Reconciler.UpdateMessageCount | App.tsx:217-235 | updates never create or drop a message |
| Reconciler.UpdateUnknownId | App.tsx:224-226 | an id unknown to the phone's threads changes no thread's multiset, and nothing at all when the threads are sorted already |
| Reconciler.UpdateIdempotent | App.tsx:217-235 | receiving the same update twice is receiving it once |
| Reconciler.FindUnique | App.tsx:158-160 | with unique digit phones, searching a conversation's digits finds that very conversation |
| Reconciler.FindById | App.tsx:256 | `find` by id returns the first conversation with that id, or none when no conversation has it |
| Reconciler.OptimisticMessage | App.tsx:265-274 | the optimistic message: id `temp-<stamp>`, the text, the agent, the send instant, "sent", "text"; `SendEffect` states where it lands |
| Reconciler.HandleSend | App.tsx:254-296 | no active id or no conversation with it: nothing; an existing active conversation gives the configuration prompt exactly when unconfigured and otherwise a send to the phone of the first conversation with that id |
| Reconciler.SendEffect | App.tsx:278-290 | a send touches only the active conversation: one agent message joins its sorted thread, the cache becomes the text at the second clock reading, the rest stays |
| Reconciler.SendKeepsUniqueKeys | App.tsx:278-288 | a send changes no phone, so digit phones stay unique |
| Reconciler.SendMessageCount | App.tsx:278-290 | with unique ids, a send adds exactly one message in total |
| Reconciler.DeliverInsert | services/socket.ts:113-121 | an INSERT event reaching `handleNewMessage` through the listener; `PhonelessRowIgnored` and `DeliverInsertIdempotent` state it |
| Reconciler.DeliverUpdate | services/socket.ts:123-131 | an UPDATE event reaching `handleMessageUpdate` through the listener; `PhonelessRowIgnored` states it drops a missing or phoneless row |
| Reconciler.PhonelessRowIgnored | services/socket.ts:113-131 | a missing row or a row without a phone changes nothing |
| Reconciler.DeliverInsertIdempotent | services/socket.ts:113-121 | an INSERT row the feed delivers twice is applied once |
| Reconciler.HistoryRowRedelivered | App.tsx:167-170 | with string ids, a history row the feed delivers again under its id leaves the loaded list as it was |
| Socket.MapPayloadToMessage | services/socket.ts:144-158 | a null row maps to null; otherwise id and instant are copied, content defaults to "", status to "delivered", type to "text", and only "outbound" is the agent |
| Socket.Forward | services/socket.ts:113-131 | a listener forwards exactly the rows that map to a message and carry a truthy phone, with the row's name |
| Socket.OutboundRow | services/socket.ts:163-175 | the row `sendMessage` inserts: the text, the phone, direction "outbound", status "sent", type "text"; `OutboundRowEcho` states how it comes back |
| Socket.OutboundRowEcho | services/socket.ts:163-181 | the row an agent writes comes back through the feed as an agent message with that text, "sent", "text" |
| Socket.RealtimeService.constructor | services/socket.ts:7-10 | a new service has no client, no subscription, no open channel and is not connected |
| Socket.RealtimeService.Initialize | services/socket.ts:15-31 | empty credentials change nothing; otherwise an old client is disconnected first and the new one made; a throwing constructor keeps the old client and marks the service disconnected |
| Socket.RealtimeService.Connect | services/socket.ts:95-139 | without a client or when disconnected nothing happens; otherwise the old channel is removed and exactly one new channel is open |
| Socket.RealtimeService.Disconnect | services/socket.ts:183-187 | the subscription's channel is closed and no field changes |
| Socket.RealtimeService.SendMessage | services/socket.ts:163-181 | throws when unconfigured; otherwise inserts the outbound row and throws when the write fails |
| Socket.RealtimeService.FetchHistory | services/socket.ts:68-89 | the rows answered for the 500-row query, or [] when unconfigured, on error, on a throw or on null data |
| Socket.RealtimeService.FetchContactByPhone | services/socket.ts:36-63 | the contact found by the pattern `%<digits>%`, or null when unconfigured, not found, on any error or on a throw |
| Socket.UninitialisedService | services/socket.ts:36-89 | a service never initialised reads nothing and refuses to send |
| Socket.Lifecycle | services/socket.ts:15-187 | initialise then connect leaves one channel open, disconnect none, while the status still reads connected |
| CrmBoard.CleanData | components/CRMBoard.tsx:41-44 | none exactly for a falsy text, "EMPTY" or "NULL"; any other text is kept |
| CrmBoard.CleanDataIdempotent | components/CRMBoard.tsx:41-44 | cleaning twice is cleaning once |
| CrmBoard.UniqueSegments | components/CRMBoard.tsx:47-54 | the segments are duplicate-free, ascending, and exactly the cleaned segments of the contacts |
| CrmBoard.MatchesSearch | components/CRMBoard.tsx:57-80 | the board search: an empty term, the lower-cased name containing the lower-cased term, or the phone containing the term; `NoFilterPassesAll` covers the empty case |
| CrmBoard.FilterByDate | components/CRMBoard.tsx:57-67 | `filterByDate`; `FilterByDateInterval` states it is the closed range |
| CrmBoard.Passes | components/CRMBoard.tsx:57-80 | search and date filter together; `NoFilterPassesAll`, `ExactlyOneColumn` and `SegmentColumn` use it |
| CrmBoard.FilterByDateInterval | components/CRMBoard.tsx:57-67 | the date filter keeps exactly the instants inside the closed range; a missing bound is no bound |
| CrmBoard.NoFilterPassesAll | components/CRMBoard.tsx:79-80 | an empty search and no dates let every contact through |
| CrmBoard.Classify | components/CRMBoard.tsx:106-147 | the status columns by keyword, mql first; `ClassifyPriority`, `DesqualificadoIsMql` and `EmptyStatusIsNovo` state it |
| CrmBoard.ClassifyPriority | components/CRMBoard.tsx:108-147 | each column characterised: mql by its keywords; frio by its keywords without mql; triagem without either; novo otherwise |
| CrmBoard.DesqualificadoIsMql | components/CRMBoard.tsx:112-122 | a status containing "desqualificado" goes to mql, because "qualificado" is tested first |
| CrmBoard.EmptyStatusIsNovo | components/CRMBoard.tsx:106-147 | a missing or empty status goes to novo |
| CrmBoard.BoardByStatus | components/CRMBoard.tsx:94-150 | each column holds, in input order, the passing contacts its keywords select |
| CrmBoard.ExactlyOneColumn | components/CRMBoard.tsx:101-148 | a contact is in a column exactly when it passes the filters and its status classifies there |
| CrmBoard.StatusPartition | components/CRMBoard.tsx:101-148 | the four columns together hold as many contacts as pass the filters |
| CrmBoard.ColumnsKeepOrder | components/CRMBoard.tsx:101-148 | every column is a subsequence of the input |
| CrmBoard.EmptySegmentColumns | components/CRMBoard.tsx:73-75 | one empty column per segment, plus `sem_segmento` |
| CrmBoard.PlaceBySegment | components/CRMBoard.tsx:77-89 | one contact is appended to the column its segment chooses, and only a passing contact moves anything |
| CrmBoard.BoardBySegment | components/CRMBoard.tsx:72-91 | the columns are the segments plus `sem_segmento`, each holding its passing contacts in input order |
| CrmBoard.SegmentKey | components/CRMBoard.tsx:82-88 | the segment column a contact goes to, or none when it does not pass; `SegmentColumn` and `PlaceBySegment` state it |
| CrmBoard.SegmentColumn | components/CRMBoard.tsx:82-88 | with the board's segments, a passing contact with a cleaned segment goes to that column, any other to `sem_segmento` |
| CrmBoard.SegmentPartition | components/CRMBoard.tsx:72-91 | the segment columns together hold as many contacts as pass the filters |
| Dashboard.FilteredContacts | components/Dashboard.tsx:19-35 | the contacts created inside the date range, in order, every copy of a kept contact kept |
| Dashboard.FilteredConversations | components/Dashboard.tsx:19-38 | the conversations whose last message falls inside the date range, in order, every copy of a kept conversation kept |
| Dashboard.NoDatesKeepsAll | components/Dashboard.tsx:27-38 | with no dates both filters keep everything |
| Dashboard.StageOf | components/Dashboard.tsx:61-97 | the funnel stage by keyword, discard first; `StagePriority`, `DesqualificadoIsDescarte` and `FrioIsDescarte` state it |
| Dashboard.StagePriority | components/Dashboard.tsx:63-97 | each stage characterised: descarte, including "frio", first; then mql; then triagem |
| Dashboard.DesqualificadoIsDescarte | components/Dashboard.tsx:64-74 | "desqualificado" is a discard on the dashboard while the board calls it an MQL |
| Dashboard.FrioIsDescarte | components/Dashboard.tsx:71 | a status mentioning "frio" is a discard |
| Dashboard.StageCountsBounded | components/Dashboard.tsx:63-97 | mql + descarte + triagem never exceed the number of leads |
| Dashboard.SegmentLabel | components/Dashboard.tsx:57 | a falsy segment counts as "Não Identificado"; any other segment counts as itself, uncleaned |
| Dashboard.PlaceholderSegmentCounted | components/Dashboard.tsx:57 | the "EMPTY" placeholder the board hides is a segment of its own here |
| Dashboard.ChartEntries | components/Dashboard.tsx:101-106 | one entry per map key, in insertion order, the i-th coloured `COLORS[i % 6]` |
| Dashboard.ChartEntriesSum | components/Dashboard.tsx:101-106 | the chart entries add up to the counts of their keys |
| Dashboard.SegmentChart | components/Dashboard.tsx:101-107 | the segment chart; `SegmentChartSorted`, `SegmentChartSum`, `SegmentChartUnique`, `SegmentChartValues` and `SegmentChartCovers` state it |
| Dashboard.SegmentChartSorted | components/Dashboard.tsx:107 | the segment chart is sorted by descending count |
| Dashboard.SegmentChartSum | components/Dashboard.tsx:53-107 | the segment counts add up to the number of filtered contacts |
| Dashboard.SegmentChartUnique | components/Dashboard.tsx:53-107 | no segment name appears twice in the chart |
| Dashboard.SegmentChartValues | components/Dashboard.tsx:53-107 | every entry counts the contacts with its label, at least one |
| Dashboard.SegmentChartCovers | components/Dashboard.tsx:53-107 | every filtered contact's label has an entry |
| Dashboard.ActiveSegments | components/Dashboard.tsx:147 | the active-segments KPI is at most the chart size; `ActiveSegmentsCount` and `ActiveSegmentsOfUnique` state which entries it counts |
| Dashboard.ActiveSegmentsCount | components/Dashboard.tsx:147 | the active-segments KPI is the chart size less one exactly when some contact is labelled "Não Identificado" |
| Dashboard.ActiveSegmentsOfUnique | components/Dashboard.tsx:147 | in a chart with unique names, the active segments are all entries but possibly the one named "Não Identificado" |
| Dashboard.AllMessagesCount | components/Dashboard.tsx:120-125 | there are as many messages as the threads' lengths add up to |
| Dashboard.ActivityEntriesSum | components/Dashboard.tsx:127-129 | the hour entries add up to the counts of their labels |
| Dashboard.ActivityChart | components/Dashboard.tsx:118-129 | the messages-per-hour chart; `ActivityChartSum` states its total and order |
| Dashboard.ActivityChartSum | components/Dashboard.tsx:118-129 | the hour buckets add up to the message total and are in ascending label order |
| Dashboard.CountContacts | components/Dashboard.tsx:55-98 | the contact loop's counters are the stage selections' sizes and the segment map is the count of labels |
| Dashboard.CountThread | components/Dashboard.tsx:122-125 | the inner loop adds one thread's messages to the hour map |
| Dashboard.CountMessages | components/Dashboard.tsx:118-126 | the total is the sum of thread lengths and the hour map counts every message's hour |
| Dashboard.ComputeStats | components/Dashboard.tsx:44-141 | `totalLeads` and the first funnel entry are the lead count; mql, triagem and descarte are the stage counts; the rate is none without leads; the charts and total are as specified |
| ConversationList.MatchesSearch | components/ConversationList.tsx:17-18 | the list search on the lower-cased name or the raw phone; `PhoneFindsConversation` states a phone search finds its conversation |
| ConversationList.MatchesFilter | components/ConversationList.tsx:19 | the status tab; `FilteredStatus` and `FilteredEverything` state it |
| ConversationList.Filtered | components/ConversationList.tsx:16-21 | the conversations matching search and tab, as an order-preserving subsequence that keeps every copy of a match and none of a non-match |
| ConversationList.FilteredEverything | components/ConversationList.tsx:16-21 | tab "all" with an empty search shows every conversation |
| ConversationList.FilteredStatus | components/ConversationList.tsx:19 | tabs "active" and "waiting" show only that status; a finished conversation shows under neither |
| ConversationList.PhoneFindsConversation | components/ConversationList.tsx:17-18 | searching a conversation's raw phone finds it |
| ConversationList.ShowSubLabel | components/ConversationList.tsx:74-76 | the phone line under the name; `GenericNameHidesSubLabel` and `RealNameShowsSubLabel` state when it shows |
| ConversationList.GenericNameHidesSubLabel | components/ConversationList.tsx:74-76 | a conversation still named by its formatted phone shows no phone line |
| ConversationList.RealNameShowsSubLabel | components/ConversationList.tsx:74-76 | a name without digits over a phone with digits shows the phone line |
| ConversationList.ShowYouPrefix | components/ConversationList.tsx:104 | the "Você:" prefix for a thread whose last message is the agent's; `SendShowsYouPrefix` states a send shows it |
| ConversationList.SendShowsYouPrefix | components/ConversationList.tsx:104 | right after an agent send, the active conversation shows the "Você:" prefix whenever the send's clock is later than every message already in its thread |
| ConversationList.ShowUnreadBadge | components/ConversationList.tsx:119 | the unread badge for a positive unread count; `InsertUnreadBadge` states when an insert shows it |
| ConversationList.InsertUnreadBadge | App.tsx:185-209 | after a fresh message, the conversation holding it shows the unread badge: a new one always, a known one exactly when it is not the active one |
| ContactList.MatchesSearch | components/ContactList.tsx:13-17 | a lead matches by lower-cased name, raw phone or lower-cased company; `NoCompanyMatchesByNameOrPhone` and `CompanyFindsLead` state it |
| ContactList.FilteredContacts | components/ContactList.tsx:13-17 | the leads matching name, phone or company, as an order-preserving subsequence that keeps every copy of a match and none of a non-match |
| ContactList.EmptySearchKeepsAll | components/ContactList.tsx:13-17 | an empty search keeps every lead, in order |
| ContactList.NoCompanyMatchesByNameOrPhone | components/ContactList.tsx:16 | a lead without a company is found only by its name or its phone |
| ContactList.CompanyFindsLead | components/ContactList.tsx:16 | searching a lead's company finds it |
| ContactList.TempBadge | components/ContactList.tsx:19-31 | the badge is quente, else frio, else morno, by what the lower-cased temperature contains |
| ContactList.MissingTemperatureHasNoBadge | components/ContactList.tsx:20-30 | no temperature shows the "-" badge |
| ContactList.NamedTemperatures | components/ContactList.tsx:19-30 | a temperature that lower-cases to "quente", "frio" or "morno", in any letter case, gets its own badge |

## Left out

- Rendering, icons, CSS classes, `alert`, `console.error`, `localStorage`, the settings screen and view switching: not part of the behaviour modelled.
- Clocks and randomness are inputs. `Date.now()` is `stamp`, `new Date()` is `now` and `later`, and `temp-${Date.now()}-${Math.random()}` is a caller-supplied fallback id per history row.
- Dates are integer instants. Parsing `created_at` text, `setHours(23, 59, 59, 999)` on the end date and `getHours()` are left to the caller. Dashboard hour labels come from a caller-supplied `hourLabel`.
- Strings are sequences of characters. Lower-casing covers ASCII letters only. `localeCompare` is modelled two ways, and in both non-digit characters compare by code unit, not by collation: "B" sorts before "a" here, and a digit before "-".
  - on ids, as numeric-aware run tokenisation;
  - on hour labels, as code-unit order, which agrees with it on `HHh` labels.
- Dashboard.Rate: `conversionRate` keeps the numerator and denominator; the floating-point division and `toFixed(1)` are not modelled.
- Concurrency: React state batching, effect re-subscription when the active conversation changes, and the asynchronous interleaving of fetches and events are not modelled. Each handler is applied to a given list.
- The realtime library and the database client are abstracted. A client is its credentials, the library's channel registry is a set of channel numbers, and every database answer is a parameter.
- `RealtimeService.getStatus` is a plain field read, with no contract of its own.
- `handleSaveConfig` and the start-up effect only chain `initialize`, `loadHistory` and `connect`, which are modelled one by one.
- Reconciler.HandleSend: the outcome of the remote write is not an input, because a failed write leaves the optimistic state in place in the source. The source maps over React's pending state while it reads the phone from the rendered list; the model uses one list for both.
- Reconciler.HistoryRowRedelivered: message ids are assumed to be strings and "" stands for a missing id. The history loader converts the id with `String` (App.tsx:85), while the feed copies the column as it comes (services/socket.ts:150). A non-text id column would make the duplicate test at App.tsx:168 miss every message loaded from history.
- The CRM segment columns are a map keyed by segment. JavaScript object keys that collide with `Object.prototype` members (such as "constructor") are not modelled.
- The other components (`ChatWindow`, `ContactDrawer`, `Settings`, `Sidebar`, `MessageTemplates`, `Logo`) and the mock data are not part of this model.

## Notes on the source

- The history loader moves a conversation's cached `lastMessage` only to a strictly later timestamp (App.tsx:126-130); its comment says the field follows the timestamp. The INSERT handler instead always caches the inserted message (App.tsx:186-187), even when the thread holds a later one. The model follows each handler as written, and `Reconciler.InsertCacheNotLatest` exhibits the difference.
- History turns a row's `id` into a string with `String` and invents an id for a row without one (App.tsx:85). The feed copies `id` from the row unchanged (services/socket.ts:150), so an id-less row keeps its missing id there. Such a message delivered both ways is therefore never recognised as a duplicate.
- The board tests the MQL keywords first and the dashboard tests the loss keywords first. A "desqualificado" lead is therefore an MQL on the board and a discard on the dashboard.
