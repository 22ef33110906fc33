# DiscordClerk core, modelled in Dafny

DiscordClerk is a chat bot for a design studio's server. Its logic sits in a few stores and handlers. This project models them and proves what they promise:

- **Points ledger** (`points.dfy`). A map holds each user's infraction total, and a history lists every add, remove and reset entry. The class `Points.PointsLedger` keeps both files as fields.
  - Every total is the replay of the history.
  - Each mutation appends one entry that records the totals before and after it.
  - The ranking holds exactly the users with positive totals, highest first.
- **Order store** (`orders.dfy`). Orders move from `pending_terms` to `in_progress` when their terms are accepted, and get a thread channel attached. A single intake status defaults to `available`.
- **Application sessions** (`sessions.dfy`). There is one state per user and one inactivity timer per user. A sweep removes states older than an hour. Timers are data: the runtime's live timers are a field, and firing one is an explicit call.
- **Application workflow** (`applications.dfy`). A session starts, records one answer per direct message and completes on the last question. The submission is then filed and the session removed. The handler stores the state again after that removal, so a completed session stays stored and ignores further messages.
- **Commands** (`addpoints.dfy`, `removepoints.dfy`, `setorderstatus.dfy`).
  - Each command has a permission gate, its input domain, a store call and the replies.
  - `/addpoints` also bans a member who reaches 16 points. A failed ban only adds a warning, and the points stay added.
- **Interaction routing** (`interactions.dfy`).
  - Slash-command lookup, and the buttons and menus.
  - The `accept_terms_<orderId>` id and its parse.
  - The closed-intake gate of `place_order`.
  - The order-then-thread sequence of `order_type_select`.
- **Display rules** (`embeds.dfy`): the 1024-character answer cap, the question-label fallback, the points tiers and footers, and the last-five history slice.
- **Platform** (`replies.dfy`). The class `Replies.Interaction` is one interaction; it records every call made for it.
  - The first response must be a reply or a deferral.
  - Edits and follow-ups need an acknowledged interaction.
  - A refused call is the error the chat library throws.

The clock, ids built from it, platform outcomes and file failures are all parameters: `now`, `clock`, `broken`, `written`, the looked-up member, the thread. The code has no guard against a second acceptance of an order's terms, and none against re-attaching a channel. Point histories are returned oldest first. The model follows the code on each of these points.

## Model

| member | source | states |
|---|---|---|
| Base.LastN | DiscordClerk/utils/pointsManager.js:155 | `slice(-n)` is the suffix of length min(n, length) |
| Base.LastNOfLastN | DiscordClerk/utils/embedBuilder.js:292 | the last m of the last n entries (m ≤ n) are the last m entries |
| Points.Apply | DiscordClerk/utils/pointsManager.js:101-103 | a reset gives 0; a removal never goes below 0 and never raises a total; non-negative totals stay non-negative |
| Points.ReplayAppend | DiscordClerk/utils/pointsManager.js:59-75 | appending an entry changes only its own user's replayed total, by that entry's action |
| Points.ReplayUnknown | DiscordClerk/utils/pointsManager.js:56 | a user without entries has total 0 (`|| 0`) |
| Points.UsersAppend | DiscordClerk/utils/pointsManager.js:60 | after an entry the users with totals are the old ones plus its user |
| Points.ChainedAppend | DiscordClerk/utils/pointsManager.js:71-72 | an entry whose previous total is the current one and whose new total applies its action keeps every entry's totals correct |
| Points.EntriesOf | DiscordClerk/utils/pointsManager.js:155 | the per-user filter is never longer than the history |
| Points.EntriesOfMembers | DiscordClerk/utils/pointsManager.js:155 | the filter keeps exactly that user's entries |
| Points.EntriesOfAppend | DiscordClerk/utils/pointsManager.js:75 | a pushed entry is last in its user's list and changes no other user's list |
| Points.Pairs | DiscordClerk/utils/pointsManager.js:165 | `Object.entries` gives each key with its total, in key order |
| Points.Positive | DiscordClerk/utils/pointsManager.js:166 | exactly the pairs with points above 0 are kept |
| Points.Insert | DiscordClerk/utils/pointsManager.js:167 | an insertion adds exactly the one element |
| Points.InsertSorted | DiscordClerk/utils/pointsManager.js:167 | inserting into a descending list keeps it descending |
| Points.SortDesc | DiscordClerk/utils/pointsManager.js:167 | the sort is a permutation (same multiset) |
| Points.SortDescSorted | DiscordClerk/utils/pointsManager.js:167 | the sort's result is descending by points |
| Points.SortDescDistinct | DiscordClerk/utils/pointsManager.js:167 | sorting keeps users distinct |
| Points.PositiveDistinct | DiscordClerk/utils/pointsManager.js:166 | filtering keeps users distinct |
| Points.RankingCorrect | DiscordClerk/utils/pointsManager.js:165-167 | the ranking holds exactly the users with a positive total, once each, with their totals, highest first |
| Points.KeysStayInStep | DiscordClerk/utils/pointsManager.js:60 | assigning a new key appends it to the key order once; an existing key keeps its place |
| Points.TotalsStayReplayed | DiscordClerk/utils/pointsManager.js:56-75 | after the write and the push, every total is still the replay of the history |
| Points.RecordConsistent | DiscordClerk/utils/pointsManager.js:59-75 | writing the new total and pushing its entry keeps the ledger invariant |
| Points.RecordReplayed | DiscordClerk/utils/pointsManager.js:59-75 | the replay part of the invariant survives the write and the push |
| Points.PointsLedger.constructor | DiscordClerk/utils/pointsManager.js:10-38 | absent files read as an empty object and an empty history |
| Points.PointsLedger.GetUserPoints | DiscordClerk/utils/pointsManager.js:142-150 | the total is non-negative, is the replay of the history, and is 0 for a user never seen |
| Points.PointsLedger.GetPointsHistory | DiscordClerk/utils/pointsManager.js:152-160 | only the user's entries, the last min(10, n), oldest first |
| Points.PointsLedger.GetAllUsersWithPoints | DiscordClerk/utils/pointsManager.js:162-172 | exactly the positive totals, distinct users, descending |
| Points.PointsLedger.AddPoints | DiscordClerk/utils/pointsManager.js:50-94 | new total = previous + amount (previous 0 when unknown); only that user's total changes; one `add` entry is appended with both totals; a failure changes nothing and returns 'Failed to add points' |
| Points.PointsLedger.RemovePoints | DiscordClerk/utils/pointsManager.js:96-140 | new total = max(0, previous − amount); one `remove` entry; the failure message 'Failed to remove points' |
| Points.PointsLedger.ResetUserPoints | DiscordClerk/utils/pointsManager.js:174-214 | the total becomes 0; the entry's amount is the previous total and its new total 0 |
| Points.PointsLedger.Record | DiscordClerk/utils/pointsManager.js:60-75 | the shared write-and-push keeps the invariant and changes only the target user |
| Points.NewEntryIsLatest | DiscordClerk/utils/pointsManager.js:75 | a mutation's entry is its user's latest and leaves every other user's entries alone |
| Orders.NewOrder | DiscordClerk/utils/orderManager.js:92-103 | a new order is `pending_terms`, with no channel, terms not accepted, no acceptance time |
| Orders.OrderId | DiscordClerk/utils/orderManager.js:93 | the id starts with `order_` and ends with the user id, after the clock reading |
| Orders.FindFrom | DiscordClerk/utils/orderManager.js:125 | the first match at or after a position, or −1 when there is none |
| Orders.FindIndex | DiscordClerk/utils/orderManager.js:125 | `findIndex`: the first match, or −1 exactly when nothing matches |
| Orders.AcceptInList | DiscordClerk/utils/orderManager.js:125-136 | only the first order with that id and owner is accepted, set `in_progress` and stamped, its other fields kept; no match changes nothing |
| Orders.AttachInList | DiscordClerk/utils/orderManager.js:157-166 | only the first order with that id gets the channel, overwriting any earlier one |
| Orders.OrdersOf | DiscordClerk/utils/orderManager.js:196 | exactly the user's orders |
| Orders.OrdersOfConcat | DiscordClerk/utils/orderManager.js:196 | the filter keeps stored order |
| Orders.AppendKeepsInvariant | DiscordClerk/utils/orderManager.js:98-105 | pushing a new order keeps 'accepted ⇒ in progress' |
| Orders.AcceptKeepsInvariant | DiscordClerk/utils/orderManager.js:134-136 | acceptance keeps 'accepted ⇒ in progress' |
| Orders.AttachKeepsInvariant | DiscordClerk/utils/orderManager.js:166 | attaching a channel keeps 'accepted ⇒ in progress' |
| Orders.OrderStore.constructor | DiscordClerk/utils/orderManager.js:34-41 | no orders file and no status file |
| Orders.OrderStore.GetOrderStatus | DiscordClerk/utils/orderManager.js:10-22 | the default `available` with no author when nothing is stored, otherwise the stored record |
| Orders.OrderStore.SetOrderStatus | DiscordClerk/utils/orderManager.js:53-82 | a successful save stores and returns the status with its author and time; a failed one keeps the old file and returns 'Failed to save order status' |
| Orders.OrderStore.CreateOrder | DiscordClerk/utils/orderManager.js:88-120 | exactly one new order is appended and returned; a failure appends nothing and returns 'Failed to create order' |
| Orders.OrderStore.AcceptTerms | DiscordClerk/utils/orderManager.js:122-152 | 'Order not found' and no change unless id and owner match; otherwise the accepted order is returned |
| Orders.OrderStore.UpdateOrderChannel | DiscordClerk/utils/orderManager.js:154-181 | 'Order not found' and no change unless the id matches; otherwise the updated order |
| Orders.OrderStore.GetOrderById | DiscordClerk/utils/orderManager.js:183-191 | the first order with that id, or none exactly when no order has it |
| Orders.OrderStore.GetUserOrders | DiscordClerk/utils/orderManager.js:193-201 | exactly the user's orders |
| Orders.CreatedOrderIsLastOfItsOwner | DiscordClerk/utils/orderManager.js:105 | a created order comes last in its owner's list; no other list changes |
| Orders.SecondAcceptanceOverwritesTime | DiscordClerk/utils/orderManager.js:134-136 | accepting again succeeds again and records the later time |
| Orders.ChannelNeverCleared | DiscordClerk/utils/orderManager.js:166 | no operation resets an attached channel to null |
| Orders.FindIndexStable | DiscordClerk/utils/orderManager.js:125 | editing the found order's other fields keeps the search result |
| Orders.CreateAttachAccept | DiscordClerk/utils/orderManager.js:105-166 | with a fresh id, create, then attach, then accept yields that order in progress, with channel and terms; earlier orders are untouched |
| Sessions.ValuesAdd | DiscordClerk/utils/stateManager.js:18 | recording a timer for a user without one adds exactly it to the live timers |
| Sessions.ValuesRemove | DiscordClerk/utils/stateManager.js:33-34 | forgetting a user's timer removes exactly that timer |
| Sessions.StateManager.constructor | DiscordClerk/utils/stateManager.js:2-7 | two empty maps and no timers |
| Sessions.StateManager.SetApplicationState | DiscordClerk/utils/stateManager.js:9-19 | the state is stored and the user's one timer is replaced by one due 30 minutes later |
| Sessions.StateManager.GetApplicationState | DiscordClerk/utils/stateManager.js:21-23 | the stored state, or none exactly for an absent user |
| Sessions.StateManager.RemoveApplicationState | DiscordClerk/utils/stateManager.js:25-28 | state and timer are gone; an absent user is a no-op |
| Sessions.StateManager.ClearTimeout | DiscordClerk/utils/stateManager.js:30-36 | only the user's timer is cancelled and forgotten |
| Sessions.StateManager.FireTimer | DiscordClerk/utils/stateManager.js:14-16 | a firing timer removes its user's state and is no longer live |
| Sessions.StateManager.HasActiveApplication | DiscordClerk/utils/stateManager.js:38-40 | true exactly when a state is stored |
| Sessions.StateManager.GetApplicationCount | DiscordClerk/utils/stateManager.js:46-48 | the number of stored users; 0 exactly when nobody is active |
| Sessions.StateManager.CleanupExpiredApplications | DiscordClerk/utils/stateManager.js:51-72 | exactly the states started more than an hour ago (strictly) are removed, with their timers; all others stay |
| Sessions.AtMostOneTimerPerUser | DiscordClerk/utils/stateManager.js:13-18 | two live timers of one user are the same timer |
| Applications.Keys | DiscordClerk/handlers/applicationHandler.js:90 | one key per stored answer |
| Applications.KeysAppend | DiscordClerk/handlers/applicationHandler.js:90 | keys of joined answer lists join |
| Applications.Lookup | DiscordClerk/handlers/applicationHandler.js:90 | a key reads as absent exactly when it was never stored |
| Applications.Put | DiscordClerk/handlers/applicationHandler.js:90 | writing an existing key keeps key order; a new key is appended |
| Applications.PutLookup | DiscordClerk/handlers/applicationHandler.js:90 | a written key reads back its value; other keys read as before |
| Applications.Ids | DiscordClerk/handlers/applicationHandler.js:84 | one id per question |
| Applications.IdsAppend | DiscordClerk/handlers/applicationHandler.js:84 | ids of joined question lists join |
| Applications.FreshId | DiscordClerk/handlers/applicationHandler.js:90 | with distinct question ids, a later question's id is not yet answered |
| Applications.Answered | DiscordClerk/handlers/applicationHandler.js:90-93 | pairing questions with messages gives min(questions, messages) answers |
| Applications.AnsweredAt | DiscordClerk/handlers/applicationHandler.js:90 | answer j is question j's id with message j's content |
| Applications.RecordStoresAnswer | DiscordClerk/handlers/applicationHandler.js:90-93 | the message is stored under the current question, other answers read as before, the index grows by one |
| Applications.Complete | DiscordClerk/handlers/applicationHandler.js:130-131 | a completed state is `completed`, with its completion time, and handles no message |
| Applications.Next | DiscordClerk/handlers/applicationHandler.js:89-101 | one handled message moves the index by one; the session completes exactly on the last question |
| Applications.RunIgnored | DiscordClerk/handlers/applicationHandler.js:80-87 | a session that does not accept messages ignores every later one and never completes again |
| Applications.RunProgress | DiscordClerk/handlers/applicationHandler.js:89-101 | from question i of N, min(messages, N − i) messages are answered; it completes exactly when enough arrive, once |
| Applications.AnswerStep | DiscordClerk/handlers/applicationHandler.js:90 | with distinct ids, one answer appends its pair to the answers |
| Applications.RunAnswers | DiscordClerk/handlers/applicationHandler.js:90-93 | the stored answers are the old answers followed by the messages paired with the remaining questions |
| Applications.AnsweredStep | DiscordClerk/handlers/applicationHandler.js:90 | the pairing of the remaining questions splits off its first pair |
| Applications.RunAnswersAfterFirst | DiscordClerk/handlers/applicationHandler.js:89-101 | the answers after the first message continue the pairing |
| Applications.Conversation | DiscordClerk/handlers/applicationHandler.js:53-105 | from a start with N distinct questions: fewer than N messages leave it in progress at that index; N or more complete it exactly once, with every question paired with its message |
| Applications.SubmissionOf | DiscordClerk/handlers/applicationHandler.js:134-143 | the submission is `pending_review`, with the state's answers, position and completion time |
| Applications.Saved | DiscordClerk/handlers/applicationHandler.js:34-51 | a written save appends one record to the list, or to an empty list when the file could not be read; a failed write keeps the old file |
| Applications.Ask | DiscordClerk/handlers/applicationHandler.js:107-124 | the question sent is the current one, numbered index + 1 of the total |
| Applications.ApplicationHandler.constructor | DiscordClerk/handlers/applicationHandler.js:8-12 | no filed applications |
| Applications.ApplicationHandler.SaveApplication | DiscordClerk/handlers/applicationHandler.js:34-51 | reports whether the file was written, and the list is as `Saved` says |
| Applications.ApplicationHandler.StartApplication | DiscordClerk/handlers/applicationHandler.js:53-74 | a position with no questions or an empty list gives 'No questions found for this position' and stores nothing; otherwise a fresh state at index 0 with no answers, in progress |
| Applications.ApplicationHandler.CompleteApplication | DiscordClerk/handlers/applicationHandler.js:126-162 | confirmation and HR notice only when saved; the session is removed either way |
| Applications.ApplicationHandler.HandleDmMessage | DiscordClerk/handlers/applicationHandler.js:76-105 | no state, a finished one or no current question: nothing happens; otherwise the answer is stored, then the next question is asked or it completes; the state is re-stored afterwards, so a completed one stays stored |
| Applications.ApplicationHandler.SendInitialQuestion | DiscordClerk/handlers/applicationHandler.js:184-198 | succeeds exactly when the position has questions, then stores the fresh state with a timer due 30 minutes later and asks question 1; otherwise it sends the apology and changes nothing |
| Embeds.TruncateAnswer | DiscordClerk/utils/embedBuilder.js:150 | at most 1024 code points; short answers unchanged; long ones keep 1021 code points and end in '...', length exactly 1024 |
| Embeds.TruncateIdempotent | DiscordClerk/utils/embedBuilder.js:150 | truncating twice is truncating once |
| Embeds.QuestionText | DiscordClerk/utils/embedBuilder.js:159-181 | a known id gives its label, an unknown id itself |
| Embeds.QuestionTextFallback | DiscordClerk/utils/embedBuilder.js:162-180 | the text is the id exactly when the id is unknown |
| Embeds.LabelsAreNotIds | DiscordClerk/utils/embedBuilder.js:162-178 | every label is non-empty and differs from its id |
| Embeds.AnswerFields | DiscordClerk/utils/embedBuilder.js:143-154 | one field per answer |
| Embeds.AnswerFieldsAt | DiscordClerk/utils/embedBuilder.js:143-154 | field i carries answer i's question text and its capped answer |
| Embeds.StandingOf | DiscordClerk/utils/embedBuilder.js:274-283 | ≥ 16 is the ban tier, 10–15 the warning tier, below 10 good standing, each an iff |
| Embeds.StandingMonotone | DiscordClerk/utils/embedBuilder.js:274-283 | more points never give a better tier |
| Embeds.PointsStatus | DiscordClerk/utils/embedBuilder.js:283 | each status text exactly for its tier |
| Embeds.PointsColour | DiscordClerk/utils/embedBuilder.js:274 | each colour exactly for its tier |
| Embeds.ColourFollowsStatus | DiscordClerk/utils/embedBuilder.js:274-283 | each colour goes with exactly its status text: red with the ban tier, orange with the warning, green with good standing |
| Embeds.ActionFooter | DiscordClerk/utils/embedBuilder.js:265 | the ban warning exactly at 16 and up, otherwise `Current points: n/16` |
| Embeds.StyleOf | DiscordClerk/utils/embedBuilder.js:231-233 | 'Added' exactly for `added`; any other action reads 'Removed' |
| Embeds.Sign | DiscordClerk/utils/embedBuilder.js:293 | plus exactly for an addition; removals and resets both show minus |
| Embeds.HistoryLine | DiscordClerk/utils/embedBuilder.js:292-295 | a history line starts with its entry's sign |
| Embeds.HistoryLines | DiscordClerk/utils/embedBuilder.js:292-295 | one line per entry |
| Embeds.HistoryLinesAt | DiscordClerk/utils/embedBuilder.js:292-295 | line i is entry i's line |
| Embeds.JoinLines | DiscordClerk/utils/embedBuilder.js:296 | the joined text starts with the first line |
| Embeds.RecentHistory | DiscordClerk/utils/embedBuilder.js:290-305 | the field is absent exactly for an empty history |
| Embeds.RecentHistoryShown | DiscordClerk/utils/embedBuilder.js:291-302 | the field shows the last min(5, n) entries, oldest first, and never the fallback text |
| Embeds.ViewShowsLastFive | DiscordClerk/handlers/interactionHandler.js:73-79 | with the ledger's last-10 slice, the view shows the user's last five entries overall |
| Embeds.StatusUpdateColour | DiscordClerk/utils/embedBuilder.js:395 | green exactly for available, orange for delayed, red otherwise |
| Replies.Interaction.constructor | DiscordClerk/handlers/interactionHandler.js:24 | an interaction starts with the platform's two flags and nothing sent |
| Replies.Interaction.Respond | DiscordClerk/handlers/interactionHandler.js:24-30 | accepted exactly by the acknowledgement rule; an accepted reply or edit marks it replied; a refused call sends nothing |
| Replies.Interaction.DeferReply | DiscordClerk/handlers/interactionHandler.js:30 | accepted exactly on an unacknowledged interaction, which is then deferred |
| Replies.Interaction.Emit | DiscordClerk/handlers/interactionHandler.js:347-374 | a platform call outside the responses is logged and leaves the flags alone |
| Replies.ReasonOrDefault | DiscordClerk/commands/addpoints.js:29 | an absent or empty reason becomes 'No reason provided'; any other is kept |
| Replies.DeferredRefusesReply | DiscordClerk/handlers/interactionHandler.js:30 | after a deferral a reply is refused, and edits and follow-ups are accepted |
| AddPointsCommand.AfterAdd | DiscordClerk/commands/addpoints.js:62-79 | below 16 nothing follows the result embed; at most a ban and one follow-up otherwise |
| AddPointsCommand.Responses | DiscordClerk/commands/addpoints.js:33-79 | the first call is always a reply |
| AddPointsCommand.BanAttemptedIff | DiscordClerk/commands/addpoints.js:63-67 | a ban is attempted exactly when the addition succeeded, reached 16 and the member is cached; it targets that member |
| AddPointsCommand.WarningIff | DiscordClerk/commands/addpoints.js:72-77 | the manual-ban warning is sent exactly when 16 was reached and the ban of the cached member failed |
| AddPointsCommand.ResponsesAccepted | DiscordClerk/commands/addpoints.js:34-77 | on a fresh interaction the platform accepts every call the command makes |
| AddPointsCommand.FollowUpsAccepted | DiscordClerk/commands/addpoints.js:70-77 | follow-ups and bans after a reply are all accepted |
| AddPointsCommand.Execute | DiscordClerk/commands/addpoints.js:25-80 | amount in 1..10; without permission only the refusal, and the ledger is untouched; a ledger error sends the error and attempts no ban; otherwise the ledger is as `AddPoints` leaves it, whatever the ban does |
| AddPointsCommand.Report | DiscordClerk/commands/addpoints.js:43-79 | after the ledger answers: the error, or the result embed followed by the threshold step |
| AddPointsCommand.CheckThreshold | DiscordClerk/commands/addpoints.js:62-79 | the threshold step sends exactly `AfterAdd` and keeps the interaction replied |
| RemovePointsCommand.Responses | DiscordClerk/commands/removepoints.js:33-60 | exactly one reply, never a ban; the result embed exactly on success, as a removal |
| RemovePointsCommand.Execute | DiscordClerk/commands/removepoints.js:25-61 | amount in 1..20; without permission the ledger is untouched; otherwise the ledger is as `RemovePoints` leaves it |
| SetOrderStatusCommand.MapsCoverChoices | DiscordClerk/commands/setorderstatus.js:44-54 | both maps are defined for exactly the three choices |
| SetOrderStatusCommand.UpdateCard | DiscordClerk/commands/setorderstatus.js:56-61 | the embed carries the status, its emoji, its name and the invoker |
| SetOrderStatusCommand.Responses | DiscordClerk/commands/setorderstatus.js:26-63 | exactly one reply; the update embed exactly when the write succeeded |
| SetOrderStatusCommand.Execute | DiscordClerk/commands/setorderstatus.js:20-67 | the status is one of the three; without permission or on a failed save the stored status is unchanged; otherwise the chosen status is stored with the invoker's id; orders are never touched |
| SetOrderStatusCommand.SetThenGet | DiscordClerk/utils/orderManager.js:53-86 | a stored status is what `getOrderStatus` then reports |
| Interactions.IndexFrom | DiscordClerk/handlers/interactionHandler.js:186 | the first occurrence at or after a position, or −1 when there is none |
| Interactions.ReplaceFirst | DiscordClerk/handlers/interactionHandler.js:186 | without an occurrence the string is unchanged |
| Interactions.ButtonId | DiscordClerk/handlers/interactionHandler.js:443 | the id is the prefix followed by the order id |
| Interactions.StripPrefix | DiscordClerk/handlers/interactionHandler.js:184-186 | for an id with the prefix, `replace` strips exactly the prefix |
| Interactions.ClassifyButton | DiscordClerk/handlers/interactionHandler.js:64-184 | only ids with the prefix parse as an acceptance |
| Interactions.ButtonRoundTrip | DiscordClerk/handlers/interactionHandler.js:184-186 | the accept button of any order parses back to that order's id |
| Interactions.ParsedIdIsButtonId | DiscordClerk/handlers/interactionHandler.js:184-186 | an id parsed as an acceptance is the button id of the order it names |
| Interactions.OrderTypeValues | DiscordClerk/handlers/interactionHandler.js:242-262 | the order-type menu offers exactly liveries, avatars, els and others |
| Interactions.PositionValues | DiscordClerk/utils/embedBuilder.js:51-67 | the position menu offers exactly Designer, Developer and Staff |
| Interactions.PanelReply | DiscordClerk/handlers/interactionHandler.js:64-183 | every answer is an edit; in `place_order` it is refused exactly when the status is `closed`; in `update_rules` refused exactly without the permission; an unknown id sends nothing |
| Interactions.AcceptResult | DiscordClerk/handlers/interactionHandler.js:189 | fails exactly when no order has that id and owner; otherwise the order is accepted and in progress |
| Interactions.AcceptReply | DiscordClerk/handlers/interactionHandler.js:191-232 | the error, or the confirmation followed by disabling that order's button |
| Interactions.HandleAcceptTermsAsWritten | DiscordClerk/handlers/interactionHandler.js:184-233 | the order is accepted; when the interaction is deferred, as it always is here, nothing is sent and the button stays enabled |
| Interactions.HandleAcceptTerms | DiscordClerk/handlers/interactionHandler.js:184-233 | the order is accepted and the user gets `AcceptReply` through the deferred reply |
| Interactions.HandleButton | DiscordClerk/handlers/interactionHandler.js:59-234 | as written: an acceptance is recorded and nothing is sent; any other button changes no order and answers `PanelReply` with the live total, history and status |
| Interactions.HandleButtonCorrected | DiscordClerk/handlers/interactionHandler.js:59-234 | with the acceptance answered by `editReply`: it is recorded and answered with `AcceptReply`; other buttons as in `HandleButton` |
| Interactions.ShowPanel | DiscordClerk/handlers/interactionHandler.js:64-183 | sends exactly `PanelReply` |
| Interactions.PlaceOrderFollowsStatus | DiscordClerk/handlers/interactionHandler.js:159-177 | a stored `closed` refuses `place_order`; with no stored status it proceeds |
| Interactions.HandlePositionSelectAsWritten | DiscordClerk/handlers/interactionHandler.js:271-311 | on a deferred interaction nothing is sent and no application starts |
| Interactions.StartMessages | DiscordClerk/handlers/applicationHandler.js:184-198 | one direct message: the apology exactly when the position has no questions |
| Interactions.HandlePositionSelect | DiscordClerk/handlers/interactionHandler.js:271-311 | the starting text, the first question or the apology, and the follow-up exactly on failure; the session and its 30-minute timer start exactly when the position has questions |
| Interactions.StartAndReport | DiscordClerk/handlers/interactionHandler.js:283-291 | `sendInitialQuestion`, then the error follow-up exactly when it fails; on success the fresh state and its 30-minute timer are stored |
| Interactions.RequestedOrder | DiscordClerk/handlers/interactionHandler.js:329-334 | the order is the invoker's, of the chosen type, in the guild, pending terms, without a channel |
| Interactions.SetupLog | DiscordClerk/handlers/interactionHandler.js:312-393 | the calls of an order-type choice always open with the 'setting up' edit; `SetupOutcome` states the rest |
| Interactions.CreateLog | DiscordClerk/handlers/interactionHandler.js:336-379 | after the guild check at least one call follows |
| Interactions.ThreadLog | DiscordClerk/handlers/interactionHandler.js:343-379 | after the thread step at least one call follows |
| Interactions.SetupOrders | DiscordClerk/handlers/interactionHandler.js:321-364 | no guild or a failed save leaves the orders unchanged; otherwise there is exactly one order more |
| Interactions.SetupOutcome | DiscordClerk/handlers/interactionHandler.js:320-392 | a thread is created exactly with a guild and a saved order; the terms are posted exactly when every step succeeds; after a thread or member failure the order stays saved without a channel and the user is told setup failed |
| Interactions.SetupButtonAcceptsNewOrder | DiscordClerk/handlers/interactionHandler.js:357-374 | on success the posted button parses to the new order, which, with a fresh id, is the one holding the thread |
| Interactions.HandleOrderTypeSelect | DiscordClerk/handlers/interactionHandler.js:312-393 | sends exactly `SetupLog`; the orders end as `SetupOrders` |
| Interactions.CreateAndSetUp | DiscordClerk/handlers/interactionHandler.js:328-379 | after the guild check: `createOrder`, then the thread steps |
| Interactions.SetUpThread | DiscordClerk/handlers/interactionHandler.js:343-379 | the channel is attached only after the thread and the member step succeed |
| Interactions.AttachAndPost | DiscordClerk/handlers/interactionHandler.js:357-378 | the new order's id gets the thread, then its terms with its accept button, then the link |
| Interactions.NewOrderIsFound | DiscordClerk/handlers/interactionHandler.js:357-364 | the order just created is found by its id, so the attach step cannot fail |
| Interactions.FreshIdAttachesNewOrder | DiscordClerk/handlers/interactionHandler.js:361 | with an id no earlier order has, the new order alone gets the thread |
| Interactions.SharedIdAttachesOlderOrder | DiscordClerk/utils/orderManager.js:154-166 | two orders created for one user at one clock reading share an id; the thread then goes to the older one |
| Interactions.HandleSelectMenu | DiscordClerk/handlers/interactionHandler.js:268-394 | as written: a position choice sends nothing and starts no session; an order-type choice runs the setup; any other menu sends nothing and changes nothing |
| Interactions.HandleSelectMenuCorrected | DiscordClerk/handlers/interactionHandler.js:268-394 | with the position choice answered by `editReply`: the session and its timer start exactly when the position has questions; other menus as in `HandleSelectMenu` |
| Interactions.HandleInteraction | DiscordClerk/handlers/interactionHandler.js:21-57 | an acknowledged interaction is ignored; a slash command goes to its command or gets 'Command not found!' ephemerally, and changes no store; anything else is deferred ephemerally, first, and goes to `HandleButton` or `HandleSelectMenu` as written |

## Left out

- File I/O and JSON. Each file is a field. An unreadable file reads as its default, which is the starting state of the constructors. Content of the wrong shape, which throws inside a store method, is the `broken` parameter; it is modelled for the points mutators and `createOrder`.
- Orders.OrderStore.AcceptTerms: does not model file content of the wrong shape, which throws and answers 'Failed to accept terms'.
- Orders.OrderStore.UpdateOrderChannel: does not model file content of the wrong shape, which throws and answers 'Failed to update order channel'.
- Orders.OrderStore.SetOrderStatus: does not model the catch branch 'Failed to update order status'. Nothing in its try block can throw, since the save catches its own errors.
- Points.PointsLedger.AddPoints, Points.PointsLedger.RemovePoints, Points.PointsLedger.ResetUserPoints, Orders.OrderStore.CreateOrder: these assume the write succeeds. The source ignores the save result and reports success even when the file was not written.
- Points.PointsLedger.constructor: the ledger starts from empty files. Files already holding data are reached only through operations.
- Amounts are natural numbers in the ledger. The ledger's only callers pass 1..10 and 1..20.
- The chat platform is modelled as a log of effects. Bans, thread creation, adding a member, posting the terms, disabling a button and direct messages are log entries. Their outcomes are parameters: the member lookup, `banOk`, `thread`, `memberAdded`.
- Posting the terms in the thread is assumed to succeed. So is editing the original message to disable the button, which the source tries and ignores on failure.
- Interactions.HandlePositionSelect: does not model the 'I cannot send you a DM!' branch. `sendNextQuestion` catches every send error, so `sendInitialQuestion` never throws.
- Interactions.PanelReply: does not model the 'error loading the order menu' branch of `place_order`. Reading the status file cannot throw, so only a failing edit would reach it.
- The outer catch of each command ('There was an error adding points…' and the like) is not modelled. Only a throwing platform call reaches it.
- Embed text, colours and layout beyond the rules above are not modelled. That includes fields taken from `settings.json`, `createProgressBar` (floating point), the rules, careers and orders panels and the terms embed.
- Dates are integer timestamps, and locale date strings are shown as decimal timestamps.
- The clock is a parameter. Ids built from it (`order_…`) are modelled. Their uniqueness is not guaranteed by the code, and `Interactions.SharedIdAttachesOlderOrder` shows the consequence.
- Real timers and the 15-minute `setInterval` are not modelled. A timer is data and firing it is a call; the sweep is a call with a given `now`.
- Concurrency is not modelled: there is no interleaving at await points and no lost updates between read-modify-write cycles.
- `index.js`, `careers.js`, `rules.js`, `orders.js`, `checkpoints.js` and `updateOrderEmbeds` (a logging stub) are not part of this model.
- Interactions.HandleInteraction: states the routing and the deferral. What the button and menu handlers then do is stated by `HandleButton` and `HandleSelectMenu`, not repeated in its contract.
- Sessions.StateManager: `getAllActiveApplications` is the `states` field itself and has no member of its own.

- Embeds.TruncateAnswer: lengths are counted in Unicode code points, while the source's `length` and `substring` count UTF-16 units. An answer with characters outside the Basic Multilingual Plane, such as emoji, is cut later than in the source, and a cut through a surrogate pair is not modelled.
- Embeds.QuestionText: does not model names inherited by the source's object literal, such as `constructor` or `toString`, which yield a function instead of the id.
- Points.Pairs: lists keys in insertion order. `Object.entries` puts keys that look like array indices (integers below 2^32 − 1) first, in ascending order. Discord user ids are beyond that range, so the order agrees for them, but the model does not restrict `UserId` to such ids.
- AddPointsCommand.AfterAdd: the member lookup is modelled only inside a guild. Outside one the invoking member is null, so the permission check throws into the outer catch before any points are added.

## Findings

In both rows the branch itself is `HandleAcceptTermsAsWritten` or `HandlePositionSelectAsWritten`, its correction `HandleAcceptTerms` or `HandlePositionSelect`; `Replies.DeferredRefusesReply` is the rule that separates them. `HandleInteraction` routes to the handlers as written.

| source | as written | input that shows it | evidently intended | confidence | as-written member | corrected member |
|---|---|---|---|---|---|---|
| DiscordClerk/handlers/interactionHandler.js:191-218 | the `accept_terms_` branch answers with `interaction.reply`, but every button was already deferred at line 30, and the chat library refuses a reply to a deferred interaction | pressing `accept_terms_<id>` on one's own order: the terms are recorded, the thrown error ends the handler, the user sees neither confirmation nor error, and the button is never disabled | answer with `editReply`, as every other button does | not executed; rests on the library's acknowledgement rule | Interactions.HandleButton | Interactions.HandleButtonCorrected |
| DiscordClerk/handlers/interactionHandler.js:274-284 | the `position_select` branch sends its starting text with `interaction.reply` on a deferred interaction, before `sendInitialQuestion` | choosing any position in the menu: the reply throws, so no application starts and no question is sent | answer with `editReply`, then start the application | not executed; rests on the library's acknowledgement rule | Interactions.HandleSelectMenu | Interactions.HandleSelectMenuCorrected |
