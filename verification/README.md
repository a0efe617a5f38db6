# Trading-academy web app: verified model of its core logic

This project models the decision logic of a trading-academy web application and proves properties about it. The application is a React front end over a Supabase (Postgres) back end. The model covers:

- **AI trade assistant** (`TradeAssistant`). A four-step chat collects a direction (buy or sell), an instrument and a setup description. It then sends a prompt built from them to an external trade validator. The reply becomes a chat message and a draft journal entry. The chat shows a reply as a verdict badge when it decodes as `{"verdict": …, "explanation": …}`.
- **Todo list and its service** (`TodoList`, `TodoService`). The `todos` table is a sequence of rows. Each service call (fetch, create, update, delete, toggle-all, clear-completed) is a function from the table, plus an injected backend failure, to the new table and a result. The component's handlers keep a local copy of the user's list, and the model proves that copy stays equal to what a fresh fetch would return.
- **Admin portal** (`AdminPortal`, `AdminData`, `Grouping`). Covers the class statistics and the P&L chart, the student directory filter, the trade-journal filter and its analytics, and the default series of the business-metrics dashboard.
- **Student management tab** (`StudentManagement`). Per-student statistics are recomputed from the journal. Also covered: the table rows with their display defaults, the search and tier filter, editing, saving and deleting with their error banners, and the badge colours.
- **Community hub** (`CommunityHub`). Covers the `cx` class joiner, tier-name formatting, pending versus premium access, the premium/social link split, link loading and the join handler.
- **Admin portal context** (`AdminContext`). Covers tab restore and validation, the all-or-nothing loading of the ten data series, refresh, and the profile update and delete calls that refetch the students.
- **Migration runner** (`Migration`). The SQL text is split at `;`, trimmed and filtered. Comment statements are skipped, and the rest run in order until the first one the database rejects.

Everything outside the program is a parameter:

- the validator's reply, the backend's answer or failure, the browser's storage;
- the confirmation dialog's answer, whether the component is still mounted;
- the clock (`now`) and the identifier the backend assigns.

The shared library modules are:

- `Text`: JavaScript string operations on ASCII text, such as `trim`, `toLowerCase`, `includes`, `split`, `join` and `replace` with a string pattern.
- `Seqs`: array operations, such as `filter`, `map`, `reduce`, the stable descending sort and de-duplication.
- `Wrappers`: `Option` and `Reply`.

## Model

| member | source | states |
|---|---|---|
| TradeAssistant.OrElse | components/AITradeAssistant.tsx:239-241 | `value \|\| fallback`: an absent or empty field gives the fallback, any other gives the field |
| TradeAssistant.ImageOf | components/AITradeAssistant.tsx:248 | `selectedImage \|\| undefined`: no image exactly when the data URL is empty |
| TradeAssistant.DirectionIn | components/AITradeAssistant.tsx:177-204 | buy is chosen exactly when the lower-cased input mentions "buy" or "long"; sell exactly when it does not but mentions "sell" or "short"; otherwise none |
| TradeAssistant.ResponseText | components/AITradeAssistant.tsx:252-268 | the stored reply text is the string itself, the serialised verdict object, the object's JSON, or the value's string form, for the four reply shapes |
| TradeAssistant.Classify | components/AITradeAssistant.tsx:280-284 | the draft's status is approved exactly when the lower-cased reply mentions "approved"; rejected exactly when it does not but mentions "rejected"; warning otherwise |
| TradeAssistant.DecodeSerialize | components/AITradeAssistant.tsx:256-261 | decoding the stored text of a verdict object gives back its verdict and explanation (quote-free fields) |
| TradeAssistant.DecodeOnlySerialized | components/AITradeAssistant.tsx:34-36 | only the serialised form of a verdict object decodes as one: decoding is exact |
| TradeAssistant.Render | components/AITradeAssistant.tsx:32-74 | a message renders structured exactly when it decodes as a verdict object with a non-empty verdict and explanation, showing that verdict's badge and that explanation; otherwise it shows its own text |
| TradeAssistant.AtPair | components/AITradeAssistant.tsx:207-217 | at the second step the trimmed input becomes the pair, the step advances to awaiting details, and one reply quoting the pair is added |
| TradeAssistant.AtInitial | components/AITradeAssistant.tsx:175-205 | at the first step a recognised direction replaces the context by that direction alone, moves to awaiting the pair and adds that direction's prompt; no direction adds only the request to say buy or sell and changes nothing else |
| TradeAssistant.Analyse | components/AITradeAssistant.tsx:231-296 | the validator gets the prompt built from the context before the send, the rule texts and the image; on a reply, the reply is appended, the busy flag is cleared, the image is dropped and the draft entry is tagged by the heuristic; its direction is the stored one, else "sell" in the input, else buy; a rejected call leaves the chat busy with no draft |
| TradeAssistant.Posted | components/AITradeAssistant.tsx:163-171 | every send first appends the user's message and clears the text box, leaving everything else as it was |
| TradeAssistant.Converse | components/AITradeAssistant.tsx:174-217 | a send at the first two steps adds the user's message and one reply, never moves the step back and calls no validator |
| TradeAssistant.Consult | components/AITradeAssistant.tsx:219-229 | a send at the last two steps ends at analysis complete; at the details step it records the trimmed input as the details, afterwards it leaves the context alone; the validator gets the prompt from the old context |
| TradeAssistant.Send | components/AITradeAssistant.tsx:160-297 | a blank send without an image changes nothing; any other send appends the user's message first; the step never moves back and its last value is absorbing; the validator is called exactly at the last two steps |
| TradeAssistant.SendKeepsWellFormed | components/AITradeAssistant.tsx:174-229 | each step holds exactly the context fields of the steps already passed, and a send keeps that true |
| TradeAssistant.Apply | components/AITradeAssistant.tsx:474-495 | while an analysis is pending, typing and pressing send do nothing; otherwise typing sets the text box and pressing send is one send; attaching or removing a chart only sets the image |
| TradeAssistant.AnalyzingIgnoresInput | components/AITradeAssistant.tsx:484-495 | while an analysis is pending, any sequence of keystrokes and presses leaves the state unchanged |
| TradeAssistant.FailedCallLocksInput | components/AITradeAssistant.tsx:231-247 | a validator call that fails leaves the assistant analysing, after which every keystroke and press is ignored |
| TradeAssistant.RunKeepsInvariants | components/AITradeAssistant.tsx:160-297 | over any sequence of typing, image and send actions, the conversation stays well formed, the step never moves back and the message history only grows |
| TradeAssistant.DraftDirectionFromContext | components/AITradeAssistant.tsx:286 | after a well-formed conversation reaches the validator, the draft's direction is the one chosen at the first step |
| TradeAssistant.DirectionSendable | components/AITradeAssistant.tsx:161 | a message naming a direction is never blank, so the blank-send guard never swallows it |
| TradeAssistant.OpeningDirection | components/AITradeAssistant.tsx:175-195 | at the first step a message naming a direction produces exactly the user's message and that direction's prompt, records the direction alone and calls nothing |
| TradeAssistant.OpeningUnclear | components/AITradeAssistant.tsx:196-205 | at the first step a sent message naming no direction produces exactly the user's message and the request to say buy or sell, keeping the step and the context |
| TradeAssistant.OpeningBuy | components/AITradeAssistant.tsx:177-186 | an opening message mentioning "buy" records a buy and produces exactly the buy prompt |
| TradeAssistant.PairGiven | components/AITradeAssistant.tsx:207-217 | at the second step a non-blank message produces exactly the pair reply and records the trimmed pair |
| TradeAssistant.SetupGiven | components/AITradeAssistant.tsx:219-249 | at the details step of either direction the validator is called with the recorded direction and pair and a details line holding the raw input, because the context update is not yet visible; the trimmed input is recorded; the chat gains the user's message and the reply, or only the user's message with the assistant left busy when the call fails |
| TradeAssistant.BuyConversation | components/AITradeAssistant.tsx:160-297 | the full buy, pair, setup conversation calls the validator once, on the third send, ends at analysis complete with all three fields recorded, and has the expected transcript |
| TradeAssistant.VerdictReplyRendersStructured | components/AITradeAssistant.tsx:256-261 | a structured validator reply is stored so that the chat shows its badge and explanation |
| TradeAssistant.HeuristicCanDisagree | components/AITradeAssistant.tsx:280-284 | a rejected verdict whose explanation says "not approved" is tagged approved by the keyword heuristic |
| TodoService.UserView | services/todoService.ts:7-22 | a user's fetched list holds exactly that user's rows, as a permutation, newest first |
| TodoService.FetchUserTodos | services/todoService.ts:5-27 | a fetch fails exactly when the backend does, and otherwise returns the user's view |
| TodoService.CreateTodo | services/todoService.ts:30-56 | a create inserts exactly the given user, title and flag with the assigned id and timestamps and returns that row; on failure the table is unchanged |
| TodoService.BuildPatch | services/todoService.ts:61-67 | the patch carries the title and flag only when given and always stamps the update time |
| TodoService.ApplyPatch | services/todoService.ts:69-85 | patching a row changes only the given fields and the update time; id, owner and creation time stay |
| TodoService.UpdateTodo | services/todoService.ts:59-90 | an update succeeds only when exactly one row has the id; it patches that row alone and returns it; any failure leaves the table unchanged |
| TodoService.DeleteTodo | services/todoService.ts:93-106 | a delete removes exactly the rows with the id and keeps the order of the rest; a failure is rethrown with the table unchanged |
| TodoService.ToggleAllTodos | services/todoService.ts:109-122 | toggle-all sets the flag and update time of every row of the user and of no other row |
| TodoService.ClearCompletedTodos | services/todoService.ts:125-139 | clear-completed removes exactly the user's completed rows |
| TodoService.ToggleAllIsolated | services/todoService.ts:111-114 | toggling all of one user's todos never changes another user's view |
| TodoService.ClearCompletedIsolated | services/todoService.ts:127-131 | clearing one user's completed todos never changes another user's view |
| TodoService.CreateKeepsIdsUnique | services/todoService.ts:32-40 | creating a row with a fresh id keeps the ids unique |
| TodoList.ActiveCount | components/TodoList.tsx:94 | the active count is the number of positions holding an uncompleted todo, so it is zero exactly when every todo is completed |
| TodoList.ReplaceById | components/TodoList.tsx:56 | the rows with the id become the updated todo and all other rows stay, in place |
| TodoList.RemoveById | components/TodoList.tsx:66 | exactly the todos with another id remain, in order |
| TodoList.SetAllCompleted | components/TodoList.tsx:77 | every todo gets the given flag and nothing else changes |
| TodoList.RemoveCompleted | components/TodoList.tsx:87 | exactly the active todos remain, in order |
| TodoList.FetchTodos | components/TodoList.tsx:21-33 | a fetch shows the user's view and clears the error; a failure keeps the list and sets the fetch error; loading ends either way |
| TodoList.AddTodo | components/TodoList.tsx:35-51 | a blank draft does nothing; otherwise the created todo with the trimmed title is put first and the draft cleared; a failure only sets the add error |
| TodoList.ToggleTodo | components/TodoList.tsx:53-61 | toggling updates the server row and replaces the local copy with the server's answer; a failure only sets the update error |
| TodoList.DeleteOne | components/TodoList.tsx:63-71 | a delete removes the todo on the server and locally; a failure only sets the delete error |
| TodoList.ToggleAll | components/TodoList.tsx:73-82 | toggle-all completes everything unless everything is already completed, in which case it reopens everything, on the server and locally |
| TodoList.ClearCompleted | components/TodoList.tsx:84-92 | clear-completed removes the completed todos on the server and locally |
| TodoList.ToggleAllActiveCount | components/TodoList.tsx:74-77 | after toggle-all either nothing or everything is active |
| TodoList.ToggleAllTwice | components/TodoList.tsx:74-77 | toggling all twice restores a list whose todos were all completed or all active |
| TodoList.ClearKeepsActiveCount | components/TodoList.tsx:87-94 | clearing completed todos keeps the active count and leaves no completed todo |
| TodoList.AddInSync | components/TodoList.tsx:45 | putting a newer created todo first keeps the local list equal to a fresh fetch |
| TodoList.ToggleInSync | components/TodoList.tsx:56 | replacing the toggled todo with the server's answer keeps the local list equal to a fresh fetch |
| TodoList.DeleteInSync | components/TodoList.tsx:66 | filtering out the deleted todo keeps the local list equal to a fresh fetch |
| TodoList.ClearInSync | components/TodoList.tsx:87 | filtering out the completed todos keeps the local list equal to a fresh fetch |
| TodoList.ToggleAllInSync | components/TodoList.tsx:76-77 | after toggle-all the local list equals a fresh fetch except for the update time, which only the server stamps |
| TodoList.FailureChangesNothing | components/TodoList.tsx:47-50 | every failing handler leaves the table and the shown list as they were |
| AdminData.RoundDiv | components/AdminPortal.tsx:158 | `Math.round(a / b)`: the nearest integer to the quotient, halves rounded up |
| AdminData.RoundDivWithin | components/AdminPortal.tsx:158 | a quotient between two bounds rounds to a value between them |
| AdminData.RoundedPercentBounds | components/admin/tabs/StudentManagementTab.tsx:28 | the rounded percentage of a part of a whole lies between 0 and 100 |
| AdminPortal.FirstName | components/AdminPortal.tsx:164 | the chart label is the name up to its first space, or "Unknown" without a name |
| AdminPortal.ComputeClassStats | components/AdminPortal.tsx:156-170 | the class totals are the sums over the students, the at-risk count is the number of at-risk students, and the average win rate is rounded and is 0 for an empty class |
| AdminPortal.PnlChart | components/AdminPortal.tsx:163-167 | one bar per student, as a permutation, largest P&L first, green exactly for a non-negative P&L |
| AdminPortal.AverageWinRateWithin | components/AdminPortal.tsx:158 | when every win rate is a percentage, so is the class average |
| AdminPortal.PnlDataHasEveryStudent | components/AdminPortal.tsx:163-167 | every student's bar is in the chart |
| AdminPortal.DirectoryStudents | components/AdminPortal.tsx:173-178 | the directory lists exactly the students whose present name or email contains the search, ignoring case, and whose status passes the filter, in order |
| AdminPortal.EmptySearchListsContactable | components/AdminPortal.tsx:173-178 | an empty search with the "all" filter lists exactly the students that have a name or an email |
| AdminPortal.NamelessNeverListed | components/AdminPortal.tsx:174-175 | a student with neither name nor email is never listed |
| AdminPortal.UniquePairs | components/AdminPortal.tsx:183 | the pair filter offers each pair of the journal exactly once and nothing else, as a subsequence of the trades' pairs, each listed before any pair first seen later |
| AdminPortal.FirstPairFirst | components/AdminPortal.tsx:183 | the first trade's pair is the first option of the pair filter |
| AdminPortal.JournalTrades | components/AdminPortal.tsx:187-197 | the journal shows exactly the trades matching the search and both filters, as a permutation of the filtered trades, newest first |
| AdminPortal.JournalIsSortedThenFiltered | components/AdminPortal.tsx:187-197 | the shown journal is the whole journal in date order with the hidden trades removed |
| AdminPortal.PairFilterNarrows | components/AdminPortal.tsx:193 | choosing a pair only shows trades of that pair, each of which the "all" filter also shows |
| AdminPortal.JournalWinRate | components/AdminPortal.tsx:207 | the win rate is 0 without trades and NaN exactly when there are trades but none is decided; otherwise it is the rounded share of wins among decided trades, a percentage |
| AdminPortal.OpenTradeWinRate | components/AdminPortal.tsx:204-207 | a journal showing a single open trade has a win rate of NaN |
| AdminPortal.WinRateExtremes | components/AdminPortal.tsx:207 | only wins give 100 and only losses give 0 |
| AdminPortal.Analyse | components/AdminPortal.tsx:203-220 | the analytics count the shown trades, wins and losses, sum the P&L, and give one entry per pair with its total, largest first |
| AdminPortal.PairDataSumsToNet | components/AdminPortal.tsx:208-217 | the pair totals add up to the net P&L |
| AdminPortal.PairEntriesAreShownPairs | components/AdminPortal.tsx:210-217 | every entry of the pair chart is the pair of a shown trade, with that pair's total |
| AdminPortal.EveryShownPairCharted | components/AdminPortal.tsx:210-217 | every pair of a shown trade has its entry in the pair chart |
| AdminPortal.PairNamesDistinct | components/AdminPortal.tsx:210-217 | no pair has two entries in the pair chart |
| AdminPortal.DefaultRevenue | components/AdminPortal.tsx:116-123 | the revenue placeholder is six zero months, January to June 2023 |
| AdminPortal.CourseLabel | components/AdminPortal.tsx:126 | a course name longer than 20 characters is cut to 20 plus an ellipsis, a shorter one is kept, and a missing one becomes "Unknown Module" |
| AdminPortal.RevenueSeries | components/AdminPortal.tsx:114-123 | the fetched revenue series unless missing or empty, else the placeholder; never empty |
| AdminPortal.CourseSeries | components/AdminPortal.tsx:124-131 | one labelled row per fetched course with the rate defaulted to 0, or the single placeholder row |
| AdminPortal.ViolationSeries | components/AdminPortal.tsx:132-139 | one row per fetched rule with the name and count defaulted, or the single placeholder row |
| AdminPortal.ChartSeriesOf | components/AdminPortal.tsx:112-140 | every dashboard series is non-empty and its labels are present |
| Grouping.GroupBySum | components/AdminPortal.tsx:210-213 | summing the per-key totals gives the sum over all elements |
| Grouping.GroupTotalAppend | components/AdminPortal.tsx:211-213 | accumulating one more element adds its value to its own key's total only |
| Grouping.AbsentKeyTotal | components/AdminPortal.tsx:212 | a key that does not occur has total zero, like `pairStats[k] \|\| 0` |
| StudentManagement.WinShare | components/admin/tabs/StudentManagementTab.tsx:28 | the win rate is 0 without trades, else the rounded share of wins among all trades; always a percentage |
| StudentManagement.Enhance | components/admin/tabs/StudentManagementTab.tsx:19-42 | a student's statistics are recomputed from their own trades alone; the other fields are kept, and the recent trades are their first three |
| StudentManagement.EnhanceIgnoresOthers | components/admin/tabs/StudentManagementTab.tsx:22 | another student's trade never changes a student's statistics |
| StudentManagement.RowOf | components/admin/tabs/StudentManagementTab.tsx:45-57 | a table row copies the student, with "Unknown", "free" and "inactive" standing in for a missing name, tier and status |
| StudentManagement.Table | components/admin/tabs/StudentManagementTab.tsx:45 | one row per student, in the list's order |
| StudentManagement.FilterRows | components/admin/tabs/StudentManagementTab.tsx:59-64 | exactly the rows whose name, email or tier contains the search, ignoring case, and whose tier passes the filter, in order |
| StudentManagement.EmptySearchShowsAll | components/admin/tabs/StudentManagementTab.tsx:59-64 | an empty search with the "all" filter shows every row |
| StudentManagement.TierlessCountsAsFree | components/admin/tabs/StudentManagementTab.tsx:49 | a student without a tier is listed under the "free" filter |
| StudentManagement.StartEdit | components/admin/tabs/StudentManagementTab.tsx:66-75 | editing opens a form holding the row's fields and changes nothing else |
| StudentManagement.CancelEdit | components/admin/tabs/StudentManagementTab.tsx:148-151 | cancelling closes the form and changes nothing else |
| StudentManagement.CancelUndoesEdit | components/admin/tabs/StudentManagementTab.tsx:66-75 | starting and then cancelling an edit restores the state |
| StudentManagement.UpdateNotice | components/admin/tabs/StudentManagementTab.tsx:104-110 | a failed save reports a missing profile first, then a permission error (code "403" or a message mentioning permission), else a generic failure |
| StudentManagement.DeleteNotice | components/admin/tabs/StudentManagementTab.tsx:138-142 | a failed delete reports a permission error exactly as a save does, else a generic failure |
| StudentManagement.DeniedAlike | components/admin/tabs/StudentManagementTab.tsx:104-142 | save and delete agree on what a permission error is, unless the profile is missing |
| StudentManagement.SaveEdit | components/admin/tabs/StudentManagementTab.tsx:77-114 | without a form or id nothing happens; otherwise name, email and tier are sent; success closes the form, shows the banner and refreshes; failure keeps the form and classifies the error |
| StudentManagement.StatusNeverSaved | components/admin/tabs/StudentManagementTab.tsx:85-89 | the form's status is never sent: forms differing only in status make the same call |
| StudentManagement.SavingNamelessWritesUnknown | components/admin/tabs/StudentManagementTab.tsx:47 | saving a nameless student's form unchanged writes "Unknown" as the name |
| StudentManagement.DeleteStudent | components/admin/tabs/StudentManagementTab.tsx:116-146 | a declined confirmation does nothing; otherwise the profile is deleted, with a success banner and a refresh or a classified error |
| StudentManagement.TierBadge | components/admin/tabs/StudentManagementTab.tsx:153-161 | purple, blue and green exactly for elite, professional and foundation, ignoring case; gray for any other tier |
| StudentManagement.StatusBadge | components/admin/tabs/StudentManagementTab.tsx:163-170 | green and yellow exactly for active and at-risk, ignoring case; gray for any other status |
| StudentManagement.BadgesIgnoreCase | components/admin/tabs/StudentManagementTab.tsx:154-164 | a name and its lower-case form get the same badge |
| CommunityHub.Kept | components/CommunityHub.tsx:45 | the kept classes are exactly the truthy arguments' names, one per truthy argument, in argument order |
| CommunityHub.TextsInOrder | components/CommunityHub.tsx:45 | truthy arguments taken in order keep their names in order among all the arguments' texts |
| CommunityHub.Cx | components/CommunityHub.tsx:45 | no truthy class gives "", a single one gives itself |
| CommunityHub.CxSplitsBack | components/CommunityHub.tsx:45 | splitting the composed string at spaces gives back exactly the truthy classes, in order |
| CommunityHub.CxIgnoresFalsy | components/CommunityHub.tsx:45 | a falsy argument anywhere leaves the composed string as it would be without it |
| CommunityHub.Capitalize | components/CommunityHub.tsx:49 | every letter that starts a word is upper-cased and every other character kept |
| CommunityHub.CapitalizeKeepsLetters | components/CommunityHub.tsx:49 | capitalising changes letter case only |
| CommunityHub.CapitalizeIdempotent | components/CommunityHub.tsx:49 | capitalising twice is capitalising once |
| CommunityHub.FormatTierName | components/CommunityHub.tsx:47-50 | no tier shows "Free"; any other tier is shown with its first "-pending" dropped and capitalised |
| CommunityHub.SettledTierName | components/CommunityHub.tsx:47-50 | a tier without the pending marker is shown as itself, capitalised |
| CommunityHub.PendingTierName | components/CommunityHub.tsx:47-50 | a pending tier is shown like the tier it waits for |
| CommunityHub.AccessExclusive | components/CommunityHub.tsx:118-119 | no one is both pending and premium; no tier gives neither; every tier gives exactly one |
| CommunityHub.PremiumLinks | components/CommunityHub.tsx:140-143 | exactly the Telegram and WhatsApp links, in order |
| CommunityHub.SocialLinks | components/CommunityHub.tsx:145-148 | exactly the other links, in order |
| CommunityHub.LinksPartitioned | components/CommunityHub.tsx:140-148 | the two lists split the links: together they hold each link as often as it occurs, and none is in both |
| CommunityHub.LoadLinks | components/CommunityHub.tsx:121-138 | a null list loads as empty, a failure sets the error and keeps the links, a reply after unmounting is dropped, and loading ends either way |
| CommunityHub.JoinCommunity | components/CommunityHub.tsx:161-193 | a pending user only sees the pending notice; otherwise confetti fires and the effects are exactly: the platform recorded for a signed-in user, then the callback, then the link opened unless the callback threw; the welcome stays when neither throws and the error notice replaces it when either does |
| CommunityHub.UnmountedKeepsLinks | components/CommunityHub.tsx:121-138 | once the hub has unmounted, no reply changes the links it shows |
| CommunityHub.FailedLoadKeepsLinks | components/CommunityHub.tsx:129-131 | a failed load keeps the links and sets the error |
| CommunityHub.LoadLinksIdempotent | components/CommunityHub.tsx:121-138 | delivering the same reply twice leaves the hub as delivering it once |
| CommunityHub.PendingJoinIdempotent | components/CommunityHub.tsx:161-166 | a pending user's join shows the notice only, asks nothing of the outside world, and repeating it changes nothing |
| CommunityHub.JoinOpensLast | components/CommunityHub.tsx:168-186 | a join that opens the link opens it last, and only once |
| AdminContext.ParseTab | components/admin/AdminPortalContext.tsx:94-99 | a name parses exactly when it is one of the nine tab names, to the tab of that name |
| AdminContext.TabNamesRoundTrip | components/admin/AdminPortalContext.tsx:17-26 | every tab's name is valid and parses back to that tab |
| AdminContext.RestoreTab | components/admin/AdminPortalContext.tsx:82-87 | the saved tab is restored when valid; otherwise the overview |
| AdminContext.ReopensOnSavedTab | components/admin/AdminPortalContext.tsx:82-92 | the tab saved on leaving is the tab the portal reopens on |
| AdminContext.Defaulted | components/admin/AdminPortalContext.tsx:129-138 | each of the ten series is kept when present and becomes empty (the metrics an empty record) when null |
| AdminContext.FetchData | components/admin/AdminPortalContext.tsx:102-146 | when all ten fetches succeed every series is replaced and the error cleared; when any fails nothing is replaced and the error is set; loading ends either way |
| AdminContext.RefreshData | components/admin/AdminPortalContext.tsx:268-272 | a refresh is a load that ends with the refresh indicator off |
| AdminContext.RefreshIdempotent | components/admin/AdminPortalContext.tsx:268-272 | refreshing twice with the same answers is refreshing once |
| AdminContext.FailureKeepsLastGoodData | components/admin/AdminPortalContext.tsx:129-142 | a failed refresh keeps the last successful data, and a success erases an earlier failure |
| AdminContext.FetchStudents | components/admin/AdminPortalContext.tsx:149-156 | reloading the students replaces them, with null as empty; a failure is swallowed |
| AdminContext.ChangeProfile | components/admin/AdminPortalContext.tsx:158-178 | a profile change refetches the students exactly when the service call succeeds, rethrows its failure, and changes nothing but the students |
| AdminContext.SaveThroughPortal | components/admin/AdminPortalContext.tsx:158-167 | through the portal, the tab's banner reports exactly the service's outcome, even when the refetch after a success fails |
| Migration.Statements | supabase/apply-migration.js:26-29 | the statements are the trimmed pieces between semicolons that are not empty, in order: each is non-empty, trimmed and free of semicolons, every non-empty trimmed piece is among them, and there is one per non-empty piece |
| Migration.KeptPieces | supabase/apply-migration.js:28-29 | dropping the empty ones from trimmed pieces keeps every non-empty piece, in order, one per non-empty position, each trimmed and free of semicolons |
| Migration.StatementsAfterPiece | supabase/apply-migration.js:26-29 | text cut at its first semicolon gives the first piece, trimmed, unless blank, followed by the statements of the rest |
| Migration.ToRun | supabase/apply-migration.js:32-36 | the executed statements are, in order, exactly those not opening with "--", one per such statement |
| Migration.SemicolonAlwaysSplits | supabase/apply-migration.js:27 | a semicolon inside a quoted SQL string still splits the statement |
| Migration.SingleStatement | supabase/apply-migration.js:26-29 | a trimmed non-empty text without semicolons is one statement |
| Migration.CommentHidesStatement | supabase/apply-migration.js:33-36 | a statement whose first line is a comment is skipped whole, SQL after the comment included |
| Migration.ApplyMigration | supabase/apply-migration.js:17-53 | the statements run in order; the run exits 0 only when all were sent and accepted, and exits 1 right after the first rejected one, without sending another |
| Migration.RunStatements | supabase/apply-migration.js:32-46 | the loop sends a prefix of the non-comment statements, all accepted but possibly the last, which was rejected exactly when the exit code is 1 |
| Migration.PrefixOfRun | supabase/apply-migration.js:32-46 | what runs from a prefix of the statements is a prefix of what runs from all of them |
| Text.JoinSplit | supabase/apply-migration.js:27 | joining the pieces of `split` with the separator gives the text back |
| Text.SplitJoin | components/CommunityHub.tsx:45 | splitting undoes joining when no piece holds the separator |
| Seqs.CountIndices | components/TodoList.tsx:94 | `filter` keeps exactly one element per position that satisfies the test |
| Seqs.Dedup | components/AdminPortal.tsx:183 | `Array.from(new Set(s))` holds each element of `s` once and nothing else, in the order of first occurrence |
| Seqs.FilterIsSubsequence | components/TodoList.tsx:66 | `filter` keeps elements in their original relative order |
| Seqs.SortFilter | components/AdminPortal.tsx:187-197 | sorting then filtering equals filtering then sorting, for the stable sort |
| Seqs.SumBySort | components/AdminPortal.tsx:215-217 | sorting does not change a sum |

## Left out

- Case mapping, trimming and the white-space class cover ASCII letters and the usual white-space characters only. JavaScript's full Unicode tables are not modelled, and strings are sequences of characters rather than UTF-16 code units.
- `JSON.stringify` and `JSON.parse` are modelled for the two-field verdict object only, without string escaping. Decoding is proved for quote-free fields. The pretty-printed JSON of other objects is an input of the model.
- Dates are integer timestamps and P&L, win rates and percentages are integers. Rounded shares are computed exactly, as the nearest integer to a rational with halves rounded up; the double-precision quotient the source rounds is not modelled (see the two win-rate lines below). The one `NaN` the journal's win rate can produce is modelled. Invalid dates, and the `NaN` comparisons they cause in the sort, are left out.
- `Object.entries` lists the pair totals in first-occurrence order. Integer-like keys, which JavaScript lists first, are not treated specially. The pair chart is therefore stated as a permutation of the groups.
- The order Postgres gives rows with equal `created_at` is modelled as table order.
- The backend and the browser are parameters rather than models. This covers Supabase, its row-level security and error texts, the trade validator, the file reader for chart images, `localStorage`, `window.confirm` and `window.open`.
- Real-time rule subscriptions and the rule loading in the trade assistant are left out. The loaded rules are a parameter.
- Timers are left out: the `setTimeout` calls that clear banners and toasts, the spinner timings and `scrollIntoView`.
- Console logging, confetti animation details, the sparkline, charts and every other piece of presentation (class names beyond the badge colours, icons, layout) are left out.
- `apply-migration.js` reads its file with `readFileSync`; the model takes the text as a parameter. Missing environment variables and a thrown read error both end the script with exit code 1 before any statement; the model starts after those checks. `process.exit` is modelled as the returned exit code.
- The admin context's `isRefreshing` is reset after `fetchData` returns. `fetchData` never rejects, because it catches every error, so the model omits the path where it would.
- The remaining individual fetchers of the admin context (trades, links, plans, metrics and the series) each replace one series or log an error. They are not modelled separately from `FetchData`.
- The login page and the rest of the application outside these components are not part of this model.
- TradeAssistant.Analyse: a validator call that rejects is modelled as leaving the chat busy with no draft, since the source does not catch the rejection. The unhandled rejection itself is not modelled.
- StudentManagement.WinShare: the source rounds the double `(wins / total) * 100`, which can fall just below a half: for 23 wins in 40 trades the source shows 57 where the model gives 58, and for 29 in 200 it shows 14 where the model gives 15. The model promises the exact rounded share.
- AdminPortal.JournalWinRate: the same double rounding applies to `(wins / (wins + losses)) * 100`, so at the same ratios the source shows one less than the model.
- TradeAssistant.Apply: the text box and send button are also disabled while the rules load; rule loading is not modelled, so that guard is not either.
- CommunityHub.Cx: its own contract covers no class and one class; the general case is stated by CxSplitsBack, through the contract of Kept, for class names without spaces.
