# A verified model of the Stalwart event notifier

The repository receives webhook events from a Stalwart mail server, filters them, and sends them
through Telegram to the users who subscribed with a bot. This Dafny project models the parts of it
that carry state or transform text, in the form the Go code has, and proves what they promise.
`dafny verify dfyconfig.toml` checks all of it.

## How it is laid out

* `Grouping.dfy`, `GroupingRuns.dfy`, `GroupingProgress.dfy`: the grouping protocol as a step
  machine. Webhook goroutines, timer callbacks, the clock and the counting of results interleave
  freely; a critical section is one step. The state holds every buffer ever allocated, so that
  aliasing between the map, a callback and a timer can be talked about, and a history of calls,
  flushed groups and send attempts. The invariant is kept by every step, and the theorems are
  about every run.
* `GroupedDelivery.dfy`: bot updates, webhook events and the steps of the grouping machine in one
  machine, from a subscription to the attempts made with a group.
* `Ledger.dfy`: request goroutines working through their events beside the grouping machine, with
  the counters; the accounts balance at every point of every run.
* `Refinement.dfy`: what the methods of the service do on an event and on a timer are runs of the
  ledger's machine, so that the theorems about runs and the accounts are about the service's own
  buffers and counters.
* `Service.dfy`, `Server.dfy`: the same code as objects with fields, one method for each Go
  function or locked section. `Groups.Enqueue` and `Groups.Take` are proved to do to their maps
  and buffers exactly what the machine's locked steps do. `ProcessEvent` and `HandleWebhook` have
  their whole new state as postcondition.
* `Dedup.dfy`: the deduplicator with its eviction loop, against a history that forgets nothing.
* `Filter.dfy`: quiet hours, severity and ignored addresses, and the filter chain on streams.
* `Storage.dfy`, `Bot.dfy`, `Commands.dfy`, `Preferences.dfy`, `Menu.dfy`: tables, the update handler,
  what each text and button asks for, what holds of the tables over whole runs, and the keyboards.
* `Delivery.dfy`, `Notifier.dfy`: from "subscribed through the bot" to "a send was attempted at that
  chat", over any interleaving of updates and events, and the same for the handler and the endpoint
  as objects that share one store.
* `I18n.dfy`, `Markup.dfy`, `Formatter.dfy`, `Metrics.dfy`: templates, a reader for the HTML
  subset that is sent, message texts, and the text form of the counters.
* `Webhook.dfy`, `Events.dfy`, `Decimal.dfy`, `Text.dfy`, `Sums.dfy`, `Wrappers.dfy`: payloads, the
  table of event types, decimal numbers, strings, sums.

Calls that leave the process are parameters: whether a database call fails, whether a send
succeeds, what the clock shows, how a time or a JSON value is printed, which time zones exist. A
ghost argument such as `text`, `judge`, `turn` or `step` only gives a name to a function that the other
arguments determine; it constrains no caller.

## Where the code does not do what one would expect

* A language tag is trimmed before it is cut at the separator, so `en -US` is stored as a code with
  a blank at its end, whether it comes from the user's client (`BlankBeforeDashSlipsThrough`) or from
  a button (`BlankInButtonSlipsThrough`). This happens exactly to tags with white space between a
  supported primary subtag and the separator (`InitialLocaleExact`, `ChosenLocaleExact`), and over a
  run every stored row is good at every point if and only if no update does it (`StoredPrefsExact`).
* The result of `T` can depend on the order in which Go ranges over the parameters: nothing checks
  the configured time zone, and if that is `{{short}}` the preferences summary has two possible texts
  (`BracesInValuesDependOnOrder`). The order never matters exactly if no value holds the placeholder
  of another parameter that does not stand for itself (`OrderFreeIff`); where only one value is beyond
  control, exactly if that one mentions no other parameter (`OneOpenValueExact`).
* With grouping a user is sent all events of a group, also those that came before the user subscribed
  (`OthersAreToldToo`). A user gets a group exactly if the user was subscribed when some event of it
  came (`DeliveredInGroups`).
* The guard in `flushGrouped` for a missing or empty buffer is dead code (`GuardNeverTaken`).

## Model

| member | source | states |
|---|---|---|
| `Grouping.PairedEnqueue` | internal/notifications/service.go:146-159 | Enqueueing keeps timers that are still to take the lock and live buffers paired by key |
| `Grouping.TakeFindsOwn` | internal/notifications/service.go:164-168 | A callback that gets the lock looks up the very buffer its timer was armed for |
| `Grouping.InvKept` | internal/notifications/service.go:142-181 | Every step of every interleaving keeps the protocol's invariant: pairing, contents and ages of buffers, spacing, log, order, attempts |
| `Grouping.InvHolds` | internal/notifications/service.go:142-181 | So every reachable state satisfies it |
| `GroupingRuns.GroupsPartitionCalls` | internal/notifications/service.go:146-168 | Per event type, the flushed groups one after another followed by the live buffer are all the enqueued events, in order |
| `GroupingRuns.GuardNeverTaken` | internal/notifications/service.go:165-171 | In no run does a callback find no buffer or an empty one; it always finds the one it was armed for |
| `GroupingRuns.TimersMatchBuffers` | internal/notifications/service.go:147-153 | Live buffers and timers still to take the lock are in bijection by key, in every reachable state |
| `GroupingRuns.DetachedIsFrozen` | internal/notifications/service.go:165-174 | Once a buffer has left the map no later step of any thread changes its events or users |
| `GroupingRuns.NeverEarly` | internal/notifications/service.go:144-153 | Successive buffers of one type are created at least a window apart, and none is flushed before its window is over |
| `GroupingRuns.OneHome` | internal/notifications/service.go:146-168 | No enqueued event is in two buffers |
| `GroupingRuns.ExactlyOneAttempt` | internal/notifications/service.go:173-180 | At any point of any run, for every enqueued event and every user looked up for it, there is one group with the event, and one send attempt to the user with it once the callback has come to that user, none before and none with another group |
| `GroupingRuns.AttemptsWithCall` | internal/notifications/service.go:173-180 | The same count for any user at all: attempts with the event are those of the one group that has it |
| `GroupingProgress.NextStep` | internal/notifications/service.go:164-181 | A callback that is not done always has a step it can take, and comes closer to its end by it |
| `GroupingProgress.DrainTimer` | internal/notifications/service.go:164-181 | From any reachable state one callback can run to its end without disturbing any other |
| `GroupingProgress.AllCallsCanBeDelivered` | internal/notifications/service.go:142-181 | From any reachable state the process can go on, without new events, until each looked-up user has had exactly one attempt with each event |
| `GroupingProgress.WorkIsDone` | internal/notifications/service.go:164-181 | However it goes on without new events, the steps its callbacks make and the work left add up to the work there was |
| `GroupingProgress.EveryContinuationDelivers` | internal/notifications/service.go:142-181 | So every such continuation makes at most that many callback steps, has all callbacks returned exactly after that many, cannot stop for good before, and then has delivered everything exactly once |
| `GroupingProgress.OthersAreToldToo` | internal/notifications/service.go:155-158 | A run in which a user gets an event for which only somebody else was looked up |
| `GroupingProgress.WithinOneWindow` | internal/notifications/service.go:144-155 | If the clock never passes a due timer, an event is flushed at most one window after it was enqueued and the events of a group lie within one window |
| `Ledger.InvKept` | internal/httpserver/server.go:99-112 | Every step of requests, filters, lookups, sends and callbacks keeps the three accounts |
| `Ledger.AccountsBalance` | internal/notifications/service.go:61-103 | Received = unknown + handed over + queued; handed over = skipped + lookup failed + dispatched + undecided; sent + failed + recipients pending = recipients of direct dispatches + users of flushed groups, at every point |
| `Ledger.AccountsAtRest` | internal/notifications/service.go:173-180 | When all goroutines have ended nothing is pending in these accounts |
| `Ledger.GroupsRun` | internal/notifications/service.go:90-92 | The grouping part of every run with requests is a run of the grouping machine, so its theorems apply |
| `Ledger.BooksAreCounters` | internal/notifications/service.go:61-103 | At every point of every run the entries of the books for received, skipped, sent and failed are the sums of what the steps have added to the program's four counters of these names |
| `Ledger.RequestsAreCounted` | internal/httpserver/server.go:99-100 | And there have been as many requests as are counted |
| `Refinement.FlushRuns` | internal/notifications/service.go:164-181 | Trying each user of a fired timer's buffer once, in any order, is a run of the machine: the callback takes the buffer, sends and counts once for each user, and returns; one attempt for each user is added and nothing else changes |
| `Refinement.Flush` | internal/notifications/service.go:164-181 | What `FlushGrouped` does in the service when that timer fires is such a run: it finds its buffer, which has events, tries exactly its users, each once, with a text of all its events, and leaves the same map and counters as the run |
| `Refinement.GroupReachesUsers` | internal/notifications/service.go:173-203 | So every user of the group whose preferences can be read gets exactly one call, with a text of the group in that user's language and zone, and nobody else gets any |
| `Refinement.GroupTextShowsEvents` | internal/notifications/formatter.go:50-71 | Under a title as the catalogs have it, that text has one code span for each event of the buffer, its ID, in order |
| `Refinement.GroupTextIs` | internal/notifications/formatter.go:56-71 | And the title says how many events of which type there are, over one line for each with the time in the user's zone |
| `Refinement.ProcessedRuns` | internal/notifications/service.go:61-104 | All that the service does on an event is done by a request goroutine of the machine, from taking the event off its queue until it is back in its loop, with the same buffers and the same counters |
| `Refinement.Process` | internal/notifications/service.go:61-104 | So `ProcessEvent` keeps the service and the machine in agreement |
| `Refinement.RequestCoupled` | internal/httpserver/server.go:99-102 | A request counts itself and its events as the machine does when it adds a goroutine for them |
| `Refinement.CountersBalance` | internal/notifications/service.go:61-103 | And as long as they agree, the three accounts hold of the service's own counters |
| `Service.Groups.Enqueue` | internal/notifications/service.go:142-159 | The locked section does to map, buffers and timers what the machine's step does |
| `Service.Groups.Take` | internal/notifications/service.go:164-168 | The locked section removes the entry and hands out the buffer that was live under the key |
| `Service.Service.SendEvent` | internal/notifications/service.go:120-140 | One call with the user's own text in the user's locale and zone, if the preferences can be read and the user ID is a chat ID, and no call otherwise |
| `Service.Service.SendToAll` | internal/notifications/service.go:95-102 | The loop makes the calls of all users in order; `notifications_sent` grows by the number of users whose preferences can be read, whose ID is a chat ID and whose send succeeds, and `notifications_failed` by the number of the others |
| `Service.Service.SendToGroup` | internal/notifications/service.go:173-180 | In whatever order the users come, each is tried exactly once with the text of the whole group; the two counters grow by the numbers of users reached and not reached |
| `Service.ListsOnce` | internal/notifications/service.go:173-180 | The order in which the users of a group are tried has each of them once and nobody else |
| `Service.Service.FlushGrouped` | internal/notifications/service.go:164-181 | The buffer leaves the map; if it has events, the users tried are exactly its users, each once, each with a text of exactly its events |
| `Service.Service.Distribute` | internal/notifications/service.go:81-103 | From the lookup on: error, skip, buffer or send, with the whole new state |
| `Service.Service.ProcessEvent` | internal/notifications/service.go:61-104 | The whole new state of deduplicator, buffers, timers, counters and messenger after an event, and when it returns an error |
| `Service.ProcessedCounts` | internal/notifications/service.go:61-103 | An event is counted as skipped exactly if it is of a supported type and blocked, or found to have no subscribers; without grouping its subscribers are counted as sent or failed one by one, and not if the lookup fails |
| `Server.Server.HandleEvents` | internal/httpserver/server.go:102-112 | The loop gives the events to the service one after another, with IDs filled in and unknown types left out |
| `Server.FirstEventFirst` | internal/httpserver/server.go:102-112 | The events of a request are handled first to last |
| `Server.Server.HandleWebhook` | internal/httpserver/server.go:74-116 | Status and new state of a request: refused and unparseable ones change nothing, others count themselves and their events first |
| `Dedup.Deduplicator.constructor` | internal/notifications/dedup.go:18-28 | The window is 60 seconds if none is configured |
| `Dedup.Deduplicator.ShouldNotify` | internal/notifications/dedup.go:30-55 | The answer is that of a deduplicator that remembers every acceptance for ever; the new entry survives the eviction |
| `Dedup.EvictionRefines` | internal/notifications/dedup.go:42-53 | From the purged map the answer is the same as from the whole history, and the map goes on abbreviating it |
| `Dedup.Deduplicator.Evict` | internal/notifications/dedup.go:48-53 | The loop deletes exactly the entries before the cutoff, in whatever order the map gives |
| `Dedup.PurgedIs` | internal/notifications/dedup.go:42-53 | After an accepted call the map has its key, now, and those others not older than a window, unchanged; after a suppressed one it is as before |
| `Dedup.AcceptedAreSeparated` | internal/notifications/dedup.go:43-46 | Accepted calls of one key are pairwise at least the window apart |
| `Dedup.SuppressedIsCovered` | internal/notifications/dedup.go:43-45 | A suppressed call has an accepted call of its key less than a window before it |
| `Dedup.AcceptedAreOptimal` | internal/notifications/dedup.go:42-46 | No other window-separated selection of the calls of a key is larger |
| `Dedup.AcceptedInSpan` | internal/notifications/dedup.go:42-46 | At most L / window + 1 calls of a key are accepted in any span of length L |
| `Dedup.KeysFaithful` | internal/notifications/dedup.go:34-37 | Events share a key if and only if they agree on type and source address, a missing address counting as the literal no-ip |
| `Dedup.RegisteredHaveNoSeparator` | internal/events/registry.go:19-31 | Supported types satisfy the premise of that |
| `Filter.QuietHoursAreCyclic` | internal/notifications/filter.go:15-27 | Quiet hours are membership in a cyclic interval: the minutes from start to now are fewer than those from start to end |
| `Filter.AheadIs` | internal/notifications/filter.go:22-26 | Those minutes are differences modulo a day |
| `Filter.QuietHoursPartition` | internal/notifications/filter.go:23-26 | A window and the swapped one split the day; equal ends are never quiet |
| `Filter.QuietMinutes` | internal/notifications/filter.go:15-27 | The number of quiet minutes is (end - start) modulo a day |
| `Filter.ParseHourMinuteExact` | internal/notifications/filter.go:29-44 | Exactly the times of the day are accepted, white space around them aside: two numbers with a colon between them, 0 to 23 and 0 to 59; and as 60 times the one plus the other |
| `Filter.ParsePrintedTime` | internal/notifications/filter.go:29-44 | Parsing inverts zero-padded HH:MM printing |
| `Filter.PassesSeverityIs` | internal/notifications/filter.go:11-13 | Minimum severity info lets every type through, warning the alert and warning types, which are named, and alert the alert types only |
| `Filter.PassesExactly` | internal/notifications/service.go:106-116 | An event gets past the filters if and only if its address is not listed for its type, its type is severe enough and the minute is not in the quiet interval |
| `Filter.ShouldNotify` | internal/notifications/service.go:106-118 | The answer and the deduplicator's map; nothing whose address is listed or whose type is not severe enough is notified; the deduplicator is asked last, and not at all about blocked events |
| `Filter.BlockedIsInvisible` | internal/notifications/service.go:106-118 | Inserting or deleting an event that is ignored, below the minimum severity or in quiet hours, anywhere in a stream, changes no decision on any other event, nor the deduplicator's map |
| `Delivery.SubscribedIffLastSaysYes` | internal/bot/handler.go:123-185 | After any requests a user is subscribed to a type if and only if the last request that says anything about the two subscribes |
| `Delivery.StoredAreMade` | internal/bot/update_handler.go:24 | Only printed numeric IDs, or the empty one, are ever stored |
| `Delivery.MadeNames` | internal/notifications/service.go:134 | Such an ID is parsed as chat n if and only if it is n, printed |
| `Delivery.CallsTo` | internal/notifications/service.go:95-102 | Of the calls for a list of different users exactly one goes to chat n if n is listed and n's preferences can be read, none otherwise |
| `Delivery.DeliveredToTheSubscribed` | internal/notifications/service.go:81-102 | Over any interleaving of updates and events, without grouping, the calls to chat n are in order those owed: one for each event past the filters while n's last word on its type was to subscribe, in n's language and zone, unless the lookup of the subscribers or of n's preferences failed, and no other |
| `Delivery.EnqueuedForTheSubscribed` | internal/notifications/service.go:90-92 | With grouping an event past the filters is buffered with exactly the users whose last word was to subscribe |
| `GroupedDelivery.ReceiveIsProcessed` | internal/notifications/service.go:61-93 | What the combined machine does on an event is what the service does |
| `GroupedDelivery.GroupsRun` | internal/notifications/service.go:90-92 | The groups of a combined run are a run of the grouping machine |
| `GroupedDelivery.DeliveredInGroups` | internal/notifications/service.go:142-181 | Once all callbacks of a run have returned, each event enqueued is in one group, and each user has been tried with it exactly once, with that group, if and only if the user's last word on its type was to subscribe when some event of the group came |
| `GroupedDelivery.SubscribedIsDelivered` | internal/notifications/service.go:81-93 | In particular whoever was subscribed when an event past the filters came has been tried once with a group that has it |
| `Notifier.Drive` | internal/httpserver/server.go:99-112 | Handler and endpoint on one store, driven by a trace, leave the tables and the service of that trace |
| `Notifier.Run` | internal/notifications/service.go:81-102 | So the messenger's real log has, for every chat, just the calls that the trace makes the service owe |
| `Decimal.ParsePrint` | internal/notifications/service.go:134 | strconv.ParseInt inverts printing with %d on 64-bit numbers and refuses others |
| `Storage.Store.Subscribe` | internal/storage/postgres.go:65-79 | Inserts the trimmed pair, tells whether it was new, and does nothing on an error |
| `Storage.Store.SubscribeAll` | internal/storage/postgres.go:81-93 | Inserts all pairs, or those before the first failing insertion, and returns the exact growth of the relation |
| `Storage.Store.Unsubscribe` | internal/storage/postgres.go:95-102 | Deletes the pair and tells whether it was there |
| `Storage.Store.UnsubscribeAll` | internal/storage/postgres.go:104-110 | Deletes a user's pairs and returns how many those were |
| `Storage.Store.GetSubscriptions` | internal/storage/postgres.go:112-128 | The user's types, strictly ascending |
| `Storage.Store.GetSubscribers` | internal/storage/postgres.go:130-146 | The type's users, strictly ascending |
| `Storage.ViewsAgree` | internal/storage/postgres.go:112-146 | u is among the subscribers of e if and only if e is among the subscriptions of u |
| `Storage.Store.SetPrefs` | internal/storage/postgres.go:161-186 | Empty fields keep their current value; one row changes, or none on an error |
| `Storage.Store.SubscribersCount` | internal/storage/postgres.go:253-259 | The number of distinct users, or nothing on an error |
| `Storage.Store.UsersWithSubscriptionCount` | internal/storage/postgres.go:302-322 | One row with the right count for each user, by descending count and then by user, or nothing on an error |
| `Storage.CountsAddUp` | internal/storage/postgres.go:302-307 | The counts add up to the size of the relation, in as many rows as SubscribersCount says |
| `Bot.Handler.HandleUpdate` | internal/bot/update_handler.go:11-43 | The tables after an update are those of the decoded request, broken off at whatever call of the store fails; updates without text, target or access change nothing |
| `Bot.Handler.HandleMessage` | internal/bot/handler.go:35-79 | The switch over commands and menu captions, with preferences initialised first, up to the first call that fails |
| `Bot.Handler.HandleCallback` | internal/bot/handler.go:81-104 | The prefix dispatch of button presses, likewise |
| `Bot.Handler.HandlePrefsCallback` | internal/bot/handler.go:239-284 | The choice of a language, a time zone or the short mode is stored if it is valid and no call fails |
| `Bot.FaultFree` | internal/bot/handler.go:35-79 | If no call fails, the request does all that it asks for |
| `Bot.Handler.EnsurePrefs` | internal/bot/handler.go:424-436 | Empty fields of the user's row are filled in, unless one of the three calls fails; then nothing changes |
| `Bot.EnsureTwice` | internal/bot/handler.go:424-436 | Doing so twice is doing it once |
| `Bot.CommandsParse` | internal/bot/handler.go:518-546 | A command word followed by an argument is taken apart into just these |
| `Commands.TypedParses` | internal/bot/handler.go:518-546 | So is a command in capital or small letters, with or without the bot's name after it, and whatever follows the argument |
| `Commands.PlainlyTyped` | internal/bot/handler.go:518-546 | In particular a slash, the word, a blank and the argument are such a text, which trimming leaves alone |
| `Commands.SubscribeMeans` | internal/bot/handler.go:123-136 | /subscribe all asks to subscribe to everything, /subscribe and a registered type to that type, and with anything else for nothing |
| `Commands.UnsubscribeMeans` | internal/bot/handler.go:153-160 | /unsubscribe all asks to give up everything, /unsubscribe and any other word to give up that type |
| `Commands.LanguagesMean` | internal/bot/handler.go:286-300 | A language tag chooses its primary subtag in small letters if that is one of the eight listed codes, and nothing otherwise |
| `Commands.TimezoneMeans` | internal/bot/handler.go:302-319 | /timezone chooses a zone if and only if there is one of that name |
| `Commands.ShortMeans` | internal/bot/handler.go:321-335 | /short chooses the short mode with on, true, 1 or yes, and the long one with any other word |
| `Commands.CaptionsMean` | internal/bot/handler.go:52-55 | The captions with all subscribe to everything and give up everything, with or without the sign in front; those without all change nothing |
| `Commands.BareCommandsMeanNothing` | internal/bot/handler.go:131-136 | A command without its argument changes nothing |
| `Commands.OtherTextsMeanNothing` | internal/bot/handler.go:46-78 | No other text and no other command changes anything |
| `Commands.EventButtonsMean` | internal/bot/handler.go:92-98 | Buttons of the lists of types subscribe to and give up the type they carry |
| `Commands.ChoiceButtonsMean` | internal/bot/handler.go:256-274 | Buttons of the preferences choose the language they carry, and the zone if it is not blank and exists |
| `Commands.ShortButtonsMean` | internal/bot/handler.go:275-280 | And the short mode on and off |
| `Commands.SubscribeStores` | internal/bot/handler.go:138-151 | After a message with /subscribe and a registered type the user's printed ID and that type are stored, unless another user alone is allowed; no other pair changes |
| `Commands.UnsubscribeDeletes` | internal/bot/handler.go:175-185 | After one with /unsubscribe that pair is not, and no other changes |
| `Commands.AllMeansAll` | internal/bot/handler.go:123-130 | With the argument or a caption for all, all registered types are stored, or all pairs of the user deleted |
| `Commands.LanguageStores` | internal/bot/handler.go:286-300 | After /lang with a listed language that code is in the user's row |
| `Commands.TimezoneStores` | internal/bot/handler.go:302-319 | After /timezone with a zone that exists, that zone is |
| `Commands.ShortStores` | internal/bot/handler.go:321-335 | After /short with a word, the mode that the word stands for is |
| `Commands.SubscribeButtonStores` | internal/bot/handler.go:93-95 | Pressing a registered type in the list of types to subscribe to stores the user's printed ID and that type, and nothing else |
| `Commands.UnsubscribeButtonDeletes` | internal/bot/handler.go:96-98 | Pressing one in the other list deletes that pair, and nothing else |
| `Commands.LanguageButtonStores` | internal/bot/handler.go:256-265 | The button of a listed language stores its code |
| `Commands.TimezoneButtonStores` | internal/bot/handler.go:266-274 | The button of a zone that exists stores that zone |
| `Commands.ShortButtonsStore` | internal/bot/handler.go:275-280 | And the short mode on and off |
| `Commands.OthersChangeNothing` | internal/config/config.go:144-149 | If one user is configured, nothing that anybody else sends or presses changes any table |
| `Commands.AnonymousActs` | internal/bot/update_handler.go:15-32 | A message without a sender counts as one of the user with the empty ID; one without text does nothing |
| `Commands.FirstChoices` | internal/bot/handler.go:424-436 | A new user's row has the client's language if that is listed, else the default one, and the default zone; what was stored stays |
| `Preferences.InitialLocaleExact` | internal/bot/handler.go:474-480 | The first locale stored is a supported code or the default if and only if the tag has no white space between a supported primary subtag and its first separator, or the default is the text so cut off; the latter cannot be if the default is trimmed |
| `Preferences.ChosenLocaleExact` | internal/bot/handler.go:256-262 | The same for the locale that choosing a language stores |
| `Preferences.BlankBeforeDashSlipsThrough` | internal/bot/handler.go:564-571 | A tag for which it is neither |
| `Preferences.BlankInButtonSlipsThrough` | internal/bot/handler.go:256-262 | And a button for which it is neither |
| `Preferences.UpdateExact` | internal/bot/handler.go:239-334 | One update keeps every stored locale a supported code or the default, every zone valid or the default and every field filled, if and only if neither the language it chooses nor, for a user without a locale, the user's tag has such white space |
| `Preferences.StoredPrefsExact` | internal/bot/handler.go:239-334 | Over any run, all rows are so at every point if and only if each update is of that kind |
| `Preferences.StoredPrefsAreGood` | internal/bot/handler.go:239-334 | So over any run with tags and chosen languages free of inner white space, every stored locale is a supported code or the resolved default, every zone valid or the configured default, and no field is empty |
| `Preferences.StoredPrefsSurviveFaults` | internal/bot/handler.go:239-334 | And that whatever calls of the store fail on the way |
| `Preferences.NeverEmptyAgain` | internal/storage/postgres.go:166-171 | Whatever is requested, a field that holds something never becomes empty again |
| `Preferences.NeverEmptyWhateverFails` | internal/storage/postgres.go:161-186 | Nor if calls of the store fail on the way |
| `Preferences.OneFieldOfOneUser` | internal/bot/handler.go:256-280 | An update of an initialised user changes at most one field of that user's row and no other row |
| `Preferences.ActionTakesEffect` | internal/bot/handler.go:256-280 | The field a preference action is about gets the value asked for |
| `Preferences.EnsuredKeeps` | internal/bot/handler.go:424-436 | Initialising overwrites nothing that is there, and fills the rest |
| `Preferences.SubscriptionsAreRegistered` | internal/bot/handler.go:138-142 | Every stored subscription is to a registered type |
| `Preferences.RegisteredWhateverFails` | internal/storage/postgres.go:81-93 | Also if calls of the store fail, in the middle of subscribing to all for instance |
| `Menu.EventInlineKeyboard` | internal/bot/menu.go:72-82 | One row for each type, in order, with the prefixed type as data, then the exit row |
| `Menu.LanguageInlineKeyboard` | internal/bot/menu.go:93-112 | For any list, rows of two of which only the last may be short and none is empty; entry i is button i % 2 of row i / 2, marked if it is the current one; then the navigation row |
| `Menu.TimezoneInlineKeyboard` | internal/bot/menu.go:114-133 | The same for time zones |
| `Menu.DecodeInvertsBuild` | internal/bot/handler.go:92-103 | The dispatch takes a generated sub:, unsub:, prefs:lang: or prefs:tz: string apart into the action and argument it was made from |
| `Menu.LanguageButtonsDecode` | internal/bot/handler.go:245-265 | Every button of a language keyboard decodes to the choice of a listed language |
| `Menu.FixedChoicesDecode` | internal/bot/menu.go:135-163 | So do the fixed buttons |
| `Menu.SummaryButtonsDecode` | internal/bot/handler.go:245-255 | The buttons of the preferences summary open the three lists |
| `Webhook.FindSourceIP` | internal/webhook/webhook.go:100-111 | The loop returns trimmed text, and nothing exactly if no field has any |
| `Webhook.FirstTextIs` | internal/webhook/webhook.go:100-111 | The first field in order that holds text that is not blank wins |
| `Webhook.SourceIPIs` | internal/webhook/webhook.go:100-111 | So remoteIp counts before ip and that before source_ip |
| `Webhook.ParsePayload` | internal/webhook/webhook.go:64-94 | Events are normalised one by one in order: trimmed, with a time and data |
| `I18n.T` | internal/i18n/i18n.go:65-84 | The template of the locale or else of the default locale with its placeholders replaced in some order, or the key itself if there is none |
| `I18n.ResolveIs` | internal/i18n/i18n.go:57-63 | A tag is resolved to its primary subtag in small letters if that has a catalog, whatever region and case it has, and otherwise to the default locale |
| `I18n.GermanIsFound` | internal/i18n/i18n.go:57-63 | So de, DE, de-AT and de_AT are all de |
| `I18n.OrderFreeIff` | internal/i18n/i18n.go:80-82 | For names without braces and values made of brace-free text and placeholders: every order gives the same text on every clean template if and only if no value holds the placeholder of another parameter that does not stand for itself |
| `I18n.IndependentIsSimultaneous` | internal/i18n/i18n.go:80-82 | Then replacing one name after another, in any order, is filling all holes at once; unbound placeholders stay |
| `I18n.IndependentWillDo` | internal/i18n/i18n.go:65-84 | So that is what T returns |
| `I18n.OneOpenValueExact` | internal/i18n/i18n.go:80-82 | If all values but one are without placeholders, T can return only one text for a clean template that mentions that one, if and only if it mentions no other parameter |
| `I18n.OneParameter` | internal/i18n/i18n.go:80-82 | With one parameter the order never matters, whatever template and value are |
| `I18n.SequentialIsSimultaneous` | internal/i18n/i18n.go:80-82 | In particular for values without braces |
| `I18n.AnyOrderWillDo` | internal/i18n/i18n.go:80-82 | So whatever the loop of T can return on them is the template with all holes filled at once, whichever order the map gives |
| `I18n.BracesInValuesDependOnOrder` | internal/bot/handler.go:226-236 | With `{{short}}` as the configured time zone T can return two texts for any summary that shows the zone |
| `Markup.ReadEscaped` | internal/notifications/formatter.go:25-44 | A reader of the markup takes escaped text as exactly the text that was escaped |
| `Markup.CompleteCode` | internal/notifications/formatter.go:39 | An escaped value between code tags is balanced, and its one code span, unescaped, is the value |
| `Formatter.ValueToString` | internal/notifications/formatter.go:126-142 | The loop over nested lists prints what the recursive definition says |
| `Formatter.ValueTextIs` | internal/notifications/formatter.go:126-142 | Blank text is shown as a dash, a list as its items with commas between them, nothing as nothing |
| `Formatter.PickFields` | internal/notifications/formatter.go:109-124 | The loop with its set of seen keys picks the fields in order |
| `Formatter.PickedAreFields` | internal/notifications/formatter.go:109-124 | What is picked is a present field with its printed value |
| `Formatter.PickedMissNone` | internal/notifications/formatter.go:109-124 | Every present field that is asked for is picked |
| `Formatter.PickedOnce` | internal/notifications/formatter.go:113-116 | None is picked twice |
| `Formatter.PickedInOrder` | internal/notifications/formatter.go:109-124 | They come in the order of the keys |
| `Formatter.RegisteredHaveKeys` | internal/notifications/formatter.go:78-107 | Exactly the registered types have a list of keys of their own |
| `Formatter.ShownAre` | internal/notifications/formatter.go:32-35 | Of such a type all picked values are shown, or in a short notification the first three |
| `Formatter.LinesAre` | internal/notifications/formatter.go:24-47 | Each line of a notification, as text |
| `Formatter.FormatEventMessage` | internal/notifications/formatter.go:16-48 | The text is the lines of title, heads, details and link, joined |
| `Formatter.NotificationReadsBack` | internal/notifications/formatter.go:24-47 | Whatever the event's data, the text is balanced markup, and its code spans, unescaped, are the type, the ID and the shown field values in order |
| `Formatter.FormatGroupedMessage` | internal/notifications/formatter.go:50-71 | The title with its parameters filled in and a line for each event; nothing for no events |
| `Formatter.GroupLineIs` | internal/notifications/formatter.go:64-70 | The line of an event, as text: its ID as code, its address or no-ip, its time |
| `Formatter.GroupReadsBack` | internal/notifications/formatter.go:56-70 | The text is balanced markup and its code spans after the title's are the event IDs in order |
| `Formatter.GroupTitleComplete` | internal/notifications/formatter.go:56-62 | For a supported type and a balanced template, the filled-in title is balanced |
| `Formatter.GroupTextReadsBack` | internal/notifications/formatter.go:50-71 | Whichever order its title was filled in, the text of a group is balanced markup, and its code spans are those of the filled-in title and then the event IDs |
| `Formatter.BoldTemplateBalanced` | internal/notifications/formatter.go:56-62 | Titles of the shape that the catalogs have are balanced templates |
| `Formatter.ShippedGroupReadsBack` | internal/notifications/formatter.go:50-71 | With such a title the code spans of a group's text are its event IDs and nothing else |
| `Service.EventTextReadsBack` | internal/notifications/service.go:125-133 | What a user is sent about an event is balanced markup and reads back as type, ID and the values that user's preferences show |
| `Service.EventTextShows` | internal/notifications/formatter.go:32-41 | The values that a user is shown are those of all present keys of the type's list, or the first three of them if the user wants short notifications |
| `Service.EventTextIs` | internal/notifications/service.go:125-133 | The text is in the user's language and the date in the user's zone; a blank choice counts as none |
| `Metrics.Metrics.Inc` | internal/notifications/metrics.go:25-29 | One counter grows by the increment, with 64-bit wrap-around |
| `Metrics.WrapIs` | internal/notifications/metrics.go:25-29 | The result fits 64 bits and differs from the exact sum by a multiple of 2^64 |
| `Metrics.CounterIsTotal` | internal/notifications/metrics.go:25-29 | A counter is the wrapped sum of its increments, and the sum itself as long as that fits |
| `Metrics.Metrics.RenderPrometheus` | internal/notifications/metrics.go:31-46 | The text has an entry for each counter, once, in ascending order of names |
| `Metrics.RenderingIsCanonical` | internal/notifications/metrics.go:35-44 | Any ascending list of the names gives that same text, so it does not depend on the order in which the map is walked |
| `Metrics.SortStrings` | internal/notifications/metrics.go:39 | The names sorted: ascending, the same ones, none lost |
| `Metrics.RenderingReadsBack` | internal/notifications/metrics.go:41-44 | For names without white space, parsing the text gives back exactly the counters, each name once and in ascending order |
| `Metrics.EntryIs` | internal/notifications/metrics.go:43 | An entry is a type line and a value line, as text |

## Left out

- PostgreSQL itself: driver, connections, migrations, SQL text and collation. Queries are modelled
  by their effect on the two tables; rows are ordered by code point.
- Service.Service.ProcessEvent: without StoreEvent and StoreBlockedIP; they write tables that only
  reports read, and their errors are only logged, so nothing else depends on them.
- Bot.Handler.HandleUpdate: without the bot's replies, reports and help texts and without the error it
  returns, which is only logged; the model says what an update does to the tables.
- Bot.Handler.HandleMessage: likewise; the commands that only report change nothing.
- Bot.Handler.HandleCallback: likewise, and without the menus it edits.
- Telegram and HTTP: a send is a call that is recorded and succeeds or not.
- Server.Server.HandleWebhook: starts from whether signature and password checks passed, and without the
  limit on the size of the body.
- JSON, RFC 3339 parsing, printing of times, the time zone database: parameters. Numbers and
  objects in event data come with the text that fmt prints for them.
- Start and stop, the purge ticker and the health check. Buffers pending when the process stops are
  lost, so delivery is stated for runs that go on.
- The wall clock going back: the deduplicator's readings, taken under its lock, carry Go's monotonic
  clock and are taken not to decrease.
- Loading of configuration and catalogs from files; what is asked of catalogs other than the shipped
  shape (balanced tags, well-formed placeholders) is a premise.
- Values and templates with stray braces: `OrderFreeIff` is about brace-free text and placeholders.
- Unicode: trimming and lower case are modelled for ASCII.
- Saturation of durations and instants far outside the range of dates: times are unbounded integers.
- The mutexes: a critical section is one atomic step of the machines and one method of the classes.
  The interleavings are in the machines; a class method runs alone. Where the model splits a Go
  function into several methods, the one that carries its name is the whole.
- Preferences.StoredPrefsExact: for updates handled one after another; nothing locks a user's row
  between reading and writing it.
- Delivery.DeliveredToTheSubscribed: for runs in which the calls of the store that the bot makes do not
  fail, and without grouping; what such a fault does is in `Bot.Handler.HandleUpdate`, and delivery
  with grouping in `GroupedDelivery.DeliveredInGroups`.
- Refinement.Process: for one event at a time; other goroutines' steps between those of one event are in
  the machines only.
