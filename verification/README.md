# Verified model of the marketplace's trickiest logic

Dafny models of the parts of the monorepo where a mistake is easy to make and
hard to see, and machine-checked proofs of what they promise.
`dafny verify dfyconfig.toml` checks everything.

## What is modelled

**Bearer tokens on the web client** (`SessionTracking`, `AuthTokens`,
`AuthProtocol`, `AuthGuarantees`, `AuthEffects`). Every tRPC batch resolves a token against a
shared session tracker, token cache, in-flight mint, sign-out epoch and
post-401 window. The tracker and the resolver are classes; each stretch of code
between two awaits is one atomic method, proved against a function. The
functions are the steps of a system of any number of batches, interleaved with
session readings, mint replies, timeouts, responses, sign-outs and the clock.
The theorems hold on every finite run of it: `AuthGuarantees` says what never
happens, `AuthEffects` what every call, reply and response brings about.

**The session-read retry** (`SessionReadRetry`). Timer, visibility listener and
backoff step, over every history of readings, fires and cancels.

**The location scrubber.** `ScrubText` is the one-pass scanner, loop by loop;
`CoordinatePairs` the coordinate pattern, as a regular expression with its
meaning (`Regexes`) and as the deterministic matcher the scanner uses;
`ScrubKeys` says which keys are sensitive, `ScrubTokens` what the scanner takes
for a quoted string, a key and a value, `ScrubValues` where a value ends,
`ScrubCuts` what a pass leaves alone and `ScrubMarks` that the scanner's shortcuts
change nothing; `ScrubJson`, `ScrubPairs` and `ScrubRefinement` prove that
scrubbing printed JSON is printing redacted JSON; `ScrubPlain` states that without
the scanner, `ScrubNested` for documents inside quoted strings, and `ScrubLines`
for the `key: value` text of logs. `ScrubMessage` is the length cut. `ScrubGraph`
is the budgeted walk over an object graph with sharing and cycles,
`ScrubGraphMeaning` what it computes, `ScrubGraphBudgets` what its budgets cost.

**The ICU argument scanner** (`IcuArguments`, `IcuExtraction`). Two mutually
recursive readers over one shared index, and the exact extraction theorem over
message syntax trees.

**Failed jobs** (`DeadLetters`, `JobRuns`, `JobEffects`, `RerunClaims`). The dead-letter
store, what the run route records, and the claim that keeps reruns apart,
against a Redis whose commands may answer, fail without effect, or apply and
lose their reply (`Replies`), while others change the store between any two
commands. A throw is an outcome that goes to the enclosing `catch`, so each
guard of the run route can be taken away and missed.

**Drain wake-ups** (`DrainFlights`, `DrainWakeUps`, `DrainEffects`). The
single-flight of write-triggered drains, and requests interleaved at their awaits.

**Smaller algorithms.** The flat message index against the dotted lookup
(`Catalogs`), the shared-cache cookie guard (`CookieGuard`), DER to raw ECDSA and
base64url (`EcdsaSignatures`), error codes and their i18n keys (`ErrorCodes`).

## Where the code falls short of its comments

Each of these is a lemma with a concrete input, a concrete run or the exact
condition; where a promise fails, a lemma beside it says for all inputs when the
code does meet it.

- A token minted for a signed-out session can still go out when the sign-out
  lands in the awaits between the resolver's answer and the batch's fetch
  (`AuthGuarantees.SignOutInsideTheHop`, `AuthGuarantees.SentTokenIsCurrentIff`).
- The length cut of a message can split a coordinate pair whose bracket is more
  than 500 characters before the limit
  (`ScrubMessage.PositionCanBeSplit`, `ScrubMessage.PositionLeftOutIff`).
- A wake-up can be acknowledged and then dropped: when its request is disabled,
  breaks off or throws, when it comes after the follow-up loop has looked for the
  last time, or when the rest is handed to a trigger that is absent or fails
  (`DrainWakeUps.AckedWakeUpCanBeDropped`, `DrainWakeUps.WakeUpIsDroppedIff`).
- Two wake-up runs of one drain can go on side by side once a run that is not a
  wake-up has replaced the first one's flight
  (`DrainWakeUps.OverlapNeedsReplacement`, `DrainWakeUps.SecondRunCanStartIff`).
- `resolveMessage` reads inherited properties, so a key such as
  `constructor.name` finds a message that no catalog holds
  (`Catalogs.InheritedNameIsNotIndexed`, `Catalogs.IndexAgreesWithLookupIff`).
- A clean settle or a `cancel` from inside `refetchSession` does not stop the
  retry loop (`SessionReadRetry.FireKeepsTheLoopIff`).
- A doubled apostrophe inside a quoted ICU literal ends the quote early unless an
  apostrophe, a brace or the literal's end follows it
  (`IcuExtraction.ApostropheInQuotesMisleads`, `IcuExtraction.QuotedReadsExactlyIff`).
- A dead-letter push leaves the other entries alone only while the queue has room,
  and a failed run is lost when its own entry is the one that is pruned
  (`DeadLetters.PushPrunesNothingIff`, `DeadLetters.PushKeepsIff`, `JobRuns.LostIff`).

## Model

| member | source | states |
|---|---|---|
| SessionTracking.SessionTracker.constructor | apps/web/src/trpc.ts:138-150 | a new tracker is pending, never settled, and has handed out no promise |
| SessionTracking.SessionTracker.WaitForSettle | apps/web/src/trpc.ts:154-164 | nothing to wait for when settled; otherwise the one promise of the pending stretch, created at most once |
| SessionTracking.SessionTracker.MarkSettleTimedOut | apps/web/src/trpc.ts:165-168 | marks a pending stretch, and only a pending one |
| SessionTracking.SessionTracker.Update | apps/web/src/trpc.ts:169-196 | a pending reading keeps every settled field, a settled one replaces them, clears the mark and releases the waiters |
| SessionTracking.TrackerRefinesHistory | apps/web/src/trpc.ts:138-198 | every field is a fold over the readings alone, whatever the order of calls; a mark or a live waiter implies pending; a failed read excludes signed-in |
| SessionTracking.WaiterReleasedByFirstLaterSettle | apps/web/src/trpc.ts:154-197 | a waiter is released by the first later settle, and by nothing before it |
| AuthTokens.AuthTokenResolver.MintShared | apps/web/src/trpc.ts:582-597 | joins the in-flight attempt of this epoch, or starts one |
| AuthTokens.AuthTokenResolver.Enter | apps/web/src/trpc.ts:611-642 | from the call to the first await: shortcut, settle wait, or straight on |
| AuthTokens.AuthTokenResolver.EndSettleWait | apps/web/src/trpc.ts:643-670 | after the settle wait: mark a timeout, re-read the snapshot and the cache, stop for a known sign-out |
| AuthTokens.AuthTokenResolver.Proceed | apps/web/src/trpc.ts:680-702 | anonymous bail, fresh cache, post-401 window, then a mint |
| AuthTokens.AuthTokenResolver.SettleMint | apps/web/src/trpc.ts:589-593 | a settling attempt drops its own handle only |
| AuthTokens.AuthTokenResolver.EndMintWait | apps/web/src/trpc.ts:598-608 | a timed-out wait drops its own handle only and reports no result |
| AuthTokens.AuthTokenResolver.ReturnFromMint | apps/web/src/trpc.ts:708-772 | epoch check, store a token, evict on a 401 only what the batch saw, stale fallback up to ten minutes |
| AuthTokens.AuthTokenResolver.SignOut | apps/web/src/lib/auth/auth-epoch.ts:40-47 | the epoch moves and the cache is emptied in one step |
| AuthProtocol.StepKeepsInv | apps/web/src/trpc.ts:543-780 | every step of every interleaving keeps the protocol invariant, and no attempt is forgotten, re-epoched or re-answered |
| AuthGuarantees.SignOutIsolation | apps/web/src/trpc.ts:543-714 | the cached token and every token answered come from an attempt of the epoch current at that step |
| AuthGuarantees.NoTokenSurvivesSignOut | apps/web/src/trpc.ts:704-710 | after a sign-out no attempt started before it supplies an answered token, nor is it ever cached again |
| AuthGuarantees.SentTokenIsCurrentIff | apps/web/src/trpc.ts:775-779 | the token a request goes out with is of the current epoch exactly when no sign-out came between the answer and the fetch |
| AuthGuarantees.SignOutInsideTheHop | apps/web/src/trpc.ts:775-779 | two runs, the sign-out before or after the hand-over, in which a signed-out session's token goes out all the same |
| AuthGuarantees.SignOutResetsAfterEveryDelivery | apps/web/src/trpc.ts:828-855 | a sign-out whose query reset starts is later than every hand-over of a token so far; requests still under way are not covered |
| AuthGuarantees.MintStartJustified | apps/web/src/trpc.ts:622-702 | a mint starts only with a cached token, before any settle, or after a signed-in or failed reading |
| AuthGuarantees.MintStartsAlone | apps/web/src/trpc.ts:582-597 | a mint starts only when every attempt of the epoch is answered or abandoned |
| AuthGuarantees.LateAttemptKeepsNewerHandle | apps/web/src/trpc.ts:589-605 | a handle is dropped only by its own attempt or replaced after a sign-out |
| AuthGuarantees.CacheEntryOnlyLostTo | apps/web/src/trpc.ts:712-753 | a cache entry is lost only to a sign-out, a fresh token, or a 401 whose batch saw that very entry |
| AuthGuarantees.HeldStepStartsNothing | apps/web/src/trpc.ts:567-573 | a step inside the post-401 window starts no mint and no second refetch |
| AuthGuarantees.SuppressedWindowIsQuiet | apps/web/src/trpc.ts:549-573 | nor does any run of steps for as long as the window holds |
| AuthGuarantees.TokenProvenance | apps/web/src/trpc.ts:689-773 | a bypassing call is served only by its own mint; any other also by the cache under the TTL, or under ten minutes after its own mint failed |
| AuthGuarantees.AnonymousOnlyWhen | apps/web/src/trpc.ts:622-772 | the complete list of reasons for which a call is answered without a token |
| AuthGuarantees.AtMostOneRetry | apps/web/src/trpc.ts:1129-1185 | a batch is sent at most twice, and one that is not a GET is re-sent only after a 401 |
| AuthGuarantees.EveryOwnStepIsProgress | apps/web/src/trpc.ts:1146-1185 | every step of a batch brings it nearer its end; nothing else moves it |
| AuthGuarantees.AnswersWithinBounds | apps/web/src/trpc.ts:399-414 | with timers on time every call is answered within the settle bound plus the mint bound |
| AuthEffects.UnauthorizedMintTakesEffect | apps/web/src/trpc.ts:739-753 | a 401 from the mint in the current epoch: the cache is emptied if it still holds what the batch saw, and then, unless a window is open, one is opened at this reading and time and the session is read again; a cache that has changed leaves all three as they were |
| AuthEffects.EvictionSilencesMints | apps/web/src/trpc.ts:549-573 | and in every continuation within that window no mint starts and no second refetch fires |
| AuthEffects.MintedTokenIsStored | apps/web/src/trpc.ts:712-738 | a minted token is cached with its time and answered, and a session whose last read failed is read again |
| AuthEffects.OtherMintsChangeNothing | apps/web/src/trpc.ts:704-772 | any other mint changes nothing, and only a first call of the epoch then falls back on the entry it saw, under ten minutes old |
| AuthEffects.MintWaitEnds | apps/web/src/trpc.ts:582-608 | a wait that ends in time has the attempt's own reply; one that times out lets go of the attempt and counts as failed |
| AuthEffects.CallWaitsIff | apps/web/src/trpc.ts:611-642 | a call waits for the session exactly when it is pending with nothing cached and not already known signed out on a stretch that timed out |
| AuthEffects.CallGoesOn | apps/web/src/trpc.ts:680-702 | any other call is answered with nothing, with the fresh cached token, or starts or joins a mint of this epoch, and the conditions for each are complete |
| AuthEffects.SettleWaitGoesOn | apps/web/src/trpc.ts:643-702 | so is a call that has waited, by the reading it then finds |
| AuthEffects.TimedOutWaitIsMarked | apps/web/src/trpc.ts:643-670 | a wait that times out marks the pending stretch and changes nothing else of the reading |
| AuthEffects.ReplyAndRequest | apps/web/src/trpc.ts:582-593 | a mint's reply is kept as given and its handle dropped; a token handed over is the one sent; a second call without a token sends nothing |
| AuthEffects.ResponseIsRetriedIff | apps/web/src/trpc.ts:1129-1185 | a response leads to the bypassing second call exactly for a 401, or a 207 to a GET sent without a token; any other ends the batch |
| AuthEffects.SignOutResetsIff | apps/web/src/trpc.ts:828-855 | a sign-out resets the queries exactly when someone has signed in since the last reset, unless the reset throws |
| SessionReadRetry.Scheduler.Arm | apps/web/src/trpc.ts:372-375 | arms the timer unless a timer or a listener is held |
| SessionReadRetry.Scheduler.CancelRetry | apps/web/src/trpc.ts:320-329 | drops both, keeps the backoff step |
| SessionReadRetry.Scheduler.PauseUntilVisible | apps/web/src/trpc.ts:337-349 | registers the listener once, and only with a document |
| SessionReadRetry.Scheduler.OnTimer | apps/web/src/trpc.ts:351-370 | pauses while hidden, else grows the step, re-reads and arms the next timer, whatever readings and cancels the re-read makes from inside |
| SessionReadRetry.Scheduler.OnVisibilityChange | apps/web/src/trpc.ts:339-346 | back to visible, the listener gives way to a timer |
| SessionReadRetry.Scheduler.OnReading | apps/web/src/trpc.ts:378-388 | a transient failure arms, a clean settle resets and stops, a pending reading changes nothing |
| SessionReadRetry.DelayIsJittered | apps/web/src/trpc.ts:331-335 | every delay is within 20% of the capped step, up to rounding, and never negative |
| SessionReadRetry.LoopIsNeverStrandedNorDoubled | apps/web/src/trpc.ts:293-391 | on every history, calls from inside re-reads included: exactly one of timer and listener while a retry is wanted, neither otherwise; the step is the number of re-reads since the last clean settle, up to the cap |
| SessionReadRetry.StepStaysBounded | apps/web/src/trpc.ts:357-358 | the doubled step stays below twice the maximum, however long the outage |
| SessionReadRetry.FireKeepsTheLoopIff | apps/web/src/trpc.ts:351-370 | a fire keeps the loop in step with what is wanted exactly when the last word of the calls made inside the re-read is not a clean settle or a cancel |
| SessionReadRetry.DelayFollowsRandom | apps/web/src/trpc.ts:331-335 | the delay is the capped step scaled by a factor that runs from 0.8 to 1.2 with the random number, rounded |
| SessionReadRetry.DelayDoublesUpToTheMaximum | apps/web/src/trpc.ts:351-375 | in every run the timer is armed within 20% of the base doubled once per re-read since the last clean settle, or of the maximum |
| SessionReadRetry.ListensWhileHidden | apps/web/src/trpc.ts:337-361 | in every run the listener is held exactly from a fire that finds the tab hidden until the tab is shown or the loop ends, and no timer beside it |
| CoordinatePairs.ReadPairDecidesThePattern | packages/errors/src/scrub-location-pii.ts:274-283 | the matcher finds a coordinate pair exactly where the regular expression matches, with the same end |
| ScrubKeys.SensitiveKeysAreTheSpellings | packages/errors/src/scrub-location-pii.ts:76-142 | a key is sensitive exactly when it spells a listed name, whatever its case, underscores, hyphens and blanks |
| ScrubText.FindQuoteClose | packages/errors/src/scrub-location-pii.ts:307-317 | the closing quote on the line past escapes, or where the scan stopped |
| ScrubText.FindAfterKeyColon | packages/errors/src/scrub-location-pii.ts:320-326 | just past a key separator, a URL's `://` excluded |
| ScrubText.CheckStartsKeyAt | packages/errors/src/scrub-location-pii.ts:335-359 | does a quoted key or a dotted path with a colon start here |
| ScrubText.FindContainerEnd | packages/errors/src/scrub-location-pii.ts:367-385 | the index the recursive bracket scan gives |
| ScrubText.FindBareStop | packages/errors/src/scrub-location-pii.ts:396-424 | the first loop of that scan: where a bare value stops |
| ScrubText.FindBareValueEnd | packages/errors/src/scrub-location-pii.ts:396-427 | where a bare value ends, before a line break, a key or an enclosing bracket |
| ScrubText.FindLineCut | packages/errors/src/scrub-location-pii.ts:437-489 | how far a value on the following lines reaches |
| ScrubText.FindSensitiveValue | packages/errors/src/scrub-location-pii.ts:437-489 | the region a sensitive key's value is cut in, and its replacement |
| ScrubText.CheckQuotedValue | packages/errors/src/scrub-location-pii.ts:495-503 | does a quoted value change when unescaped and scrubbed, three levels deep |
| ScrubText.Advance | packages/errors/src/scrub-location-pii.ts:528-570 | one turn of the scanner is one move of the specification, with the same cut |
| ScrubText.AdvanceQuoted | packages/errors/src/scrub-location-pii.ts:537-551 | the turn at a quoted string: a key, or a value kept or replaced whole |
| ScrubText.AdvanceWord | packages/errors/src/scrub-location-pii.ts:552-568 | the turn at a bare identifier: a key, or text |
| ScrubText.ScrubTextAt | packages/errors/src/scrub-location-pii.ts:514-573 | the loop over cursor and output computes the recursive scan, then the coordinate pass |
| ScrubCuts.ScanIsSplice | packages/errors/src/scrub-location-pii.ts:514-571 | the scan strictly advances, its cuts are ordered and disjoint, and everything outside them stands in order |
| ScrubTokens.QuoteCloseExact | packages/errors/src/scrub-location-pii.ts:302-317 | a quote closes at the next one of its kind after an even number of backslashes, unless a line break or the end comes first |
| ScrubTokens.KeyColonExact | packages/errors/src/scrub-location-pii.ts:320-326 | a key's colon: after blanks only, and not that of a `://` |
| ScrubTokens.StartsKeyExact | packages/errors/src/scrub-location-pii.ts:335-359 | a key starts exactly at a quoted string of at most 199 characters, or at a dotted path that continues no word, of at most 256 characters with no identifier over 64, with a colon behind it |
| ScrubTokens.EndersExact | packages/errors/src/scrub-location-pii.ts:411-476 | a comma ends a bare value before a key and at the end of its line; a line ends a value with a key or a closing bracket |
| ScrubTokens.SensitiveValueExact | packages/errors/src/scrub-location-pii.ts:429-489 | what is cut after a sensitive key, and its replacement, for every shape of value and every text |
| ScrubTokens.WordIsReadExactly | packages/errors/src/scrub-location-pii.ts:552-568 | a bare word is a key exactly when it has at most 64 characters, continues no word and a colon follows; a sensitive one's value is cut, and else it is text |
| ScrubTokens.QuotedIsReadExactly | packages/errors/src/scrub-location-pii.ts:528-551 | a quoted string is a key exactly when a colon follows it, and else a value, replaced whole when it is sensitive |
| ScrubCuts.ContainerEndExact | packages/errors/src/scrub-location-pii.ts:367-385 | the container scan answers exactly the first unquoted bracket that brings the depth back to zero, or that there is none |
| ScrubValues.BareEndExact | packages/errors/src/scrub-location-pii.ts:387-427 | a bare value ends exactly at the first unquoted, unbracketed closing bracket or ending comma, or at the end of its line |
| ScrubValues.LineCutExact | packages/errors/src/scrub-location-pii.ts:458-476 | a value on the following lines is cut exactly up to the first line that starts a key or closes a bracket, or to the end of the text |
| ScrubValues.UncutMeansNoValue | packages/errors/src/scrub-location-pii.ts:429-489 | fail closed: when nothing is cut after a sensitive key, only white space stands before the end, a key, a closing bracket or an ending comma |
| ScrubMarks.LinearScanIsPlainScan | packages/errors/src/scrub-location-pii.ts:505-535 | the line marks that keep the scan linear change nothing: a scanner that retries every quote gives the same output on every text |
| ScrubJson.SensitiveValueIsTheValue | packages/errors/src/scrub-location-pii.ts:396-489 | in printed JSON a sensitive key's whole value is cut, whatever its shape, and nothing more |
| ScrubPairs.ReplacedIsPairFree | packages/errors/src/scrub-location-pii.ts:572 | after the coordinate pass no coordinate pair is left anywhere in any text |
| ScrubPairs.KeptStringIsPairFree | packages/errors/src/scrub-location-pii.ts:495-503 | a quoted value the scanner keeps holds no coordinate pair |
| ScrubRefinement.ScrubOfPrintIsPrintOfRedact | packages/errors/src/scrub-location-pii.ts:319-573 | for every JSON value, escapes and nested strings included, scrubbing its text gives the text of the redacted value |
| ScrubPlain.ScrubOfPlainIsRedactionByKey | packages/errors/src/scrub-location-pii.ts:505-513 | on plain values that is redaction by key, stated without the scanner |
| ScrubPlain.SensitiveValuesDoNotShow | packages/errors/src/scrub-location-pii.ts:575-585 | values that differ only under sensitive keys, at any depth, scrub to the same text |
| ScrubNested.PrintIsInjective | packages/errors/src/scrub-location-pii.ts:495-503 | two well-formed values with the same text are the same value |
| ScrubNested.QuotedDocumentIsScrubbedIff | packages/errors/src/scrub-location-pii.ts:495-503 | the escaped text of a plain document, as a quoted value below the cap, is replaced whole exactly when redaction by key changes the document |
| ScrubNested.ScrubOfNestedIsClean | packages/errors/src/scrub-location-pii.ts:495-573 | for documents quoted inside documents to any depth, scrubbing the text is the redaction of the tree: a quoted document goes whole when its own redaction changes it, and past three levels when it holds a list or a field |
| ScrubLines.ScrubOfPairsIsRedaction | packages/errors/src/scrub-location-pii.ts:387-573 | in a text of `key: value` pairs with bare keys, bare or quoted values, and commas or line breaks between them, exactly the values of sensitive keys are replaced, each whole, commas inside it included |
| ScrubMessage.ScrubMessageText | packages/errors/src/scrub-location-pii.ts:586-602 | the backward bracket loop finds the last window position from which more brackets open than close |
| ScrubMessage.LongTextIsCutExactly | packages/errors/src/scrub-location-pii.ts:586-602 | a text within the limit is scrubbed whole; a longer one is cut at the limit or at the last bracket left open in the 500 characters before it, scrubbed up to there, and marked as truncated |
| ScrubMessage.PositionLeftOutIff | packages/errors/src/scrub-location-pii.ts:575-602 | a coordinate pair across the limit is left out whole exactly when its bracket is in the last 500 characters before it |
| ScrubMessage.PositionCanBeSplit | packages/errors/src/scrub-location-pii.ts:575-602 | a text whose pair is split, its first number kept |
| ScrubGraph.AreaScrubber.ScrubLeafText | packages/errors/src/scrub-location-pii.ts:156-164 | leaves are scrubbed within the area's text budget; past it the budget is spent for good |
| ScrubGraph.AreaScrubber.ScrubValue | packages/errors/src/scrub-location-pii.ts:166-187 | the walk on any graph computes its function and leaves the path set as it found it |
| ScrubGraph.AreaScrubber.ScrubNode | packages/errors/src/scrub-location-pii.ts:187-214 | an object is on the path exactly while its parts are walked |
| ScrubGraph.AreaScrubber.ScrubItems | packages/errors/src/scrub-location-pii.ts:189-199 | the array loop, with its one marker when the budget is spent |
| ScrubGraph.AreaScrubber.ScrubEntry | packages/errors/src/scrub-location-pii.ts:206-208 | a sensitive key's value is replaced without being visited, any other is walked |
| ScrubGraph.AreaScrubber.ScrubEntries | packages/errors/src/scrub-location-pii.ts:200-210 | the object loop, with its one marker when the budget is spent |
| ScrubGraph.ScrubArea | packages/errors/src/scrub-location-pii.ts:220-222 | one area is walked with a fresh path and fresh budgets |
| ScrubGraph.WalkKeepsBudget | packages/errors/src/scrub-location-pii.ts:172-196 | at most 20 000 visits and 256 KiB of scrubbed text, from any state inside the budgets |
| ScrubGraph.WalkRenders | packages/errors/src/scrub-location-pii.ts:156-214 | position by position what may stand in the output: `[Circular]` exactly for a value met below itself, the depth marker exactly past level 12, and a text that could hold a key or a position scrubbed or cut, never as it was |
| ScrubGraph.AreaIsScrubbed | packages/errors/src/scrub-location-pii.ts:156-222 | on any graph, cyclic or not, all of that at once, and every sensitive key at any depth holds one of the two markers |
| ScrubGraphMeaning.WalkIsRedaction | packages/errors/src/scrub-location-pii.ts:166-222 | a walk that ends with budget left is the plain redaction without counters |
| ScrubGraphBudgets.WalkIsBudgeted | packages/errors/src/scrub-location-pii.ts:156-214 | on any graph, what the walk shows at every place follows from the visits and characters before it, counted without budgets: a text is cut exactly when it ends past the character budget, an array or object exactly from the last visit on |
| ScrubGraphBudgets.WalkWithinBudgetIsRedaction | packages/errors/src/scrub-location-pii.ts:156-222 | when the visits and characters of the whole value fit the budgets, the walk is the redaction without counters and spends exactly those two counts |
| ScrubGraphMeaning.PathNeverMatters | packages/errors/src/scrub-location-pii.ts:182-187 | without cycles the path set never matters: a shared value is walked wherever it stands |
| ScrubGraphMeaning.SensitiveValuesDoNotShow | packages/errors/src/scrub-location-pii.ts:200-210 | heaps that differ only under sensitive keys, or in objects met only there, give the same output and spend the same budget |
| IcuArguments.Scanner.ReadMessage | packages/locale/src/icu-arguments.ts:93-119 | the message reader moves the shared index and the name set as its function says, on every string |
| IcuArguments.Scanner.ReadArgument | packages/locale/src/icu-arguments.ts:122-145 | so does the argument reader |
| IcuArguments.Scanner.ReadAfterName | packages/locale/src/icu-arguments.ts:132-143 | and the part of it behind the name |
| IcuArguments.Scanner.ReadStyle | packages/locale/src/icu-arguments.ts:146-160 | and its style loop, sub-messages included |
| IcuArguments.IcuArgumentNames | packages/locale/src/icu-arguments.ts:88-164 | terminates on every string with a strictly sorted list of exactly the names collected |
| IcuArguments.SortedListIsUnique | packages/locale/src/icu-arguments.ts:163 | one set of names has one such list |
| Strings.PrecedesIff | packages/locale/src/icu-arguments.ts:163 | the order is by the first character that differs, a prefix first |
| IcuExtraction.ExtractionIsExact | packages/locale/src/icu-arguments.ts:88-164 | for every well-formed message, brace pairs that are no argument syntax included, the names are exactly its arguments, nested branches counted, branch text and escaped literals never |
| IcuExtraction.QuotedReadsExactlyIff | packages/locale/src/icu-arguments.ts:97-110 | a quoted literal is read exactly in every well-formed message around it exactly when each apostrophe in it is followed by an apostrophe, a brace or its end |
| IcuExtraction.SameListIffSameArguments | packages/locale/src/icu-arguments.ts:47-54 | two messages give equal lists exactly when they reference the same arguments |
| IcuExtraction.ApostropheInQuotesMisleads | packages/locale/src/icu-arguments.ts:97-110 | with an apostrophe inside a quoted literal an argument can be missed, or text taken for one |
| DeadLetters.Adapter.RunSwap | packages/adapters/src/job-diagnostics/redis-dlq-adapter.ts:91-100 | the compare-and-swap applies only while the member is there, and its reply may be lost |
| DeadLetters.Adapter.RecordRerunFailure | packages/adapters/src/job-diagnostics/redis-dlq-adapter.ts:410-451 | up to three scan-and-swap rounds: the answer, the throw and the writes for every mix of replies and interference |
| DeadLetters.Adapter.PushToDLQ | packages/adapters/src/job-diagnostics/redis-dlq-adapter.ts:364-379 | one push, applied or not, answered or not |
| DeadLetters.RewriteTouchesOneEntry | packages/adapters/src/job-diagnostics/redis-dlq-adapter.ts:381-409 | a rewrite leaves every other member as it was and keeps the entry's id, payload and first failure time |
| DeadLetters.PushPrunesNothingIff | packages/adapters/src/job-diagnostics/redis-dlq-adapter.ts:371-379 | a push leaves every other entry exactly while the set holds at most 500 |
| DeadLetters.WithoutLowestKeeps | packages/adapters/src/job-diagnostics/redis-dlq-adapter.ts:371-379 | removing the n lowest ranks keeps exactly the members that fewer than the rest are later than, with their scores |
| DeadLetters.PushKeepsIff | packages/adapters/src/job-diagnostics/redis-dlq-adapter.ts:371-379 | after a push any member, the pushed one included, is there exactly when fewer than 500 are later |
| DeadLetters.NewestIsKept | packages/adapters/src/job-diagnostics/redis-dlq-adapter.ts:371-379 | an entry newer than all others stays, however full the queue |
| DeadLetters.LastOfItsMomentIsKept | packages/adapters/src/job-diagnostics/redis-dlq-adapter.ts:371-379 | of entries that failed at the same moment the one with the greatest text stays |
| DeadLetters.RerunsLeaveOneCountedEntry | packages/adapters/src/job-diagnostics/redis-dlq-adapter.ts:381-409 | reruns failing together, pushes, deletes and purges in any order: one entry at most, every landed rewrite counted, a delete never undone |
| JobRuns.RunRoute.RunPasses | apps/jobs/src/app.ts:797-812 | the first pass that throws decides, and no later pass runs |
| JobRuns.RunRoute.Try | apps/jobs/src/app.ts:797-883 | the `try` block: what it throws, the history written and the re-kick, for every combination of outcomes |
| JobRuns.RunRoute.Bury | apps/jobs/src/app.ts:975-1078 | the dead-letter part of the `catch` block: the writes it leaves, whatever throws |
| JobRuns.RunRoute.Handle | apps/jobs/src/app.ts:797-1078 | the response, the history entries, the dead-letter writes and the re-kick for every combination of outcomes |
| JobRuns.BookkeepingNeverDecides | apps/jobs/src/app.ts:827-1078 | whatever trigger, tracker, store and reporter throw: success exactly when all passes return, else the error of the first pass that throws; no error record or dead letter after a success |
| JobRuns.EveryGuardIsNeeded | apps/jobs/src/app.ts:831-1078 | of the twelve inner guards none can go: the response is the passes' own in every world exactly when all are there |
| JobRuns.RewriteRecords | apps/jobs/src/app.ts:1020-1050 | a rewrite names the run and its entry, applies at most once, and applies without answering only when a reply was lost |
| JobRuns.NoFailedRunIsLost | apps/jobs/src/app.ts:960-1078 | how many writes of a failed run leave an entry naming it: one for an applied rewrite and one for an applied push with room, two only when the rewrite threw after applying; an entry is rewritten only under its live claim |
| JobRuns.LostIff | apps/jobs/src/app.ts:1053-1078 | no write leaves an entry naming the run exactly when no rewrite was applied and the push had no effect or its entry no room |
| JobRuns.QueueHoldsTheRun | apps/jobs/src/app.ts:960-1078 | with nobody else writing, the entries naming the run at the end are those its writes left and nothing pruned: one per applied write while the queue has room |
| JobEffects.HistoryAndKick | apps/jobs/src/app.ts:814-960 | the one history entry is a success exactly when all passes return, written unless the store fails; a fresh run is asked for only by a run that went well and is to hand off; no dead letter after a success |
| JobEffects.RewriteNeedsTheLiveClaim | apps/jobs/src/app.ts:975-1050 | an entry is rewritten only by a failed run with both rerun headers, an answered claim check and a live claim equal to the header's |
| JobEffects.WithoutClaimTheRunIsPushed | apps/jobs/src/app.ts:975-1078 | without that the writes of a failed run are exactly its own entry, first attempt and own error, when the push has any effect |
| JobEffects.UnderClaimFirstHitDecides | apps/jobs/src/app.ts:1018-1078 | with it the first of the rounds that does not miss decides: the entry with the failure counted, timed and named, and the run's own entry beside it unless Redis answered that the rewrite landed |
| JobEffects.UnderClaimAllMiss | apps/jobs/src/app.ts:1018-1078 | and when every round misses, the run is pushed |
| RerunClaims.StepKeepsInv | packages/adapters/src/job-diagnostics/redis-dlq-adapter.ts:605-656 | every step of every interleaving keeps a young run's claim live |
| RerunClaims.OneYoungRunAtATime | packages/adapters/src/job-diagnostics/redis-dlq-adapter.ts:574-656 | two reruns of one entry are never both going within 330 seconds of their claims, whatever replies are lost and requests broken off, and a run that fails within them still holds its claim |
| RerunClaims.RefusedClaimNeverRuns | packages/adapters/src/job-diagnostics/redis-dlq-adapter.ts:631-632 | a rerun that finds the claim taken runs in no continuation, takes no further step, and has left the claim alone |
| RerunClaims.OldRunCanOverlap | packages/adapters/src/job-diagnostics/redis-dlq-adapter.ts:141-157 | past 330 seconds two runs can overlap: the bound is exact |
| RerunClaims.ClaimMoves | packages/adapters/src/job-diagnostics/redis-dlq-adapter.ts:104-121 | the claim comes to be only by a `SET` that finds none and reaches Redis, and goes only by expiry or its own rerun's release |
| RerunClaims.RunStartsIff | packages/adapters/src/job-diagnostics/redis-dlq-adapter.ts:613-632 | the job starts exactly for a rerun that is told it took a free claim; one left without an answer gives its claim back |
| RerunClaims.ReleaseFreesItsOwn | packages/adapters/src/job-diagnostics/redis-dlq-adapter.ts:114-121 | after a release that reaches Redis no claim holds its token, another token's claim is untouched, and a failed release changes nothing |
| RerunClaims.NextRerunStarts | packages/adapters/src/job-diagnostics/redis-dlq-adapter.ts:649-656 | so the next rerun, right after it, takes the claim and runs |
| RerunClaims.ClaimOutlivesItsRerun | packages/adapters/src/job-diagnostics/redis-dlq-adapter.ts:633-656 | in every run a claim is left behind a rerun that is done only by a request that broke off or a release that failed |
| DrainFlights.Flights.Coalesce | apps/jobs/src/lib/drain-flights.ts:73-82 | an open flight under six minutes old takes the wake-up in and is marked; an older one is dropped; no other flight changes |
| DrainFlights.Flights.Begin | apps/jobs/src/lib/drain-flights.ts:85-89 | a fresh unmarked flight replaces any previous one |
| DrainFlights.Flights.End | apps/jobs/src/lib/drain-flights.ts:96-98 | closes this flight and no other |
| DrainFlights.Flights.NextTurn | apps/jobs/src/lib/drain-flights.ts:114-125 | run again and take the mark, or stop, capped by passes or by time |
| DrainWakeUps.AnsweredRequestsHoldNoFlight | apps/jobs/src/app.ts:441-452 | whatever path a request takes, its flight is closed once it is answered; never more than five follow-up passes |
| DrainWakeUps.OverlapNeedsReplacement | apps/jobs/src/app.ts:708-720 | in every run, a later request of a drain runs beside one whose held flight is under six minutes old only after a request that is not a wake-up replaced that flight |
| DrainWakeUps.SecondRunCanStartIff | apps/jobs/src/app.ts:708-720 | and a second wake-up can come to run beside it exactly then |
| DrainWakeUps.WakeUpIsDroppedIff | apps/jobs/src/app.ts:808-913 | for every request that has responded: which wake-ups were acknowledged with no pass begun since and no fresh run asked for |
| DrainWakeUps.AckedWakeUpCanBeDropped | apps/jobs/src/app.ts:808-813 | a run in which that happens after the loop's last look |
| DrainEffects.ArrivalMarksOrOpens | apps/jobs/src/app.ts:708-735 | a wake-up that finds a flight of at most six minutes only marks it; any other request opens a flight in place of what was open |
| DrainEffects.CheckDecides | apps/jobs/src/app.ts:708-735 | the first pass starts exactly for a drain found enabled |
| DrainEffects.FollowUpRunsIff | apps/jobs/src/lib/drain-flights.ts:108-125 | another pass runs exactly for a wake-up request whose flight was marked meanwhile, after fewer than five follow-ups and in under 150 seconds, and takes the mark |
| DrainEffects.RestIsHandedOnIff | apps/jobs/src/app.ts:808-835 | what the loop or the last pass leaves is handed to a fresh request, once the flight is closed |
| Catalogs.FlattenCatalog | packages/locale/src/message-resolver.ts:28-46 | the accumulating recursion computes the flat index, the `__proto__` setter included |
| Catalogs.FlatHoldsOwnText | packages/locale/src/message-resolver.ts:28-46 | the index holds at each key exactly the catalog's own text there, so merging never overwrites |
| Catalogs.LookupIsOwnOrStray | packages/locale/src/message-resolver.ts:5-18 | the segment fold gives the own text, or what an inherited property leads to |
| Catalogs.IndexAgreesWithLookupIff | packages/locale/src/message-resolver.ts:5-46 | index and lookup agree at a key exactly when it stays in the catalog and is not a `__proto__` text, or the inherited property at which it leaves leads, read by read, neither to a string nor to a throw |
| Catalogs.UninheritedExitAgrees | packages/locale/src/message-resolver.ts:5-46 | they agree at every key but `__proto__` that leaves the catalog, if at all, at a segment which is no inherited property name |
| Catalogs.UninheritedKeysAgree | packages/locale/src/message-resolver.ts:5-46 | and so at every key none of whose segments is one |
| Catalogs.InheritedNameIsNotIndexed | packages/locale/src/message-resolver.ts:13-17 | in every catalog without a `constructor`, the lookup finds `constructor.name` and the index does not |
| CookieGuard.GuardMeansWhatItSays | apps/web/next.config.ts:159-209 | on every one-line header the anchored pattern matches exactly when some pair, wherever it stands, sets the locale to something else than the default |
| EcdsaSignatures.ConvertSignature | scripts/generate-apple-client-secret.js:94-113 | slicing, stripping and padding compute the conversion function on every byte string |
| EcdsaSignatures.DerToRawIsExact | scripts/generate-apple-client-secret.js:94-113 | the DER form of every r and s below 2^256 gives the 64 bytes whose halves are r and s big-endian, and no others |
| EcdsaSignatures.Base64UrlRoundTrips | scripts/generate-apple-client-secret.js:37-43 | the unpadded encoding of any bytes decodes to them |
| ErrorCodes.KeyRoundTripsIff | packages/errors/src/codes.ts:2602-2613 | a registered code comes back from its key exactly when every digit in it follows an underscore |
| ErrorCodes.KeysAreDistinct | packages/errors/src/codes.ts:2602-2613 | no two such codes share a key |
| ErrorCodes.KeyBySegments | packages/errors/src/codes.ts:2602-2613 | the key is the code's first segment in lower case and every other with a capital or digit first, without underscores |
| ErrorCodes.LegacyFormFindsCodeIff | packages/errors/src/codes.ts:2615-2633 | the lower-case form finds a code exactly when it is registered |

## Left out

- AuthGuarantees.AnswersWithinBounds: assumes that timers fire on time and continuations run before the clock moves; every other token theorem lets timeouts come at any moment.
- AuthGuarantees.SignOutResetsAfterEveryDelivery: says nothing of a request or a response under way at the sign-out, nor of one whose `resetQueries` throws; the flag then stays set for the next one.
- ScrubRefinement.ScrubOfPrintIsPrintOfRedact: compact printing only (no blanks between tokens); keys are at most 199 characters and hold no coordinate pair, because the look-ahead after a bare value spans 200 characters and the coordinate pass also runs over keys.
- ScrubNested.ScrubOfNestedIsClean: plain text between the documents holds no `:` and no `[`; a quoted document is escaped with a backslash before quotes, backslashes and line breaks, as `JSON.stringify` does for text without control characters.
- ScrubLines.ScrubOfPairsIsRedaction: phrases hold no quotes, brackets or colons, and a quoted value under another key no `:` or `[`; `ScrubTokens` covers all other text, token by token.
- JobRuns.QueueHoldsTheRun: assumes that nobody else writes and that the queue did not name the run before; the other theorems of `JobRuns` allow any interference.
- DrainWakeUps.OverlapNeedsReplacement: the clock does not go back between events.
- DeadLetters.RerunsLeaveOneCountedEntry: pushes carry other ids; run ids are random UUIDs.
- SessionReadRetry.LoopIsNeverStrandedNorDoubled: excludes re-reads whose last word from inside is a clean settle or `cancel`, for which `FireKeepsTheLoopIff` shows it fails.
- IcuExtraction.ExtractionIsExact: quoted literals are escaped, which `QuotedReadsExactlyIff` shows is needed. A `#` or `<` after an apostrophe is text here, as in the scanner.
- Catalogs.IndexAgreesWithLookupIff: own segments are non-empty and dot-free; an empty segment would drop out of the flat key.
- Strings are sequences of characters, not of UTF-16 code units, and lower-casing is ASCII only. No character outside ASCII lower-cases into a sensitive key but the Kelvin sign, and no sensitive key holds a k.
- A mint that rejects, and a `refetchSession` that throws on the 401 path: `mintBearerTokenFromClient` catches, and the default refetch only toggles a signal.
- Continuations that always run in one turn of the event loop are separate steps, which allows more runs than the single thread does.
- `peekDLQ`, `deleteFromDLQ`, `purgeDLQ` replies, unreadable members' logging and reporting, and the deletion of the entry after a confirmed rerun.
- A rerun whose payload was folded into a drain already running: its claim is released before that pass runs, as the adapter's comment says.
- Alerting, Sentry, the error statuses (400, 503, 500), migration drift and the 404 of the run route.
- `scrubJsonishText`, the URL and query scrubbing and the in-place replacement of event areas: each applies the modelled scrub to one more field.
- The header table of `next.config.ts` and `notAnRscRequest`: path matching is the framework's.
- ECDSA signing, JSON and UTF-8 encoding of the token's header and payload.
- The enumeration of error codes: the theorems hold for every set of registered codes.
