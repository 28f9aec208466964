# Verified model of the image forge's guardrails and generators

This project models, in Dafny, the parts of the repository in which something can go wrong quietly, and proves
what they guarantee over all inputs, all runs or all interleavings. `dafny verify dfyconfig.toml` checks everything.

**Staging guardrail** (`Staging`, `Capacity`, `Stager`, `StagerThreads`, `StagerCalls`, `Guardrail`, `GuardrailRuns`,
`GuardrailThreads`, `GuardrailThreadRuns`). `Staging` is the board of staged
actions as a value: the events that can happen to it, when they may happen and what they do. `Stager` is the heap object
with its map of shared pointers; each method is tied to one event. `StagerThreads` runs any number of threads through
the same methods in single steps (lock, look up, test, write, release) and shows that every interleaving is a history of
atomic events; `StagerCalls` shows that each call gets its own answer. `Guardrail` adds the request handlers and their
dispatches on the atomic Stager, `GuardrailThreads` on the single steps; the two modules named after them show that
every request gets its answer and every confirmed build its dispatch. `Capacity` says exactly when the board grows past
its capacity, and what bounds it then.

**Hindsight bridge** (`Regex`, `Sanitizer`, `Patterns`, `SanitizerSafety`, `SecondPass`, `ZeroLeak`, `RawText`,
`OfflineBuffer`, `Delivery`, `BankNames`).
`Regex` is a small backtracking matcher with `sub`; `Sanitizer` holds the two patterns and scanners that agree with
them, and `Patterns` says of the text itself what an address and a user path are; the next four modules decide exactly when the sanitizer's output is free of both patterns, `RawText` by a scan of
the incoming text. `OfflineBuffer` is the
store-and-forward queue against an arbitrary upstream, as a class and as a function on worlds; `Delivery` says which
facts are sent, to which bank, and whether they are clean, and `BankNames` what bank names are sent and stored.

**Stdout redirect** (`StdoutRedirect`, `NestedRedirects`). Writers, a bounded pipe, the draining goroutine and any number
of Close calls as a labelled transition system; and the swapping of the process-wide stdout by several redirects.

**Imageless scripts** (`Bash`, `BashRoundTrip`, `Imageless`, `ImagelessText`, `ImagelessScript`, `ImagelessRuns`). A
bash subset with printer, parser and execution under `set -e`; the generator, tied to a compiler into that subset;
reading its text back; that text written out line by line; and running it on arbitrary hosts.

**Catalog, standards, PR gate** (`Flavors`, `Standards`, `Tracker`, `References`). The two indexes over any catalog, the
standards that extend a common baseline in place, and the gate with its issue-reference pattern; `References` says of
the text itself what a reference is.

Assumptions that enter from outside: character classes beyond ASCII are an arbitrary table in which every digit is a
word character; times are integers read from a clock; generated IDs are arbitrary and may collide; the upstream answers
each request with an arbitrary status, 0 standing for a failed request; reading the buffer file gives back what was last
written; a provisioner is an arbitrary change of the world with an arbitrary exit code; lower-casing, trimming and
case-insensitive comparison are arbitrary functions.

Where documentation and code differ, the model follows the code:

- `pkg/mcp/staging.go:39` speaks of forced eviction of the oldest items; the code removes expired items only, so a staging takes the board past its capacity exactly when it finds it full of unexpired actions under other IDs (`Capacity.WithinCapacityIff`); beyond that the staging rate bounds it (`Capacity.RateBoundsBoard`).
- `pkg/mcp/staging.go:36` calls the TTL a maximum lifetime; Confirm does not look at the age of an action, and `Staging.ConfirmableIff` says exactly when an ID can still be confirmed.
- `pkg/mcp/staging.go:144` speaks of discarding pending actions; Discard accepts a confirmed action too (`Staging.ConfirmedIsListedAndDiscardable`), and `Staging.DiscardsPendingIff` says when what it takes off was pending.
- `pkg/mcp/server.go:316` announces pending actions; the list shows confirmed ones as well (`Staging.ConfirmedIsListedAndDiscardable`), and `Staging.ListsOnlyPendingIff` says when it does not.
- `scripts/hindsight_mcp_server.py:47` promises a zero-leak invariant; two families of inputs break it (`ZeroLeak.GluedAddressSurvives`, `ZeroLeak.CutHomeSurfaces`), and `RawText.CleanUnlessRawExposed` says exactly when it holds. The caller's bank name is never sanitized (`BankNames.BankLeaks`).
- `scripts/hindsight_mcp_server.py:123` speaks of syncing the buffered facts; each is posted to the bank of the current call, not to the bank stored with it (`Delivery.RoutedIffOneBank`).

## Model

| member | source | states |
|---|---|---|
| `Stager.Stager.Stage` | pkg/mcp/staging.go:59-79 | Below 1000 actions keeps every pointer, from 1000 on exactly those created at most fifteen minutes before it began, then holds a new pending action under the ID; the board changes as the atomic staging event says |
| `Stager.Stager.PruneLocked` | pkg/mcp/staging.go:89-102 | For every order of iteration, exactly the actions not older than the given age stay, fifteen minutes if that is not positive, and the result is the number removed |
| `Stager.Stager.Get` | pkg/mcp/staging.go:105-114 | Returns the shared pointer held under the ID, or nothing if there is none |
| `Stager.Stager.List` | pkg/mcp/staging.go:117-126 | Every held action once, nothing else, in any order |
| `Stager.Stager.Confirm` | pkg/mcp/staging.go:129-142 | Succeeds iff the action is held and pending, returns the shared pointer with the status written in place, and otherwise changes nothing |
| `Stager.Stager.Discard` | pkg/mcp/staging.go:145-156 | Succeeds iff the action is held, whatever its status; the old pointer shows the discarded status and the key is gone |
| `Staging.PruneKeepsYoung` | pkg/mcp/staging.go:83-102 | The atomic prune keeps an action, unchanged, iff its age is at most the given one, or fifteen minutes if that is not positive |
| `Staging.StageKeepsYoung` | pkg/mcp/staging.go:59-79 | The atomic staging holds its action and keeps another one, unchanged, iff there are fewer than 1000 or it is at most fifteen minutes old |
| `Staging.PruneTwice` | pkg/mcp/staging.go:83-102 | Two prunes with non-decreasing cutoffs leave what the later one alone leaves, and their counts add up to its count |
| `Staging.AlwaysWellKept` | pkg/mcp/staging.go:67-78 | After every history each key is its action's ID and no discarded action is held |
| `Staging.HeldIsLatest` | pkg/mcp/staging.go:67-78 | What is held under an ID is, up to its status, the action of the last staging that returned it, held ever since |
| `Staging.HeldUntilDropped` | pkg/mcp/staging.go:59-156 | An ID is held iff it was staged and since its last staging no discard of it, no prune past its creation time and no staging at capacity that pruned past it has happened |
| `Staging.ConfirmableIff` | pkg/mcp/staging.go:129-142 | An ID can be confirmed iff, besides, it has not been confirmed since its last staging; its age does not enter |
| `Staging.ExpiredIsConfirmable` | pkg/mcp/staging.go:36-142 | Below capacity any action older than the TTL can still be confirmed after a later staging |
| `Staging.ListsOnlyPendingIff` | pkg/mcp/server.go:313-323 | Every answer of the list shows pending actions only iff nothing held has been confirmed since its last staging |
| `Staging.DiscardsPendingIff` | pkg/mcp/staging.go:144-156 | What a discard takes off was pending iff it had not been confirmed since its last staging |
| `Staging.ConfirmedIsListedAndDiscardable` | pkg/mcp/staging.go:117-156 | After a staging and its confirmation the action can be discarded and every list shows it |
| `Staging.ConfirmHasItsStage` | pkg/mcp/staging.go:129-142 | Each confirmation returns the action of the latest staging of its ID, which was held and pending at every moment between the two |
| `Staging.ConfirmsAreInjective` | pkg/mcp/staging.go:129-142 | No staging is confirmed twice |
| `Staging.ConfirmsNeverExceedStages` | pkg/mcp/staging.go:67-142 | With colliding IDs allowed, an ID is confirmed at most as often as it was staged, counting a pending action as a confirmation still to come |
| `Staging.StatusMovesForward` | pkg/mcp/staging.go:133-154 | Across one event an action under a kept ID stays the same or goes from pending to confirmed |
| `Capacity.AlwaysBounded` | pkg/mcp/staging.go:63-78 | After every operation the board is within capacity or holds only what was created within one TTL before the last Stage began |
| `Capacity.OverfullIsRecent` | pkg/mcp/staging.go:63-78 | On a board over capacity every action was staged during the TTL before the last Stage |
| `Capacity.RateBoundsBoard` | pkg/mcp/staging.go:63-78 | At most R stagings per TTL keep the board within max(1000, R) |
| `Capacity.BeyondCapacityIff` | pkg/mcp/staging.go:63-78 | From a board within capacity an event leads past it iff it is a staging under a new ID that finds the board full and nothing on it expired |
| `Capacity.WithinCapacityIff` | pkg/mcp/staging.go:39-78 | A whole history stays within capacity iff no such staging occurs in it |
| `Capacity.FreshStagesOverflow` | pkg/mcp/staging.go:39-65 | Any number of stagings at one time with distinct IDs are all held |
| `StagerThreads.StepKeeps` | pkg/mcp/staging.go:59-156 | Every single step of every thread keeps the lock protocol and the relation between memory, positions of threads and the atomic board |
| `StagerThreads.EveryRunIsAtomic` | pkg/mcp/staging.go:59-156 | In every interleaving the returned calls form a legal atomic history, and memory is the board it leads to whenever nobody writes |
| `StagerThreads.RacingConfirms` | pkg/mcp/staging.go:129-142 | However threads race, no ID is confirmed more often than it was staged |
| `StagerThreads.PointersMoveForward` | pkg/mcp/staging.go:129-156 | In every run, an action somebody holds a pointer to keeps everything but its status, and the status moves only from pending to confirmed or to discarded |
| `StagerThreads.NeverStuck` | pkg/mcp/staging.go:44-156 | As long as a thread is in or before a method, some thread can take its next step |
| `StagerCalls.LockGrantedIff` | pkg/mcp/staging.go:44-156 | In every reachable state a thread gets the lock for writing iff nobody holds it, and for reading iff nobody writes |
| `StagerCalls.CallIsAnswered` | pkg/mcp/staging.go:59-156 | Whatever other threads do in between, the end of a call adds one event, and it answers that call: its ID, its age, its arguments, and clock readings taken while it was under way |
| `StagerThreads.EveryRunIsBounded` | pkg/mcp/staging.go:59-79 | The rate bound holds for the board of the returned calls in every interleaving, with the clock advancing between steps |
| `StagerThreads.MemoryIsBounded` | pkg/mcp/staging.go:59-79 | The rate bound holds for the map in memory at every single step, counting a staging whose action is in the map already |
| `Guardrail.StepKeeps` | pkg/mcp/server.go:250-383 | Every handler step keeps: histories are legal, only unconfirmed live builds are staged, dispatches have a reason, no confirmation is used twice |
| `Guardrail.ReasonIsStaging` | pkg/mcp/server.go:340-357 | A dispatch for a confirmation has an earlier staging of the same flavor and backend, live, held pending until that confirmation |
| `Guardrail.ReasonsDiffer` | pkg/mcp/server.go:332-364 | Two dispatches for confirmations have different stagings |
| `GuardrailThreads.StepKeeps` | pkg/mcp/server.go:250-383 | The same invariant, with every handler running the Stager methods in single steps |
| `GuardrailThreads.EveryInterleavingIsJustified` | pkg/mcp/server.go:250-364 | The same justification of every dispatch in every interleaving of requests down to the single steps inside the Stager |
| `GuardrailThreadRuns.EveryConfirmIsPursued` | pkg/mcp/server.go:340-357 | In every interleaving down to the single steps every confirmed build has been dispatched for that confirmation, or its request still waits to do so |
| `GuardrailThreadRuns.WaitingDispatches` | pkg/mcp/server.go:345-357 | A waiting request can always go on, and its step dispatches the flavor and backend the action was staged with, live, for its own confirmation |
| `GuardrailThreadRuns.ImmediateIsDispatched` | pkg/mcp/server.go:262-283 | A build that is a dry run or confirmed is dispatched at once with the flavor, backend and dry-run flag of the call, and touches no staged action |
| `GuardrailThreadRuns.RequestIsAnswered` | pkg/mcp/server.go:262-384 | Any other request ends, whatever runs in between, with one event that answers it: a staging with tool, target, payload and preview of the call, or the answer for its ID; after a successful confirmation it waits to dispatch |
| `GuardrailThreadRuns.RequestsGoOn` | pkg/mcp/server.go:250-384 | An idle thread can take up any request, and while one is under way some thread can go on with its own |
| `Guardrail.EveryDispatchIsJustified` | pkg/mcp/server.go:250-283 | In every run of concurrent handlers on the atomic Stager a live dispatch carried `confirmed=true` or is justified, one to one, by a staging; staged dispatches are never dry runs |
| `GuardrailRuns.EveryConfirmIsPursued` | pkg/mcp/server.go:340-357 | In every run on the atomic Stager every confirmed build has been dispatched for that confirmation, or its request still waits to do so |
| `GuardrailRuns.BuildsAreStagedOrDispatched` | pkg/mcp/server.go:262-283 | In every run a build call leaves its own event: a staging with its flavor and backend if it is neither a dry run nor confirmed, otherwise a dispatch of just what it asked for |
| `GuardrailRuns.OtherRequestsAreAnswered` | pkg/mcp/server.go:319-384 | In every run each other request leaves its own answer, and a dispatch after a confirmation refers to the confirmation by the same request |
| `GuardrailRuns.RequestsAreServed` | pkg/mcp/server.go:250-384 | Which requests are possible when: builds, discards and prunes always, a confirmation unless its request waits already, a waiting dispatch always, a list with any order of what is held |
| `Regex.HitsAreLeftmost` | scripts/hindsight_mcp_server.py:48-49 | The loop of `sub` meets the leftmost non-overlapping matches |
| `Regex.LeftmostIsUnique` | scripts/hindsight_mcp_server.py:48-49 | There is only one list of leftmost non-overlapping matches |
| `Regex.SubReplacesLeftmostMatches` | scripts/hindsight_mcp_server.py:48-49 | `sub` replaces exactly those matches and copies every gap between them in order |
| `Sanitizer.IpAgrees` | scripts/hindsight_mcp_server.py:38-40 | The address pattern and a scan without backtracking match at the same positions with the same end |
| `Sanitizer.PathAgrees` | scripts/hindsight_mcp_server.py:41-43 | The same for the path pattern with its negative lookahead |
| `Sanitizer.FirstPassScans` | scripts/hindsight_mcp_server.py:48 | The first substitution is the redaction by the scanner, from any position; `Patterns.SanitizeReplaces` says which mark it writes |
| `Sanitizer.SecondPassScans` | scripts/hindsight_mcp_server.py:49 | The second substitution is the redaction by the scanner, from any position; `Patterns.SanitizeReplaces` says which mark it writes |
| `Patterns.AddressMeaning` | scripts/hindsight_mcp_server.py:38-40 | The engine reports a match of the address pattern from i to j iff no word character is on either side and the text between is `10.`, `192.168.` or `172.16.` to `172.31.` completed by dotted groups of one to three digits |
| `Patterns.PathMeaning` | scripts/hindsight_mcp_server.py:41-43 | It reports a match of the path pattern iff the text is `/Users/`, a letter and `:\Users\`, or `/home/` and a whole name, the last not starting with an exempt word |
| `Patterns.CleanMeaning` | scripts/hindsight_mcp_server.py:46-49 | A text is clean iff no stretch of it is such an address or such a path |
| `Patterns.SanitizeReplaces` | scripts/hindsight_mcp_server.py:46-49 | The leftmost addresses become `[REDACTED-RFC1918-IP]`, then the leftmost paths of the result `[REDACTED-USER-PATH]`; everything between them is copied in order |
| `SanitizerSafety.FirstPassLeavesNoAddress` | scripts/hindsight_mcp_server.py:48 | The word boundaries next to a replacement neither create nor lose an address: the redacted text has none, whatever stands before it |
| `SecondPass.AddressAppears` | scripts/hindsight_mcp_server.py:49 | The second pass makes an address appear at a position iff a Windows user path is glued to it there |
| `SecondPass.PathAppears` | scripts/hindsight_mcp_server.py:41-49 | The second pass makes a path appear at a position iff it cuts an exempt user name there |
| `SecondPass.ExposedExactly` | scripts/hindsight_mcp_server.py:49 | From every scan position the rest of the output is free of both patterns iff nothing ahead is exposed |
| `ZeroLeak.FirstPassRemovesAddresses` | scripts/hindsight_mcp_server.py:48 | For every text the first pass leaves no match of the address pattern |
| `ZeroLeak.CleanUnlessExposed` | scripts/hindsight_mcp_server.py:46-49 | The output contains no match of either pattern iff after the first pass no Windows user path is glued to an address or to an exempt home directory |
| `RawText.RawExposedExactly` | scripts/hindsight_mcp_server.py:46-49 | From every scan position, what the raw text shows up to its next address decides what the second pass exposes |
| `RawText.CleanUnlessRawExposed` | scripts/hindsight_mcp_server.py:46-49 | The output contains no match of either pattern iff a scan of the raw text, names cut at the next address, finds no glued Windows user path |
| `ZeroLeak.CleanUnlessExposedAsIs` | scripts/hindsight_mcp_server.py:46-49 | For a text without private addresses the same condition, on the text itself |
| `ZeroLeak.CleanWithoutGluedDrive` | scripts/hindsight_mcp_server.py:46-49 | Text in which no Windows user path stands right behind a word character comes out clean |
| `ZeroLeak.GluedAddressSurvives` | scripts/hindsight_mcp_server.py:46-49 | The hypothesis is needed: `10.0.0.1C:\Users\bob` leaks its address |
| `ZeroLeak.CutHomeSurfaces` | scripts/hindsight_mcp_server.py:46-49 | The hypothesis is needed: `/home/ubuntu:\Users\bob` becomes a home directory that is not exempt |
| `ZeroLeak.TwiceIsClean` | scripts/hindsight_mcp_server.py:46-49 | Sanitizing twice removes both patterns from every text |
| `ZeroLeak.FixedIffClean` | scripts/hindsight_mcp_server.py:46-49 | The sanitizer leaves exactly the clean texts unchanged |
| `ZeroLeak.IdempotentUnlessExposed` | scripts/hindsight_mcp_server.py:46-49 | Sanitizing twice equals sanitizing once iff nothing is exposed |
| `ZeroLeak.ThirdChangesNothing` | scripts/hindsight_mcp_server.py:46-49 | From the second application on nothing changes any more |
| `OfflineBuffer.Bridge.AppendLocalFact` | scripts/hindsight_mcp_server.py:70-83 | One pending entry with the fact, its bank, ID and time is added at the end; nothing else changes |
| `OfflineBuffer.Bridge.FlushLocalPending` | scripts/hindsight_mcp_server.py:122-136 | Buffer and requests change as the flush of every entry in order says, and the result is the number of flags that went off |
| `OfflineBuffer.Bridge.ToolRetain` | scripts/hindsight_mcp_server.py:139-161 | Refuses empty cleaned content without effect, posts first, flushes after a status from 200 to 299 and otherwise adds one pending entry with the fact, bank, ID and time; the answer says which |
| `OfflineBuffer.RetainMeaning` | scripts/hindsight_mcp_server.py:139-161 | One call in full: what is posted, to which path and with which answer; unless that is from 200 to 299 the fact is appended as pending, and otherwise the backlog is posted in order and each entry settled iff its own answer is from 200 to 299 |
| `OfflineBuffer.FlushMeaning` | scripts/hindsight_mcp_server.py:122-136 | A flush adds one request for each pending entry, in order, and settles exactly the entries whose own answer is from 200 to 299 |
| `OfflineBuffer.StripMeaning` | scripts/hindsight_mcp_server.py:143-144 | Stripping leaves the stretch between the white space at both ends |
| `OfflineBuffer.FlushPosts` | scripts/hindsight_mcp_server.py:126-133 | A flush posts the pending entries in buffer order to the given bank, keeps length, order and every other field, and turns no flag on |
| `OfflineBuffer.FlushSettles` | scripts/hindsight_mcp_server.py:129-133 | An entry is pending after a flush iff it was pending and the answer to its own request is not from 200 to 299 |
| `OfflineBuffer.AllAcknowledged` | scripts/hindsight_mcp_server.py:122-136 | If every request is answered 2xx, nothing stays pending |
| `OfflineBuffer.FactsAreConserved` | scripts/hindsight_mcp_server.py:122-161 | In every run, accepted facts plus what was held at the start equal pending facts plus those answered with a status from 200 to 299, as multisets |
| `OfflineBuffer.EntriesAckedOnce` | scripts/hindsight_mcp_server.py:122-136 | In every run an entry is acknowledged once if its flag went off and otherwise never |
| `Delivery.OneBankIsRouted` | scripts/hindsight_mcp_server.py:139-153 | From any buffer, if all accepted calls share one bank with each other and with what was pending at the start, every re-sent fact is acknowledged in its own bank |
| `Delivery.RoutedIffOneBank` | scripts/hindsight_mcp_server.py:122-153 | Re-sent facts reach their own bank against every upstream iff that condition on the buffer and the calls holds |
| `Delivery.RoutedIffNothingAstray` | scripts/hindsight_mcp_server.py:122-153 | Against a given upstream they do iff no call that gets through finds a pending entry of another bank whose request is acknowledged too |
| `Delivery.OwnBacklogIsRouted` | scripts/hindsight_mcp_server.py:122-153 | Against a given upstream they do if every call that gets through finds nothing pending but for its own bank |
| `Delivery.SendsSanitizedOnly` | scripts/hindsight_mcp_server.py:122-161 | What is sent or stored in any run is a sanitized fact of an accepted call or was in the buffer at the start; every accepted fact is sent |
| `Delivery.RunIsCleanIff` | scripts/hindsight_mcp_server.py:139-161 | From clean entries, every content and context ever sent is clean iff no accepted call's text is exposed, and then every stored one is; bank names are not part of this |
| `BankNames.RunNames` | scripts/hindsight_mcp_server.py:70-161 | From any buffer, the posted paths are exactly the quoted banks of the accepted calls, and the stored bank names those held at the start and, as given, those of the calls whose own request failed |
| `BankNames.RequestsAreCleanIff` | scripts/hindsight_mcp_server.py:139-150 | Facts and quoted banks of all requests are clean iff no accepted call leaks and every accepted call's quoted bank is clean |
| `BankNames.StoredBanksAreCleanIff` | scripts/hindsight_mcp_server.py:70-83 | The stored bank names are clean iff those at the start and those of the calls that failed are |
| `BankNames.BankLeaks` | scripts/hindsight_mcp_server.py:149-157 | A call with harmless texts to the bank `10.0.0.1` sends an address, and stores it when its request fails |
| `Delivery.UngluedNeverLeaks` | scripts/hindsight_mcp_server.py:142-143 | A call whose raw texts have no Windows user path right behind a word character never leaks, stripping included |
| `StdoutRedirect.NothingIsLostOrReordered` | pkg/mcp/stdout.go:32-57 | At every step the bytes of all writes to the open pipe, in the order of the run, are sink, then chunk in flight, then pipe, and the genuine stdout carries what the run wrote there |
| `StdoutRedirect.CloseDelivers` | pkg/mcp/stdout.go:61-71 | When Close has returned nil, stdout is restored and, unless a write to the sink failed, the sink holds the bytes of all writes to the open pipe, in the order of the run |
| `StdoutRedirect.OneCloseSucceeds` | pkg/mcp/stdout.go:65-70 | Of any number of concurrent Close calls at most one returns nil |
| `StdoutRedirect.LosingCloseDoesNotWait` | pkg/mcp/stdout.go:66-68 | In every run the first Close to reach the write end closes it; every other one fails there for good, and that step changes nothing but its own answer |
| `StdoutRedirect.AcceptsUntilClosed` | pkg/mcp/stdout.go:53-67 | No stray write of a run is refused before a Close reaches the write end, unless a write to the sink failed |
| `StdoutRedirect.WhoCanWrite` | pkg/mcp/stdout.go:32-67 | Whoever holds a file can write any stray bytes to it, to the open pipe if they fit; a file is held iff it was before or was taken from os.Stdout, which is the pipe until the first Close restores it |
| `StdoutRedirect.WhoCanClose` | pkg/mcp/stdout.go:61-71 | In every run any new call of Close can start, restore stdout and go for the write end without waiting; it can return nil iff it was the first to reach the write end and the drain has signalled |
| `StdoutRedirect.PureIffNotHeld` | pkg/mcp/server.go:389-399 | In every run the genuine stdout carries only transport frames until Close restores it, iff nobody took it from os.Stdout before |
| `StdoutRedirect.DrainIsNeverStuck` | pkg/mcp/stdout.go:53-57 | The drain has a step iff it has not finished and is not waiting for the first byte of an open, empty pipe |
| `StdoutRedirect.DrainIsBounded` | pkg/mcp/stdout.go:53-67 | Once the write end is closed, in every continuation the drain makes at most as many steps as it has work |
| `StdoutRedirect.CloseReturns` | pkg/mcp/stdout.go:61-71 | While Close waits, the drain can move, boundedly often, or Close can return |
| `StdoutRedirect.FullPipeClears` | pkg/mcp/stdout.go:53-57 | While the pipe stays full and open, whatever else runs, the drain has a step to make and makes at most one before there is room or writers are refused |
| `NestedRedirects.Process.InstallStdoutRedirect` | pkg/mcp/stdout.go:32-51 | os.Stdout becomes a new open pipe, and the one found before is saved and returned |
| `NestedRedirects.Process.Close` | pkg/mcp/stdout.go:61-71 | The saved stdout is put back in every case; the call succeeds iff the write end was open |
| `NestedRedirects.NestingRestores` | pkg/mcp/server.go:389-399 | Redirects nested to any depth and closed in reverse order leave stdout as it was and all their pipes closed |
| `NestedRedirects.RestoredIffFirstClosedLast` | pkg/mcp/stdout.go:40-65 | Closed in any order, the redirects bring the original stdout back iff the first installed is closed last |
| `Bash.ExecJoin` | pkg/imageless/imageless.go:34 | Running two scripts one after the other is running their concatenation, exits included |
| `BashRoundTrip.ParsePrint` | pkg/imageless/imageless.go:29-70 | For every script of the subset, parsing its text gives the script back iff its words are free of quotes, `$`, backticks, backslashes and newlines and no branch is empty |
| `BashRoundTrip.ParseIsClean` | pkg/imageless/imageless.go:61-66 | Whatever text is parsed, the result has only such words |
| `Imageless.GenerateApplyScript` | pkg/imageless/imageless.go:23-71 | An unknown flavor gives no script; otherwise the text is the compiled script, printed |
| `Imageless.GenerateDryRun` | pkg/imageless/imageless.go:39-46 | The loop writes the printed simulation of every provisioner |
| `Imageless.GenerateLive` | pkg/imageless/imageless.go:48-70 | The loop writes the printed exports and one stage for each provisioner of the plan |
| `ImagelessText.CleanCompile` | pkg/imageless/imageless.go:29-70 | A compiled script is clean iff the names it mentions are |
| `ImagelessText.ScriptRecoversPlan` | pkg/imageless/imageless.go:57-67 | The generated text parses as the compiled script iff its names are clean, and its file tests are then the plan in order |
| `ImagelessScript.ScriptIsText` | pkg/imageless/imageless.go:29-70 | The generated script is, character for character, the text written out in `ScriptText`: header, exports and stages, or the simulation |
| `ImagelessScript.PlanMeaning` | pkg/imageless/imageless.go:57-60 | The plan is the provisioners in order, without `99-cleanup.sh` if that is skipped |
| `ImagelessScript.TextTestsPlan` | pkg/imageless/imageless.go:57-67 | Parsed again, a live script with clean names tests `packer/provisioners/` and the name for each provisioner of the plan, in order |
| `ImagelessRuns.LiveRun` | pkg/imageless/imageless.go:34-70 | On every host the script runs the plan in order, tests each file when reached, skips absent ones, stops at the first failure with its code, and else completes |
| `ImagelessRuns.TextRun` | pkg/imageless/imageless.go:29-70 | The same for the live text, parsed and executed, when its names are clean |
| `ImagelessRuns.TextDryRun` | pkg/imageless/imageless.go:29-46 | The same for the dry-run text: nothing runs and the provisioners are listed |
| `ImagelessRuns.CompletesIffAllSucceed` | pkg/imageless/imageless.go:48-69 | Every provisioner sees the flavor's exports, and the completion line is the end iff every provisioner that ran succeeded |
| `ImagelessRuns.TextCompletesIffAllSucceed` | pkg/imageless/imageless.go:29-69 | The same of the generated text, parsed and executed, when its names are clean |
| `ImagelessRuns.DryRunOnlyLists` | pkg/imageless/imageless.go:39-46 | A dry run leaves the world and the environment alone, runs nothing and lists the provisioners |
| `ImagelessRuns.DryRunListsPlan` | pkg/imageless/imageless.go:39-60 | The list is the live plan iff SkipCleanup is off or the flavor has no cleanup |
| `ImagelessRuns.SkipIsPrefixIffCleanupLast` | pkg/imageless/imageless.go:57-67 | On every host the run with SkipCleanup shows a prefix of the full run iff nothing but cleanup comes after a cleanup |
| `ImagelessRuns.TextSkipIsPrefixIffCleanupLast` | pkg/imageless/imageless.go:29-70 | The same of the two generated texts, when the names in the full one are clean |
| `Flavors.Catalog.constructor` | pkg/flavors/flavors.go:522-528 | The loop builds indexes that answer as the whole catalog does |
| `Flavors.Catalog.Get` | pkg/flavors/flavors.go:531-536 | The answer is the last entry with that ID, or nothing |
| `Flavors.Catalog.FilterByTier` | pkg/flavors/flavors.go:539-544 | The answer is the order-preserving filter on the lower-cased tier |
| `Flavors.LastWithIdIsLast` | pkg/flavors/flavors.go:522-536 | No answer iff no entry has the ID; otherwise the entry which no later one shares the ID with |
| `Flavors.IndexIsScan` | pkg/flavors/flavors.go:522-536 | With distinct IDs the index answers what a scan from the front finds |
| `Flavors.BucketsPartition` | pkg/flavors/flavors.go:524-526 | Every entry stands in exactly the bucket of its lower-cased tier, and buckets keep catalog order |
| `Standards.Standard.EnrichTierStandard` | pkg/standards/standards.go:55-111 | The record is extended in place by what tier and ID add; whatever it held before, packages and units stay prefixes and only kernel parameters of the tiers may change |
| `Standards.Get` | pkg/standards/standards.go:25-53 | The standard of the flavor the catalog finds, or nothing |
| `Standards.All` | pkg/standards/standards.go:114-123 | One standard for each catalog entry, in order; no entry is dropped |
| `Standards.KeepsBaseline` | pkg/standards/standards.go:31-111 | Baseline packages and units stay prefixes and no baseline kernel parameter changes, for every flavor |
| `Standards.BaselineMeaning` | pkg/standards/standards.go:31-49 | Every standard starts from the five packages, six kernel parameters and three units listed |
| `Standards.ContainersMeaning` | pkg/standards/standards.go:57-66 | A container flavor adds podman, buildah and skopeo if its ID starts with podman, otherwise docker packages and docker.service, and needs a CDI specification iff a vendor name occurs in its ID |
| `Standards.ClustersMeaning` | pkg/standards/standards.go:67-80 | What kubernetes and k3s flavors add and overwrite, and nothing else |
| `Standards.CloudnativeMeaning` | pkg/standards/standards.go:81-87 | Only the storage and the database flavor add anything: packages the one, kernel parameters the other |
| `Standards.InferenceMeaning` | pkg/standards/standards.go:88-93 | An inference flavor adds its packages and its parameter, and needs a CDI specification iff a vendor name occurs in its ID |
| `Standards.HomelabMeaning` | pkg/standards/standards.go:94-109 | What each of the five appliances adds, and that any other adds nothing |
| `Standards.OtherTiersMeaning` | pkg/standards/standards.go:55-111 | A flavor of any other tier has the baseline |
| `Standards.AllFollowsCatalog` | pkg/standards/standards.go:114-123 | Standard i carries ID i; all are their entry's own standard, and all carry its tier, iff entries that share an ID share the tier |
| `Tracker.RefMatches` | pkg/tracker/tracker.go:41 | The pattern matches at a position iff the scan without backtracking finds a reference there |
| `Tracker.ScanAgrees` | pkg/tracker/tracker.go:41 | The pattern matches somewhere in a text iff the scan finds a reference |
| `References.MatchesMeaning` | pkg/tracker/tracker.go:41 | The pattern matches in a text iff somewhere one of the five keywords, in either case, is followed by white space and then by `#` and a digit, with or without a repository in front, or by `EPIC-` and a digit |
| `Tracker.AcceptedIff` | pkg/tracker/tracker.go:79-122 | The gate passes a PR iff the first milestone of that title is open, the pattern matches in title, newline, body, and a tier or area label is there |
| `References.AcceptedMeaning` | pkg/tracker/tracker.go:79-122 | The gate passes a PR iff its milestone is not blank, the first of that title has the state `open`, such a reference stands in title, newline, body, and a label starts with `tier/` or `area/` |
| `Tracker.FirstFailingCheck` | pkg/tracker/tracker.go:79-117 | Each of the six refusals is given exactly when its check is the first to fail |
| `Tracker.AcceptanceIsMonotone` | pkg/tracker/tracker.go:79-122 | Text before the title or behind the body, more labels and further milestones never turn acceptance into refusal |
| `Tracker.JointMayGrowIff` | pkg/tracker/tracker.go:41-106 | A reference is found under every text put behind the title, or before the body, iff title or body holds a reference of its own |
| `Tracker.AcceptedUnderTitleGrowthIff` | pkg/tracker/tracker.go:79-106 | An accepted PR stays accepted under every text put behind its title, or before its body, iff the pattern matches in the title or in the body alone |
| `Tracker.TitleMayNotGrow` | pkg/tracker/tracker.go:79-106 | A PR that passes only by a reference across the newline is refused once a colon follows its title |

## Left out

- Stager.Stager.List: a caller reads the statuses behind the returned pointers later and without the lock; the contract speaks of the moment of the call.
- Capacity.RateBoundsBoard: assumes a clock that does not run backwards; the code drops the monotonic reading with `UTC()`, so a wall clock that is set back is not covered.
- OfflineBuffer.Bridge.HttpPost: connections, timeouts and JSON bodies are reduced to a status; errors raised outside the request itself (a forbidden URL scheme, a success reply that is not an object) are not modelled. A fact that the server keeps without answering counts as unacknowledged.
- OfflineBuffer.Bridge.FlushLocalPending: an unreadable buffer file, an entry without `content` and a crash between a post and the write of the file are not modelled.
- Delivery.RoutedIffOneBank: banks are told apart by their quoted path, and quoting is an arbitrary function.
- StdoutRedirect.CloseReturns: a write to the sink is assumed to return; a sink that blocks for ever blocks Close too.
- ImagelessRuns.TextRun: says nothing about scripts whose names contain quotes, `$`, backticks, backslashes or newlines; bash would expand them.
- Bash.Exec: the tests and commands of the generated scripts only; a failing `echo`, signals and the output of provisioners apart from their effect on the world are not modelled.
- Tracker.AcceptedIff: `strings.TrimSpace` and `strings.EqualFold` are arbitrary functions.
- The literal flavor records, tiers, Packer templates and version files: finite data.
- `GenerateBootCommand` and `Search`: string assembly and a substring filter, easy members only.
- `builder.Dispatch` beyond the fact of the call, the MCP SDK, argument decoding, cobra commands and result texts.
- Recall, reflect, status and bank listing of the bridge, and its JSON-RPC loop: I/O plumbing.
- Loading of epics and milestones, and the error texts of the gate.
- The randomness of action IDs: an ID is any string.
- Shell provisioners, the audit script, manifests and cloud-init texts.
