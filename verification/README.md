# ferrijs, modelled and proved

A Dafny model of the logic ferrijs wraps around its engine, and proofs about it. The engine, the clock, the network,
the filesystem and scripts are inputs: arbitrary values, arbitrary functions of what has happened so far, or arbitrary
interleavings. What is proved holds for all of them.

`dafny verify dfyconfig.toml` checks everything.

## The parts

| files | what they model |
|---|---|
| `net_rules`, `permissions`, `container`, `decisions` | host rules and their inclusion, grants and denials, intersection of policies, a container over its whole life, and what a decision comes to |
| `engine_values`, `walk`, `walker`, `builder` | the heap graph, the walk out of the engine with its ancestor stack and key table, the builder into the engine with its atom cache |
| `headers`, `sending`, `send_runs` | the header list, one hop with its retries, the redirect and challenge loop, and what every run of it keeps to |
| `deadlines`, `realm`, `brackets` | the armed budgets, the run bracket as a protocol of overlapping calls, visitors and jobs, and each way through it from end to end |
| `uncaught`, `wakeups`, `vm_thread` | uncaught errors and the run they fail; the two wake-up protocols step by step, with overlapping runs; and exactly what can go wrong on the realm's one thread |
| `record`, `multipart`, `text`, `base64` | the bytecode record, `multipart/form-data` with the text it is made of, Node's base64: each against what undoes it |
| `script_cache`, `lazy_globals`, `emitter` | the compiled-script table against a list by recency, lazy globals against eager ones, listeners under nested emits |

Loops and mutated fields of the Rust code are loops and class fields here; each method is proved against a function or
a predicate, and the theorems are about those. A protocol with several threads is a state, an `Event` datatype, a
predicate saying when an event can happen and a function saying what it does; a run is any sequence of events.

## What turned out not to hold

Each of these is kept as the code has it. The named lemma gives the input, and where there is one the exact condition.

- A wildcard of a wildcard: `*.*.x` passes for subsuming `*.x` without covering `x`, so intersecting or revoking can
  grant what was refused (`NetRules.SubsumesIsInclusion`, `Permissions.NetIntersectionNarrows`,
  `Containers.ADoubledWildcardWidensARevocation`). `Container::revoke` says there is no call that widens.
- Rules that cross by port, and roots that cross by link, lose requests both sides grant
  (`Permissions.TheSharedPortIsLost`, `Permissions.TheLinkedPathIsLost`), exactly when no kept rule or root makes up for it
  (`Permissions.NetIntersectionKeepsIff`, `Permissions.PathIntersectionKeepsIff`).
- JSON numbers come back unchanged exactly when they are safe (`Builders.NormalIsIdentityOnSafeNumbers`).
- A bundle record of 2^32 inputs or more is written with a count of zero (`Records.RoundTripIffCountFits`). An input that
  could not be stamped leaves no trace, so a later change to it is not noticed, although the freshness rule speaks of
  every transitive input; and an input whose path is not text is watched under another name
  (`Records.StoredEntryIsFresh`).
- Past 64 bits of milliseconds every armed budget is due, whatever it has left (`Deadlines.SaturationAnswersEarly`).
- The interrupt flag alone does not poison a realm: a halted run may still answer with a value
  (`Realms.TimedOutIsNotPoisoned`), although the field's comment says the realm is poisoned from then on. It is exactly
  when a call is dropped, cut off or fails afterwards (`Realms.HaltedRealmsArePoisonedByFailing`).
- The first uncaught error does not always fail the run, as `uncaught.rs` has it: when the guard has ended the body with
  it, and another comes before the run is over, the run fails with that one and the first is heard by no one
  (`Uncaught.LateErrorReplacesTheFirst`; exactly when: `Uncaught.FirstErrorFailsTheRunUnlessOneIsLate`).
- An error admitted for one run can reach the next when its handler is overtaken between two loads
  (`VmThread.ErrorReachesTheNextRun`; exactly when: `VmThread.EarlierErrorsArriveIff`), or when a backstop that does not
  poison ends the run (`Uncaught.BackstopLeavesItsErrorBehind`; exactly when: `Uncaught.RunLeavesNothingBehindIff`,
  `Uncaught.BackstopHandsItsErrorOn`).
- Runs may overlap, but share one waker and one `active`. A guard that stores its waker, or is dropped, takes another's
  out: a run can then sleep over its failure (`VmThread.OverlappingRunsLoseAWakeUp`; exactly when:
  `VmThread.WakeUpsAreLostIff`). The end of one run clears `active` for all: errors then go to the host with a run in
  flight, although `uncaught.rs` says the first one fails the run (`VmThread.AnEndTurnsErrorsAway`; exactly when:
  `Wakeups.ErrorsGoPastARunIff`). Neither happens to runs one at a time (`Wakeups.SerialRunsLoseNothing`).
- A guard given up by a backstop that does not poison is dropped late, and takes the next run's waker with it
  (`VmThread.LateDropLosesAWakeUp`, under the same condition). Its job keeps its permit until then, so the next call can be
  refused (`Realms.NextCallAfterABackstopIsRefused`; exactly when: `Realms.SerialCallerIsRefusedIff`).
- A redirect without a `Location` is handed back unless the budget is used up, which is looked at first
  (`SendRuns.RedirectToNowhereIsRefused`; exactly when: `SendRuns.RedirectToNowhere`).
- A combining append stands before later duplicates of its name (`HeaderLists.CombiningReordersDuplicates`; exactly when:
  `HeaderLists.CombiningReadsAsAppendingIff`).
- Field names, file names and types are written without escapes: a semicolon or a line feed cuts them off
  (`Multipart.BrokenNamesDoNotComeBack`; exactly when: `Multipart.ComesBackIffTame`).

## Model

| member | source | states |
|---|---|---|
| NetRules.SubsumesIsInclusion | crates/ferrijs-permissions/src/lib.rs:360-392 | the syntactic test of two rules agrees with inclusion of all hosts and ports they cover, on exactly the pairs where neither is the doubled wildcard of the other |
| NetRules.InclusionIsDecidable | crates/ferrijs-permissions/src/lib.rs:360-392 | covering everything another rule covers, over all hosts and ports, is the syntactic test less the doubled wildcards |
| NetRules.RulesOnOneHostAreNested | crates/ferrijs-permissions/src/lib.rs:360-392 | any two rules that cover one host subsume one another one way or the other |
| NetRules.NoJointCover | crates/ferrijs-permissions/src/lib.rs:360-392 | a list of rules covers all a rule covers only if a single one of them does |
| NetRules.DoubledMissesTheBareHost | crates/ferrijs-permissions/src/lib.rs:373-392 | the doubled wildcard passes the test and misses the bare host |
| Permissions.IntersectInto | crates/ferrijs-permissions/src/lib.rs:133-143 | the loop keeps exactly the entries of each list that some entry of the other subsumes |
| Permissions.UnionInto | crates/ferrijs-permissions/src/lib.rs:502-519 | merged denials hold every denial of both lists and nothing else |
| Permissions.NetIntersectionNarrows | crates/ferrijs-permissions/src/lib.rs:125-147 | intersecting two net grants is no wider than either, if and only if no kept entry is admitted by doubled wildcards alone |
| Permissions.NetPolicyNarrowsIff | crates/ferrijs-permissions/src/lib.rs:722-733 | with denials counted, an intersected policy lets no endpoint through that a side refuses, if and only if every kept rule is included by one rule of each side or of the denials |
| Permissions.IntersectNeverWidens | crates/ferrijs-permissions/src/lib.rs:722-733 | what an intersected policy grants, both policies grant, for requests of every kind and with their denials, net requests under that condition |
| Permissions.IntersectKeepsTheCommonGrant | crates/ferrijs-permissions/src/lib.rs:722-733 | what both policies grant, their intersection grants: always for env and sys, for net and paths under the exact conditions of the next two rows |
| Permissions.NetIntersectionKeepsIff | crates/ferrijs-permissions/src/lib.rs:125-147 | intersecting two lists of host rules loses no endpoint both admit, if and only if for every two rules that cross by port one kept rule covers what they have in common |
| Permissions.PathIntersectionKeepsIff | crates/ferrijs-permissions/src/lib.rs:722-733 | intersecting two lists of roots loses no path under both, if and only if for every two roots that cross by link one kept root holds what lies under the two |
| Permissions.CrossingLosesAnEndpoint | crates/ferrijs-permissions/src/lib.rs:125-147 | for one rule on each side that is: an endpoint is lost if and only if their ports cross |
| Permissions.TheSharedPortIsLost | crates/ferrijs-permissions/src/lib.rs:125-147 | two rules that do: a port of every subdomain, and every port of one subdomain |
| Permissions.CrossingLinksLoseAPath | crates/ferrijs-permissions/src/lib.rs:722-733 | for one root on each side: a path is lost if and only if one is above the other as written and below it as resolved |
| Permissions.TheLinkedPathIsLost | crates/ferrijs-permissions/src/lib.rs:722-733 | two roots that are so: a directory, and a link in it to the top |
| Permissions.DenialsAccumulate | crates/ferrijs-permissions/src/lib.rs:502-519 | a merged denial list covers what either list covered |
| Containers.Container.Revoke | crates/ferrijs-permissions/src/lib.rs:993-996 | afterwards what passes passed before and is in what remains, net requests as long as every kept rule fits; and what passed before and is in what remains still passes, unless crossing rules lose it |
| Containers.Container.Deny | crates/ferrijs-permissions/src/lib.rs:1005-1017 | afterwards a request passes exactly if it passed before and the denial does not name it; one that does not parse changes nothing |
| Containers.Container.Drop | crates/ferrijs-std/src/permissions.rs:151-173 | afterwards a request passes exactly if it passed before and is of another kind |
| Containers.Container.Ask | crates/ferrijs-permissions/src/lib.rs:1019-1035 | granted by the policy or else by the hook, and audited with the outcome |
| Containers.DroppingAKind | crates/ferrijs-std/src/permissions.rs:151-173 | giving up a kind refuses all of it and leaves every decision of the other kinds as it was |
| Containers.DenyingIsExact | crates/ferrijs-permissions/src/lib.rs:1005-1017 | a denial takes away exactly the requests it names |
| Containers.IntersectionWithItself | crates/ferrijs-permissions/src/lib.rs:722-733 | a policy intersected with itself is itself, denials included |
| Containers.LifeOnlyNarrows | crates/ferrijs-permissions/src/lib.rs:985-1017 | over any sequence of revocations, denials and dropped kinds in which every kept rule fits both sides, what passes at the end passed at the start |
| Containers.PlainLifeOnlyNarrows | crates/ferrijs-permissions/src/lib.rs:985-1017 | the same for every sequence at all, when no rule is a wildcard of a wildcard |
| Containers.ADoubledWildcardWidensARevocation | crates/ferrijs-permissions/src/lib.rs:993-996 | a revocation that grants a connection the policy refused |
| Containers.HavingAKindGrantsAllOfIt | crates/ferrijs-permissions/src/lib.rs:1088-1105 | a kind reported as granted refuses no request of it |
| Containers.EveryRequestPassesIff | crates/ferrijs-permissions/src/lib.rs:1088-1105 | for every kind, all its requests pass if and only if it is granted in full, or a root at the top, all facts by name or denials that no host meets make up for it |
| Containers.AllFactsListedIsNotHavingTheKind | crates/ferrijs-permissions/src/lib.rs:1088-1105 | so granting every fact by name is not having the kind |
| Decisions.HostsAreDecidedBare | crates/ferrijs-permissions/src/lib.rs:756-758 | whatever brackets are around a host, it is decided on as what is written between them, each capital replaced by the small letter at its place |
| Decisions.EveryHostHasItsBrackets | crates/ferrijs-permissions/src/lib.rs:756-758 | and every host is written so |
| Decisions.ChecksWhatIsGranted | crates/ferrijs-permissions/src/lib.rs:738-812 | a request is granted exactly when something granted meets it and nothing denied does: a root both its spellings lie under, a host equal to the rule or to what follows its wildcard or dotted onto that, on that port; a variable or a fact itself |
| Decisions.DeniesWhatItNames | crates/ferrijs-permissions/src/lib.rs:1005-1017 | a denial names the paths under its root, the hosts and ports its rule matches, its variable or its fact, and no other request |
| Decisions.BracketsHideNothing | crates/ferrijs-permissions/src/lib.rs:756-775 | with the IPv6 loopback denied a connection to it in brackets is refused |
| Decisions.HasKindIff | crates/ferrijs-permissions/src/lib.rs:1088-1094 | for each kind: reported as granted if and only if it is granted in full and no request of it is refused |
| Walk.UnfoldingIsUnique | crates/ferrijs/src/to_json.rs:243-426 | a value has at most one tree unfolding, so saying the walk answers it says which tree |
| Walk.WalkIsTheUnfolding | crates/ferrijs/src/to_json.rs:243-426 | on any finite heap of arrays and objects the walk answers a tree exactly when that is the value's unfolding, sharing allowed |
| Walk.WalkFailsOnlyOnCycles | crates/ferrijs/src/to_json.rs:175-180 | the walk fails exactly on a symbol and on values from which a cycle can be reached |
| Walk.RenderedKeys | crates/ferrijs/src/to_json.rs:376-426 | an object renders with a key if and only if it has a property of that name whose value is neither undefined nor a symbol nor a function |
| Walk.RenderedProperty | crates/ferrijs/src/to_json.rs:376-426 | and under it with what the last of those properties unfolds to |
| Walk.RenderedElement | crates/ferrijs/src/to_json.rs:330-374 | an array renders every element, with null if and only if it is null, undefined, a symbol, a function or a number that is not finite |
| Walk.RenderedLeaf | crates/ferrijs/src/to_json.rs:159-202 | each value that is no object, and exactly what it renders as: integers up to 9007199254740991 either way, other finite numbers as they are, negative zero as zero, the rest of the numbers as null |
| Walk.EveryLeafRenders | crates/ferrijs/src/to_json.rs:159-172 | every value that is no object renders, except a symbol |
| Walkers.Walker.Key | crates/ferrijs/src/to_json.rs:221-240 | the key table answers the atom's own name and remembers it |
| Walkers.Walker.CheckCycles | crates/ferrijs/src/to_json.rs:175-180 | the loop finds the value exactly when it is on the stack |
| Walkers.Walker.Convert | crates/ferrijs/src/to_json.rs:243-308 | the pushing and popping walk answers the walk on values, and the stack is restored on every exit |
| Walkers.Walker.SequenceItems | crates/ferrijs/src/to_json.rs:330-374 | the loop over elements, with null for what JSON drops |
| Walkers.Walker.MappingEntries | crates/ferrijs/src/to_json.rs:376-426 | the loop over properties, without those JSON drops |
| Walkers.ToHost | crates/ferrijs/src/to_json.rs:159-426 | a whole conversion: none exactly on a symbol or a reachable cycle, else the JSON of the unfolding |
| Builders.NormalIsIdentityOnSafeNumbers | crates/ferrijs/src/to_json.rs:182-202 | numbers through the engine and back are unchanged on exactly the trees whose numbers are all safe |
| Builders.NumbersAreBuiltAs | crates/ferrijs/src/from_json.rs:62-67 | a number becomes an integer of the engine if and only if it is one of 32 bits or negative zero, and else stays the double it is |
| Builders.UnfoldingSurvivesGrowth | crates/ferrijs/src/from_json.rs:55-134 | what a built value unfolds to does not change as more is built |
| Builders.Keys.Intern | crates/ferrijs/src/from_json.rs:55-134 | a key's reference is the cached one or a new one for that very name, and the ledger stays balanced |
| Builders.Keys.Release | crates/ferrijs/src/from_json.rs:41-48 | at the end every cached reference is given back once |
| Builders.Builder.ArrayValue | crates/ferrijs/src/from_json.rs:55-134 | an array is built of its elements in order, or the build stops with the ledger balanced |
| Builders.Builder.ObjectValue | crates/ferrijs/src/from_json.rs:55-134 | an object is built of every field once, in whatever order the engine lists them |
| Builders.ToEngine | crates/ferrijs/src/from_json.rs:41-134 | however a conversion ends, the references to atoms are what they were, and a value built unfolds to the JSON |
| Builders.ThereAndBack | crates/ferrijs/src/to_json.rs:182-426 | converting a tree into the engine and back is the identity if and only if its numbers are safe, whichever keys were cached |
| HeaderLists.Headers.Set | crates/ferrijs-fetch/src/headers.rs:146-166 | the two passes leave the value in the first slot of its name and drop the later ones |
| HeaderLists.Headers.Remove | crates/ferrijs-fetch/src/headers.rs:217-219 | every entry under the name goes and the others keep their order |
| HeaderLists.Headers.AppendCombined | crates/ferrijs-fetch/src/headers.rs:185-194 | a repeat is joined onto the first entry in place, a cookie is a new entry |
| HeaderLists.Headers.Contains | crates/ferrijs-fetch/src/headers.rs:140-142 | true exactly when the name has a value, in any spelling |
| HeaderLists.Headers.GetAll | crates/ferrijs-fetch/src/headers.rs:124-131 | every value under the name in order |
| HeaderLists.RemovedIsGone | crates/ferrijs-fetch/src/headers.rs:217-219 | removing takes all values of a name in any spelling and none of another |
| HeaderLists.SetReplaces | crates/ferrijs-fetch/src/headers.rs:146-166 | setting leaves exactly that value under the name and every other name its own |
| HeaderLists.SetKeepsTheOthers | crates/ferrijs-fetch/src/headers.rs:146-166 | the entries of other names stay, in order |
| HeaderLists.CombinedValues | crates/ferrijs-fetch/src/headers.rs:185-194 | a combining append leaves the first value with a comma, a space and the new one behind it, or one value more when there was none or for `set-cookie` |
| HeaderLists.CombiningReadsAsAppendingIff | crates/ferrijs-fetch/src/headers.rs:185-204 | in any list, joining reads as appending a value if and only if the name had one value at most or the joined value reads the same before the later ones as after them |
| HeaderLists.CombiningReordersDuplicates | crates/ferrijs-fetch/src/headers.rs:185-204 | a list in which it does not |
| HeaderLists.FoldedListsStayFolded | crates/ferrijs-fetch/src/headers.rs:185-204 | a list without repeated names stays one through every edit, and in it joining reads as appending |
| Sending.SendHop | crates/ferrijs-fetch/src/engine.rs:363-403 | the attempts of a hop are one shot repeated after resets only, never a stream, at most the retries and one, each within the deadline, and the end fits the last |
| Sending.HopIsDetermined | crates/ferrijs-fetch/src/engine.rs:363-403 | clock and server determine a hop's attempts and its end |
| Sending.HopHeaders | crates/ferrijs-fetch/src/engine.rs:325-354 | a copy of the headers with the cookies of this hop |
| Sending.RewriteForRedirect | crates/ferrijs-fetch/src/engine.rs:508-535 | the edits in place are the rewritten method, body and headers |
| Sending.Send | crates/ferrijs-fetch/src/engine.rs:548-667 | the loop ends, by the measure of redirects left and credentials absent, having made a run of the protocol and answered as that run ends |
| SendRuns.BudgetIsConserved | crates/ferrijs-fetch/src/engine.rs:310-319 | on every run redirects followed and redirects left add up to the cap, 20 when the request sets none; and nothing is followed with a cap of zero or in another mode |
| SendRuns.RunsAreBounded | crates/ferrijs-fetch/src/engine.rs:591-659 | at most two hops for each redirect of the budget and one more pair, and so many attempts each |
| SendRuns.AuthorizationStaysHome | crates/ferrijs-fetch/src/engine.rs:508-535 | a credential on the wire is at the very URL it was attached for, or at one of the same scheme, host and port, neither opaque: the request's own or that of the challenge it answers |
| SendRuns.MethodAndBody | crates/ferrijs-fetch/src/engine.rs:508-535 | until a redirect rewrites the request every hop has its method and body, from then on every hop is a GET without one |
| SendRuns.HeadersTravel | crates/ferrijs-fetch/src/engine.rs:508-535 | the body's five headers go with the body and every other header reaches every hop unchanged |
| SendRuns.StreamedOnce | crates/ferrijs-fetch/src/engine.rs:570-659 | a stream is on the wire in the first attempt of the run or in none |
| SendRuns.CookiesOnTheWire | crates/ferrijs-fetch/src/engine.rs:325-354 | none when credentials are omitted, the request's own before any redirect, else what the jar holds for the URL |
| SendRuns.OnlyAllowedUrls | crates/ferrijs-fetch/src/engine.rs:591-600 | every attempt of the run is to a URL the guard allows |
| SendRuns.ResponsesAreFinal | crates/ferrijs-fetch/src/engine.rs:650-667 | a response handed back is the last received, at its URL, within the budget, and a redirect only where none was to be followed |
| SendRuns.TooManyIffAllFollowed | crates/ferrijs-fetch/src/engine.rs:624-632 | that error comes if and only if the whole budget was followed and another redirect came |
| SendRuns.RedirectToNowhere | crates/ferrijs-fetch/src/engine.rs:624-637 | a run that ends on a redirect without a Location hands it back if and only if it has not followed its whole budget, and fails of it otherwise |
| SendRuns.RedirectToNowhereIsRefused | crates/ferrijs-fetch/src/engine.rs:624-637 | a run that ends so, with a budget of one |
| SendRuns.RunIsDetermined | crates/ferrijs-fetch/src/engine.rs:548-667 | the surroundings determine the whole run: its hops, its attempts and its result |
| SendRuns.BeginsAsAsked | crates/ferrijs-fetch/src/engine.rs:548-590 | a run begins with the method, URL, headers and body of the request |
| SendRuns.GoesOnIff | crates/ferrijs-fetch/src/engine.rs:621-659 | from an answer a run goes on if and only if it is 301, 302, 303, 307 or 308 with a Location that resolves, in mode follow with fewer redirects followed than the cap or 20, and no stream to send again; or a 401 for Basic to a request without credentials that has an answer |
| SendRuns.WhatARedirectKeeps | crates/ferrijs-fetch/src/engine.rs:508-535 | 301 and 302 turn a POST, 303 anything but GET and HEAD into a GET without body and its five headers; 307, 308 and all else keep method, body and headers; a cookie always goes, and credentials exactly when scheme, host or port differ or the origin is opaque |
| SendRuns.WhatAnAnswerKeeps | crates/ferrijs-fetch/src/engine.rs:461-482 | an answered challenge is asked again at the same URL with all the request had there and that one value of `Authorization` |
| SendRuns.EndsWith | crates/ferrijs-fetch/src/engine.rs:614-667 | and if it does not go on, exactly which response or error it hands back |
| Deadlines.TimeoutState.Recompute | crates/ferrijs/src/limits.rs:201-204 | the cache is the least deadline armed, or the mark of none |
| Deadlines.TimeoutState.Arm | crates/ferrijs/src/limits.rs:207-213 | a budget under a token never used before is added and the cache follows |
| Deadlines.TimeoutState.Disarm | crates/ferrijs/src/limits.rs:215-219 | exactly the token's budget goes |
| Deadlines.TimeoutState.ArmHost | crates/ferrijs/src/limits.rs:222-227 | the host's slot is armed once however often it is armed |
| Deadlines.TimeoutState.Expired | crates/ferrijs/src/limits.rs:243-269 | with its cache and early exits it answers exactly: cancelled, or some budget has run out counting the time parked since it was armed |
| Deadlines.TimeoutState.Interrupt | crates/ferrijs/src/runtime.rs:553-563 | the flag is set by a halt and never cleared |
| Deadlines.CacheTellsNothingArmed | crates/ferrijs/src/limits.rs:176-204 | the cache rests at its mark exactly when nothing is armed |
| Deadlines.NothingDueBefore | crates/ferrijs/src/limits.rs:243-255 | the early exit is right: parked time only moves deadlines later |
| Deadlines.EarliestIsDue | crates/ferrijs/src/limits.rs:256-260 | with a clock that never parks the cached minimum is the whole answer |
| Deadlines.ArmedIsDueAtItsDeadline | crates/ferrijs/src/limits.rs:207-269 | an armed budget is used up once its deadline has passed and what was parked since; past 2^64 - 2 it counts as that |
| Realms.TokensFollowTheList | crates/ferrijs/src/limits.rs:207-231 | the protocol's tokens are those of the list the interrupt handler reads, through every change |
| Realms.StepKeepsInvariant | crates/ferrijs/src/runtime.rs:839-964 | every step of every call, job, host and handler keeps the whole invariant |
| Realms.EveryRunKeepsInvariant | crates/ferrijs/src/runtime.rs:495-518 | in every reachable state: one armed token for each unfinished armed call and at most the host's, permits add up, cancelled implies poisoned |
| Realms.PermitsStayAddedUp | crates/ferrijs/src/vm.rs:53-90 | free slots and live permits, those of `run` and of `with`, always make up the capacity |
| Realms.PoisonIsForGood | crates/ferrijs/src/runtime.rs:903-964 | poison is never cleared, over any continuation of a run |
| Realms.PoisonedRealmRunsNothing | crates/ferrijs/src/runtime.rs:839-868 | a call on a poisoned realm never holds a permit, a budget or a job |
| Realms.ResultsTellOfPoison | crates/ferrijs/src/runtime.rs:903-964 | a result that says poisoned is right, and the realm is poisoned exactly when some call was dropped while armed or ended so |
| Realms.RefusedOnlyWhenFull | crates/ferrijs/src/vm.rs:67-90 | a call or a visitor by `with` is refused exactly when live permits fill the capacity |
| Realms.SerialCallersAreNeverRefused | crates/ferrijs/src/vm.rs:142-192 | callers and visitors that wait for their jobs' answers, also for the news that there is none, find a slot, at capacity one too |
| Realms.SerialCallerIsRefusedIff | crates/ferrijs/src/vm.rs:142-192 | a caller that comes when all others are done is refused if and only if jobs given up, and not off the loop yet, fill the capacity |
| Realms.GivenUpByDropOrBackstop | crates/ferrijs/src/runtime.rs:881-897 | and a job is given up only by its caller's being dropped or by its backstop |
| Realms.NextCallAfterABackstopIsRefused | crates/ferrijs/src/runtime.rs:891-895 | a run with room for one job in which the call after a backstop is refused |
| Realms.QuietRealmHasEverythingBack | crates/ferrijs/src/vm.rs:53-59 | once calls, visitors and jobs are over every permit is back and nothing but the host's budget is armed |
| Realms.TimedOutIsNotPoisoned | crates/ferrijs/src/limits.rs:156-159 | a run in which the flag is set and the realm is not poisoned |
| Realms.PoisonedByItsEvents | crates/ferrijs/src/runtime.rs:903-964 | over every run a realm is poisoned if and only if a dropped call, the store after a failure or a backstop that poisons was among its events |
| Realms.StoredAfterFailing | crates/ferrijs/src/runtime.rs:903-942 | a call is about to store the poison exactly when it has failed with the flag set or for want of memory, and has not stored it yet |
| Realms.DoomedByItsEvents | crates/ferrijs/src/runtime.rs:903-964 | a realm is poisoned, or a call has only the store left, if and only if some event of the run was fatal where it happened |
| Realms.HaltedRealmsArePoisonedByFailing | crates/ferrijs/src/runtime.rs:903-964 | once the flag is set, what follows poisons if and only if in it a call is dropped, cut off by a backstop that poisons, or ends with any failure at all |
| Realms.FlagsTellOfEvents | crates/ferrijs/src/runtime.rs:495-518 | over every run the realm is cancelled if and only if a dropped call has cancelled it, halted if and only if interrupted, without its loop if and only if shut down |
| Realms.DroppedScriptsCanBeHalted | crates/ferrijs/src/limits.rs:243-246 | once a call has been dropped with its job on the loop, the interrupt handler can halt the script in every state of every continuation |
| Realms.DroppedCallCancels | crates/ferrijs/src/runtime.rs:495-518 | a run of one call dropped over a running job, to its end: poisoned, cancelled, nothing armed, the script still to be halted |
| Realms.OutcomesComeFromSettling | crates/ferrijs/src/runtime.rs:881-897 | over every run a call has an outcome if and only if it settled with it and has not finished since: an uncaught error before its job's reply, the reply, or a failure when there is none or no slot |
| Realms.RepliesAreOfCompletion | crates/ferrijs/src/vm.rs:142-192 | and what a job replies is what it completed with |
| Brackets.CallIsServed | crates/ferrijs/src/runtime.rs:839-942 | from any reachable state with a slot free, the whole run of a call that is served: slot and budget are back, everything else is as it was, and it poisons exactly on a failure after the flag was set or for want of memory |
| Brackets.CallLosesItsJob | crates/ferrijs/src/vm.rs:142-192 | the same for a call whose loop goes while its job runs |
| Brackets.CallIsDropped | crates/ferrijs/src/runtime.rs:495-518 | the same for a call dropped before or after its job began: all is back once the loop has come to the job, and the realm is poisoned and cancelled |
| Brackets.CallIsCutOff | crates/ferrijs/src/runtime.rs:891-895 | the same for a call ended by its backstop |
| Brackets.CallFindsNoLoop | crates/ferrijs/src/vm.rs:142-192 | the same for a call that finds the loop gone |
| Brackets.CallIsTurnedAway | crates/ferrijs/src/runtime.rs:839-868 | a call refused for poison or want of a slot, or left before it is armed, takes nothing |
| Brackets.VisitorIsServed | crates/ferrijs/src/vm.rs:53-90 | from any reachable state with a slot free, poisoned too, the whole run of a visitor by `with`, which leaves the realm as it was |
| Brackets.VisitorLosesItsJob | crates/ferrijs/src/vm.rs:53-90 | and when the loop goes under its job |
| Brackets.VisitorIsTurnedAway | crates/ferrijs/src/vm.rs:67-90 | a visitor that finds no slot or no loop takes nothing |
| Brackets.JobsGoForAReason | crates/ferrijs/src/vm.rs:142-192 | over every run a job is thrown away only after a drop or a backstop, and lost only once the loop is gone |
| Brackets.HostIsArmedIff | crates/ferrijs/src/limits.rs:222-231 | over every run the host's slot is armed from each arming to the next disarming, whatever calls do |
| Brackets.HostMayAlways | crates/ferrijs/src/limits.rs:222-231 | and the host may arm, disarm and shut down in every state |
| Wakeups.NoLostWakeUp | crates/ferrijs/src/uncaught.rs:67-160 | in every interleaving, however runs overlap, a guard asleep over a failure has been woken or a handler has its wake still to come, unless since it stored its waker another guard has stored one or was dropped |
| Wakeups.RobbedMeansTakenOut | crates/ferrijs/src/uncaught.rs:137-160 | the mark a guard carries says exactly that of the events |
| Wakeups.SerialRunsLoseNothing | crates/ferrijs/src/uncaught.rs:67-160 | where no two runs overlap, and no guard is left behind, no wake-up is lost and `active` is set for as long as a run is in flight |
| Wakeups.ActiveUntilARunEnds | crates/ferrijs/src/uncaught.rs:99-108 | once a run has begun, `active` is clear exactly when some run has ended since the last one began |
| Wakeups.ActiveSinceARunBegan | crates/ferrijs/src/uncaught.rs:67-108 | and at any time it is set if and only if a run has begun and none has ended since |
| Wakeups.ErrorsGoPastARunIff | crates/ferrijs/src/uncaught.rs:67-94 | an error thrown while a run is in flight and has none yet goes to the host if and only if another run has ended since the last one began |
| Wakeups.HostHearsIff | crates/ferrijs/src/uncaught.rs:67-94 | the host hears an error if and only if a failure waits or no run has begun since the last end |
| Wakeups.GuardsEndBy | crates/ferrijs/src/uncaught.rs:110-160 | over every run a guard is over only with an error, by its body's finishing, or when its caller has given it up; and it holds a stored waker exactly until then |
| Wakeups.SlotIsOf | crates/ferrijs/src/uncaught.rs:137-160 | the one slot holds the last waker stored, until a handler takes it or any guard that ever stored one ends |
| Wakeups.GuardsGoOn | crates/ferrijs/src/uncaught.rs:127-150 | in every reachable state a guard in its poll can take its next step, at the latest once the handler that holds the lock has set the flag |
| Wakeups.EarlierErrorsNeedOneWaiting | crates/ferrijs/src/uncaught.rs:67-108 | in every interleaving, whatever runs overlap, a run that begins with no report on its way to the flag or under it never answers with an error of before it |
| Wakeups.EveryReportIsAccountedFor | crates/ferrijs/src/uncaught.rs:67-160 | in every interleaving the errors admitted are exactly those that a handler still has, that wait in the cell, or that are some run's, each in one such place, and those lost: written over, or given up for a later one by the caller of the run that caught them |
| Wakeups.CallersAnswerWhatWasCaught | crates/ferrijs/src/uncaught.rs:99-135 | a run that has ended answers with what its guard caught, or with the error its caller found in the cell as it ended, and not before it ends |
| Wakeups.ErrorsWaitUnderTheFlag | crates/ferrijs/src/uncaught.rs:67-150 | an error in the cell is under the flag, or its handler is about to set it, or somebody who has cleared it is about to take the error |
| VmThread.WakeUpsAreLostIff | crates/ferrijs/src/uncaught.rs:110-160 | with guards and handlers on their one thread, and while no other run begins: a run can come to sleep over a failure for good if and only if, as it begins, another guard is not over, in flight or left behind, and no failure waits or a third party can take it |
| VmThread.OverlappingRunsLoseAWakeUp | crates/ferrijs/src/uncaught.rs:137-160 | two runs in flight, no backstop and no race: the first one's guard takes the second one's waker with it |
| VmThread.AnEndTurnsErrorsAway | crates/ferrijs/src/uncaught.rs:99-108 | the same two runs: once the first has ended the host hears an error with the second in flight |
| VmThread.LateDropLosesAWakeUp | crates/ferrijs/src/uncaught.rs:152-160 | two runs that do not overlap: a guard given up by a backstop is dropped once the next one sleeps |
| VmThread.EarlierErrorsArriveIff | crates/ferrijs/src/uncaught.rs:67-108 | whatever other runs do, a run can answer with an error of before it if and only if, as it begins, a report is on its way to the flag or under it and no other guard is past its body to take it |
| VmThread.ErrorReachesTheNextRun | crates/ferrijs/src/uncaught.rs:67-108 | guard and handler on one thread, a run that ends with the error of the run before |
| Parking.NoLostWakeUp | crates/ferrijs/src/vm.rs:114-128 | in every interleaving a call asleep over a parked job has been woken or the raise has its wake still to come |
| Parking.OnlyParkedJobsAreTimed | crates/ferrijs/src/limits.rs:363-384 | no timer is started for a job that has not parked |
| Parking.ParkedCallsComeToBeTimed | crates/ferrijs/src/limits.rs:363-384 | from every reachable state a call over a parked job that is not done comes to be timed, woken by nothing but the raise |
| Parking.CallGoesOnIff | crates/ferrijs/src/limits.rs:363-384 | what a call can do next follows from what it did last: poll the job, store its waker, look at the flag, sleep until polled again |
| Parking.CellTellsOfEvents | crates/ferrijs/src/vm.rs:114-128 | the job is parked once raised, a waker is stored from a registering until the next take, and a wake holds until the next poll |
| Parking.RaisesEndAsTheyWake | crates/ferrijs/src/vm.rs:114-120 | a raise is in progress from its swap until its wake |
| Parking.CallIsWhereItsLastStepLeftIt | crates/ferrijs/src/limits.rs:369-384 | where a call is follows from the last thing it did |
| Uncaught.Watch.PollGuard | crates/ferrijs/src/uncaught.rs:127-150 | an error ends the poll, otherwise a waker is left |
| Uncaught.Drive | crates/ferrijs/src/runtime.rs:881-897 | a run over the shared cell answers and leaves the cell as the run on values does |
| Uncaught.UncaughtErrorsFailTheRun | crates/ferrijs/src/uncaught.rs:99-150 | a run alone in its realm, without its backstop, fails with the first uncaught error thrown during it, or with the first that came after the guard had ended the body with that; else it answers for itself; and it leaves nothing behind |
| Uncaught.FirstErrorFailsTheRunUnlessOneIsLate | crates/ferrijs/src/uncaught.rs:5-8 | the first error is the one reported if and only if none came late, or one just like it |
| Uncaught.LateErrorReplacesTheFirst | crates/ferrijs/src/runtime.rs:881-887 | a run that fails with its second error, and the first is heard by no one |
| Uncaught.EveryThrowIsKeptOrHooked | crates/ferrijs/src/uncaught.rs:67-94 | what was thrown in a run is, in order, a merge of what was handed to the run and what the host heard: nothing twice and nothing neither |
| Uncaught.RunLeavesNothingBehindIff | crates/ferrijs/src/runtime.rs:881-897 | any run on a clean cell leaves it clean if and only if its job replied or nothing was thrown in it |
| Uncaught.QuietRunAnswers | crates/ferrijs/src/runtime.rs:881-891 | any run in which nothing is thrown answers for itself on a clean cell, and with the error left there on any other |
| Uncaught.BackstopHandsItsErrorOn | crates/ferrijs/src/runtime.rs:891-895 | after a backstop that does not poison, any quiet run answers for itself if nothing was thrown in the run before, and else with that run's first error |
| Uncaught.BackstopLeavesItsErrorBehind | crates/ferrijs/src/runtime.rs:891-895 | two such runs |
| Records.Stamp | crates/ferrijs-bundle/src/cache.rs:326-329 | the inputs that can be stamped, in order, each under the lossy text of its path |
| Records.Store | crates/ferrijs-bundle/src/cache.rs:331-343 | the buffer appended to is the record of the entry |
| Records.Load | crates/ferrijs-bundle/src/cache.rs:275-305 | reading with the cursor is reading the record from its bytes, stamps checked on the way |
| Records.Reader.NextSlice | crates/ferrijs-bundle/src/cache.rs:366-409 | the cursor moves over a length and its bytes, or nothing is read |
| Records.RecordReadsBack | crates/ferrijs-bundle/src/cache.rs:275-343 | a record of fewer than 2^32 inputs loads back to its bytecode, name, map, aux and inputs while all stamps hold, and not once one does not |
| Records.RoundTripIffCountFits | crates/ferrijs-bundle/src/cache.rs:331-333 | with all stamps holding it loads back if and only if the count fits 32 bits |
| Records.StoredEntryIsFresh | crates/ferrijs-bundle/src/cache.rs:314-343 | a stored entry loads exactly while, for every input that could be stamped, what its path was written as is stamped the same |
| Records.CutRecordIsRefused | crates/ferrijs-bundle/src/cache.rs:366-409 | every strict prefix of a record is refused |
| Records.RecordIsWritten | crates/ferrijs-bundle/src/cache.rs:331-347 | a record byte by byte: `FJB1`, the count in four bytes and each stamp and length in eight, the low one first, one byte before what is optional |
| Records.OtherLettersAreRefused | crates/ferrijs-bundle/src/cache.rs:279-281 | bytes that do not begin with those letters load as nothing |
| Multipart.Serialize | crates/ferrijs-fetch/src/multipart.rs:90-118 | the body is a delimiter, the parts each with the delimiter after it, and the closing |
| Multipart.FindFirst | crates/ferrijs-fetch/src/multipart.rs:222-224 | the first place the needle occurs, or none when it occurs nowhere |
| Multipart.SplitOn | crates/ferrijs-fetch/src/multipart.rs:228-238 | the pieces after each separator, the leading one dropped |
| Multipart.Parse | crates/ferrijs-fetch/src/multipart.rs:154-202 | the fields of the pieces that are parts, in order |
| Multipart.FoundWhereItStands | crates/ferrijs-fetch/src/multipart.rs:222-238 | a delimiter without line breaks is never found across the end of a part |
| Multipart.ParsingUndoesSerializing | crates/ferrijs-fetch/src/multipart.rs:90-202 | parsing what was serialised gives tame fields back for arbitrary file bytes when the delimiter occurs in no part |
| Multipart.OnlyTameFieldsAreParsed | crates/ferrijs-fetch/src/multipart.rs:154-220 | a field parsed from any body at all has no semicolon and no line feed in its names, and a trimmed type of one line |
| Multipart.ComesBackIffTame | crates/ferrijs-fetch/src/multipart.rs:90-220 | so any list of fields of text comes back if and only if every field of it is so |
| Multipart.BrokenNamesDoNotComeBack | crates/ferrijs-fetch/src/multipart.rs:205-220 | two names that do not |
| Multipart.ThereAndBack | crates/ferrijs-fetch/src/multipart.rs:90-202 | the two methods, one after the other, are the identity if and only if every field is tame |
| Multipart.DispositionReads | crates/ferrijs-fetch/src/multipart.rs:205-220 | the quoted name and file name are read as they were written |
| Multipart.PartsAreWritten | crates/ferrijs-fetch/src/multipart.rs:90-118 | each kind of field on the wire, word for word |
| Multipart.UntypedFileReads | crates/ferrijs-fetch/src/multipart.rs:190-199 | a file part without a type reads as `application/octet-stream`, for any names and bytes |
| Multipart.UnquotedIs | crates/ferrijs-fetch/src/multipart.rs:205-220 | a pair of quotes around a parameter is taken off and any other quote stays |
| Multipart.BareParameterReads | crates/ferrijs-fetch/src/multipart.rs:205-220 | a parameter written without quotes reads as it is |
| MultipartText.TextIsCharacters | crates/ferrijs-fetch/src/multipart.rs:174-202 | bytes are read as text unchanged if and only if they are the UTF-8 of some sequence of characters |
| MultipartText.WhiteIs | crates/ferrijs-fetch/src/multipart.rs:176-213 | what is trimmed off a name, a type or a parameter are the white space characters of Unicode, each by its code point |
| MultipartText.WhiteIsACharacter | crates/ferrijs-fetch/src/multipart.rs:176-213 | and nothing else |
| MultipartText.LinesEnd | crates/ferrijs-fetch/src/multipart.rs:176-179 | a header line ends at a line feed, one carriage return before that not counted, or at the end of the head |
| MultipartText.PartsAreTrimmed | crates/ferrijs-fetch/src/multipart.rs:158-167 | a part loses the line ends around it and nothing more, and what begins with two dashes is none |
| MultipartText.BodyOfOne | crates/ferrijs-fetch/src/multipart.rs:90-118 | a body with one field, the delimiters around it word for word |
| Base64.Decode | crates/ferrijs-std/src/encoding/mod.rs:258-291 | the loop with its group of four joins the symbols before the first pad |
| Base64.DecodingUndoesEncoding | crates/ferrijs-std/src/encoding/mod.rs:258-291 | decoding gives back any bytes encoded in either alphabet of RFC 4648, padded or not |
| Base64.OtherBytesAreIgnored | crates/ferrijs-std/src/encoding/mod.rs:258-291 | a byte of neither alphabet changes nothing, and a pad ends the reading |
| Base64.PaddedToFours | crates/ferrijs-std/src/encoding/mod.rs:258-291 | the padded encoding is the bare one, of four symbols for three bytes rounded up, filled with `=` to whole groups |
| Base64.SymbolsAreTheTables | crates/ferrijs-std/src/encoding/mod.rs:258-291 | the two alphabets letter by letter, as RFC 4648 has them |
| Base64.DecodesBothAlphabets | crates/ferrijs-std/src/encoding/mod.rs:258-291 | a byte is read as a symbol if and only if one of the alphabets writes the symbol so |
| Base64.ByteLengthIsEnough | crates/ferrijs-std/src/buffer/class.rs:222-232 | the promised length is at least the length decoded, for every text |
| Base64.ByteLengthIsExact | crates/ferrijs-std/src/buffer/class.rs:222-232 | and equals it for alphabet text with at most two pads at its end |
| ScriptCaches.ScriptCache.Get | crates/ferrijs/src/script_cache.rs:87-98 | the function kept for this very source, and the table goes on standing for the list by recency |
| ScriptCaches.ScriptCache.Oldest | crates/ferrijs/src/script_cache.rs:107-116 | an entry with the least stamp |
| ScriptCaches.ScriptCache.Put | crates/ferrijs/src/script_cache.rs:101-129 | the script is kept within the limit, and the table stands for the list with it at the end |
| ScriptCaches.EvictingTheOldest | crates/ferrijs/src/script_cache.rs:107-116 | the entry with the least stamp is the least recently used |
| ScriptCaches.StampingMovesToTheEnd | crates/ferrijs/src/script_cache.rs:94-97 | a later stamp makes a script the most recently used and keeps the order of the rest |
| ScriptCaches.OnlyTheSourcesOwn | crates/ferrijs/src/script_cache.rs:87-129 | over any calls and under any hash: at most the limit is kept, and a source finds only what was last kept for it |
| ScriptCaches.RecentScriptsStay | crates/ferrijs/src/script_cache.rs:87-129 | a script is still found after calls on fewer than `limit` other hashes, however many |
| ScriptCaches.RunScripts | crates/ferrijs/src/script_cache.rs:87-129 | over any calls the table answers as the list by recency does until its clock runs out, and never with another source's function even after |
| LazyGlobals.Realm.InstallGroup | crates/ferrijs-std/src/lazy.rs:172-227 | an install leaves every name, its own and others', meaning what it means in the eager realm, assigned and deleted names included |
| LazyGlobals.Realm.Get | crates/ferrijs-std/src/lazy.rs:80-111 | a read, from a script or inside an install, answers as in the eager realm, and changes nothing unless it meets an accessor |
| LazyGlobals.Realm.Ensure | crates/ferrijs-std/src/lazy.rs:121-135 | the group that owns the name has installed and no name changed its meaning |
| LazyGlobals.Realm.EnsureAll | crates/ferrijs-std/src/lazy.rs:143-153 | every group has installed and no name changed its meaning |
| LazyGlobals.RunLazily | crates/ferrijs-std/src/lazy.rs:80-227 | over any reads, assignments and deletes every read answers as in a realm that installed all at the start, no install runs twice, and none of a group of which no name was read, by the script or by an install before it, or ensured |
| Emitters.Emitter.AddListener | crates/ferrijs-std/src/events/mod.rs:338-375 | the listener joins its key's list at its end or, prepended, at its beginning, and the other keys keep theirs |
| Emitters.Emitter.RemoveListener | crates/ferrijs-std/src/events/mod.rs:244-265 | the first registration of the callback goes, and the key with its last listener |
| Emitters.Emitter.TakeListeners | crates/ferrijs-std/src/events/mod.rs:399-438 | an emit calls the listeners it found, and those registered once are gone before the first is called |
| Emitters.Emitter.RemoveAllListeners | crates/ferrijs-std/src/events/mod.rs:497-513 | one key's listeners go, or all |
| Emitters.WithListeners | crates/ferrijs-std/src/events/mod.rs:244-438 | writing one key's list keeps keys unique and lists filled, and every other key its listeners |
| Emitters.StepKeepsInv | crates/ferrijs-std/src/events/mod.rs:399-438 | every step of a script, inside or outside emits, keeps the lists in order and each once registration in one place at most |
| Emitters.OnceMeansOnce | crates/ferrijs-std/src/events/mod.rs:399-438 | a once registration is called at most once across all nested emits, and when it has been it is nowhere else |
| Emitters.CallsComeFromEmits | crates/ferrijs-std/src/events/mod.rs:399-438 | over every run of nested emits a listener has been called as often as emits found it registered, but for the calls dropped and those still to come |
| Emitters.Play | crates/ferrijs-std/src/events/mod.rs:244-438 | any script of registrations, removals, emits and calls makes exactly these calls in this order on the emitter itself |

## Left out

- QuickJS, allocators, arena pins, garbage collection and lifetimes: the engine's own.
- `toJSON`, getters, proxies, boxed values and BigInt in the walk: they run scripts, which may do anything.
- Lone surrogates: two property names that differ only in them collapse in the host's strings; names here are strings already.
- The walk's own references to atoms, and the order the engine lists properties in, which is arbitrary here.
- Path normalisation and symlink resolution: paths are given in both spellings.
- Parsing and printing host rules, and the environment's and system's own names.
- The DNS and address checks behind the network guard, cookie matching, and the client's construction: the guard is one arbitrary answer per URL, the jar one text per hop.
- Backoff between retries and the timings of a hop: no claim depends on them.
- The backstop's timer and its re-derivation after a park: it may fire at any moment a call waits.
- Applying memory, stack and collection limits, redaction, and console capture in the run bracket.
- The windows-1252, latin1, UTF-16 and hex codecs: maps of bytes that would only add easy members.
- Boundary generation and the boundary parameter of a content type.
- Trait hooks of the emitter (`on_event_changed`), event names in order and `EventTarget` options.
- Memory orderings: every load and store in the wake-up protocols is taken to be sequentially consistent, and the two loads that admit a report are one step.
- The order of tasks on the realm's loop is taken as arbitrary, so a guard left behind may be dropped after a later job has been polled (`VmThread.LateDropLosesAWakeUp` needs that; `VmThread.OverlappingRunsLoseAWakeUp` does not).
- Guards lost with the loop: what they would have heard ends with the realm.
- What a visitor by `with` does with its answer: it is outside the run bracket.
- Containers.Container.Drop: one step here; the source takes a copy of the policy and then revokes, so a denial made in between by another thread is kept by the intersection.
- Containers.LifeOnlyNarrows: paths are resolved the same way throughout.
- Builders.ToEngine: references to one atom are told apart rather than counted.
- Deadlines.TimeoutState.Expired: readings of the parked clock are taken to fit 64 bits already, and tokens do not wrap around.
- Uncaught.UncaughtErrorsFailTheRun: one run at a time, with one report, one poll and one end one step each, like everything in `Uncaught`; `Wakeups` and `VmThread` take the steps apart, let runs overlap, and show what that changes.
- Records.RecordReadsBack: which byte strings are text, and the lossy text of a path that is none, are parameters, and lengths are those of a 64-bit `usize`.
- Multipart.ParsingUndoesSerializing: what a lenient conversion makes of bytes that are not text is a parameter.
- ScriptCaches.ScriptCache.Put: the list by recency is followed until the 64-bit clock runs out; the bound and the sources are kept after that too.
- LazyGlobals.RunLazily: installs define writable, configurable data properties and do not throw; accessors and read-only properties a script defines are not modelled. An install that throws returns before the names it set aside are put back.
- Emitters.OnceMeansOnce: a listener that throws ends its emit; the listeners after it are dropped from the calls to come.
