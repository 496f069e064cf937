# Verified model of the persona service's stateful and algorithmic kernels

The service looks a phone number or e-mail address up at many sites and assembles one persona. Most of it is
HTTP traffic; this project models the parts whose behaviour is decided by the code itself, and proves what they
are for.

* `ConfigCache.dfy`, `ConfigLoss.dfy`, `ConfigFetcher.dfy`: the in-memory configuration that follows a database
  through an audit log. Upserts, the steps of the refresh loop and request-path fallbacks interleave freely; no
  update is lost while reads succeed and fallbacks land in time, and over every run at all it is exactly known which
  step loses what.
* `TokenPool.dfy`, `TokenExpiry.dfy`: the background pool of tokens, with concurrent readers and generators, expiry
  and backoff.
* `Sampler.dfy`, `ProbePlan.dfy`, `Aggregate.dfy`, `NamesList.dfy`: which UPI sources and bank suffixes are probed, and how the
  profiles that come back in any order are collapsed into one verdict and one list of verified names.
* `BracketPath.dfy`, `IntelMerge.dfy`, `IntelRun.dfy`, `FeatureList.dfy`: the merge of the intelligence features, which
  are walked in random order, into nested maps at configured paths.
* `Search.dfy`, `Condition.dfy`, `Grammar.dfy`: the conditions that switch those features on, and what they mean.
* `AccountEntry.dfy`, `CacheKeys.dfy`, `PersonaCache.dfy`: account entries flattened to JSON and read back, and
  the persona cache that relies on that pair being inverse.
* `EnrichCache.dfy`: the shared document of enrichment answers and its concurrent write-backs.
* `JsonTree.dfy`, `UpiResponse.dfy`, `ClientView.dfy`, `UpiView.dfy`, `ClientReads.dfy`, `ClientNulls.dfy`: what of the
  response a client gets to see, what it may learn of the raw UPI profile, and when a null is left in it.
* `BasicAuth.dfy`: the load tester's hand-written base64 encoder (section 4 of RFC 4648) and the credentials it
  carries (section 2 of RFC 7617).
* `Base.dfy`, `JsonValue.dfy`: optional values, three-valued verdicts, JSON documents.

Protocols are state machines over their atomic steps, and theorems about them speak of every run. Code that
updates fields or arrays is a class or a method with a loop, proved against a function; where the class takes
part in a protocol its methods are proved to be runs of the state machine. What an operation yields is also stated
without those functions, in terms of its inputs and the literal keys, defaults and limits. `dafny verify dfyconfig.toml` checks
everything.

## What turned out false, and when it holds

* A configuration update is lost when a read inside a refresh fails (the loop moves on all the same), when an override
  read fails (the base value is stored in its place, in the first load as well), and when a fallback read starts before
  a change and is written after the loop has passed it. `FailedRefreshLosesUpdate`, `FailedOverrideLosesUpdate` and
  `StraddlingFallbackLosesUpdate` give a run of each. `LostIff` covers every run: a key is lost at its end exactly when
  some step has lost it and no later one has made up for that, and `StepLosesIff` says of every step whether it does.
  The documentation of the loop promises that the id only advances after a successful refresh; the code does not
  check that.
* The first load stops early at a page that holds an empty key (`LoadCompleteIff`).
* A token can be served after its lifetime in every pool with room for one (`CanServeExpiredIff`). How long after
  the last filter depends on whether the pool sleeps longer than a token lives (`ExpiredAtDistanceIff`).
* Trimming the pool never discards anything in a run (`PoolIsBoundedAndOrdered`); of a pool overfilled in some other
  way it would keep the newest tokens (`ShrinkKeepsNewest`).
* The client's response is cleaned of nulls, but not inside the two lists that the UPI mapper keeps in a type of its
  own: a PhonePe answer alone, which carries no suffix, prints `"profiles": null` (`PhonePeAlonePrintsNull`), and
  verified names without a tenant configuration print null as well. `NoNullIff` says exactly when no null is left.
* A chosen suffix need not be probed. The fan-out tests for the common flow without looking at the phase, so a source
  of the other phase's common flow drops its share; a source without a crawler drops it too; a source that drives
  itself never looks at it (`EmulatorDropsItsShare`, an entry of the default source list once enabled); and a suffix
  outside the table of apps is dropped by every source. `ChosenProbedIff` is the exact condition. A comment counts the
  BRB source among those that drive themselves (internal/crawler/upi/source.go:25-27); its code does not.
* The winning suffix depends on how a map is walked when several candidates and none of them configured compete
  (`SuffixSettledIff`), and the name shown with a verdict depends on arrival order unless the true profiles of the
  winning suffix agree (`WholeVerdictIff`).
* The status `not-found` can stand beside a bank name: the name is taken over although the account is said not to
  exist; and a name that is null or empty calls for no status at all unless it is (`NameVerdictIff`).
* A hit need not replay the newest section: a write-back that lands late replaces a newer one (`LateWriteWins`).
  What is replayed is the newest at every moment exactly when a slot's write-backs land in the order of their clocks
  (`AlwaysNewestIff`).
* Two features whose paths are nested are merged differently in different orders unless one write already holds
  the other (`SwapIff`, `OrderIrrelevantIff`).
* An entry whose data uses one of the typed keys, or a failed entry with anything else in it, is not read back as
  it was (`RoundTripIff`), as the error entries of the UPI crawler, which carry their mark in the data
  (internal/crawler/upi/run.go:61-64), are not: replayed by the persona cache, such an entry is a bare error with its
  website (`ReplayShows`). Of a failed entry only the failure and the website survive (`ErrorHidesTheRest`), and a null
  verdict is read back as false (`NullVerdictReadsFalse`).
* Overlapping enrichment requests lose each other's answers unless the later write repeats them
  (`OverlapKeepsIff`), and a request whose cache read fails forgets what it does not get again
  (`FailedReadKeepsIff`).
* Requests that give the same values in different fields share an enrichment document (`SameTextIff`,
  `LoneValuesCollide`), and without hashing so do a login with a tenant and a login that looks like one
  (`RawKeysEqualIff`, `RawKeysCollide`).
* A tenant whose output key is the score's own name loses the score (`RenameKeepsScoreIff`).
* A user name with a colon cannot be sent (`CredentialsRecoveredIff`).

## Model

| member | source | states |
|---|---|---|
| ConfigCache.NoLostUpdate | internal/appconfig/fetcher.go:185-266 | over every interleaving of upserts, load, cycle steps and fallbacks whose refresh reads succeed and whose fallbacks land in time, a loaded key that differs from its tables has an audit row the fetcher has not passed or is still to be refreshed by the running cycle |
| ConfigCache.StepLosesIff | internal/appconfig/fetcher.go:77-266 | for every step of every kind, whatever fails in it: a key is lost afterwards exactly when the step is a failed base read of a cycle, or a write that leaves it stale, with nothing left to refresh it, or it was lost and the step does not make up for that |
| ConfigCache.QuietCycleAgrees | internal/appconfig/fetcher.go:233-266 | after one cycle without upserts a loaded key agrees with override-over-base exactly when the tables hold a value for it |
| ConfigLoss.LostIff | internal/appconfig/fetcher.go:77-266 | over every run from start-up, with reads failing and fallbacks landing at any moment, a key is lost at the end exactly when some step lost it and no later change or write made up for that |
| ConfigLoss.FailedOverrideLosesUpdate | internal/appconfig/fetcher.go:193-203 | a concrete run: a first load whose override read fails leaves the base value for good |
| ConfigLoss.CycleLosesIff | internal/appconfig/fetcher.go:185-266 | from any state, a cycle left to itself leaves a key lost exactly when no row above the id it takes names the key and the key was stale and not read, or stale and its base read failed, or its override read failed where the base value says something else |
| ConfigLoss.CycleLeaves | internal/appconfig/fetcher.go:185-266 | a cycle reads exactly its work list and leaves at each key what the fate of the key's reads says |
| ConfigLoss.StraddlingWriteLosesIff | internal/appconfig/fetcher.go:77-97 | after any benign run, a fallback's write loses its key exactly when the loop has passed every row the key got since the fallback's first read, there is one, and the values differ |
| ConfigFetcher.LoadCompleteIff | internal/appconfig/fetcher.go:143-181 | the paged first load visits every non-empty key exactly when no non-empty key lies beyond the page of the first empty one |
| ConfigFetcher.FullPage | internal/appconfig/fetcher.go:143-159 | a page yields as many usable keys as asked exactly when the first empty key lies beyond it |
| ConfigFetcher.Fetcher.RefreshKey | internal/appconfig/fetcher.go:110-209 | with its two reads at two moments and either failing, the key takes the decoded text of the override cell where there is one that is not NULL, else of the base cell, an empty object for a text that is no JSON, and keeps its value otherwise; this is what the protocol's steps store |
| ConfigFetcher.Fetcher.Get | internal/appconfig/fetcher.go:77-94 | a hit changes nothing; a miss loads exactly that key, as far as its reads succeed, and answers with its value or the default |
| ConfigFetcher.Fetcher.RefreshAll | internal/appconfig/fetcher.go:262-264 | in whatever order, exactly the listed keys are brought up to date, as a benign run of the protocol |
| ConfigFetcher.Fetcher.FetchUpdates | internal/appconfig/fetcher.go:233-266 | refreshes exactly the keys with a newer relevant row, advances to the latest id, and is a benign run |
| ConfigFetcher.Fetcher.FetchAllConfigs | internal/appconfig/fetcher.go:143-159 | refreshes exactly the keys up to where paging stops, as a benign run |
| ConfigFetcher.Fetcher.Start | internal/appconfig/fetcher.go:99-104 | takes the audit id before loading, so start-up is a benign run from the initial state |
| TokenPool.PoolIsBoundedAndOrdered | internal/crawler/tokenpool/tokenpool.go:98-211 | in every interleaving the pool stays within its size, newest first, trimming discards nothing, and hits equal the uses of live and evicted tokens |
| TokenPool.ServedTokenIsFresh | internal/crawler/tokenpool/tokenpool.go:98-131 | any token a reader can pick was unexpired at the last filter and has at most limit-1 uses plus the hits since |
| TokenExpiry.CanServeExpiredIff | internal/crawler/tokenpool/tokenpool.go:98-131 | some run leads to an expired token that a reader can pick exactly when the pool has room for a token |
| TokenExpiry.ExpiredAtDistanceIff | internal/crawler/tokenpool/tokenpool.go:98-258 | at a given distance after the last filter this can happen exactly when the distance is positive, where the pool sleeps no longer than a token lives, and beyond the lifetime otherwise |
| TokenPool.FailingStretchIsSlow | internal/crawler/tokenpool/tokenpool.go:217-258 | over a stretch of failed cycles the wait is that of the count, generator calls are bounded per cycle, and the time is at least the summed waits |
| TokenPool.WaitDoublesUpToCap | internal/crawler/tokenpool/tokenpool.go:217-258 | after n failures the wait is the smaller of sleep times 2 to the n and the cap |
| TokenPool.WaitInRangeIff | internal/crawler/tokenpool/tokenpool.go:217-258 | all waits lie between sleep and the cap exactly when sleep does not exceed the cap |
| TokenPool.SumWaitsGrows | internal/crawler/tokenpool/tokenpool.go:239-256 | below the cap the time slept over n failures is 2 * (sleep * 2^n - sleep) |
| TokenPool.Pool.Get | internal/crawler/tokenpool/tokenpool.go:98-113 | the picked token gains one use and nothing else changes; an empty pool answers no |
| TokenPool.Pool.Filter | internal/crawler/tokenpool/tokenpool.go:115-131 | keeps exactly the unexpired tokens below the use limit, in order |
| TokenPool.Pool.Mint | internal/crawler/tokenpool/tokenpool.go:187-211 | every non-empty delivery becomes a fresh token at the front; the rest leave no trace |
| TokenPool.Pool.RefillOnce | internal/crawler/tokenpool/tokenpool.go:171-211 | one cycle: the expired and used-up tokens go, then as many generators are asked as the smallest of what is missing, ten and the thread limit says, or none; every non-empty delivery becomes a fresh token in front, and when all deliver the pool ends at the smaller of its size and what was kept plus the limit |
| TokenPool.SizeUpAttempts | internal/crawler/tokenpool/tokenpool.go:174-184 | the same of the state machine: sizing up sets out to mint the smallest of what is missing, ten and the thread limit, and otherwise turns to shrinking |
| TokenPool.SleepWaits | internal/crawler/tokenpool/tokenpool.go:239-256 | after a cycle that asked and got nothing the wait is doubled up to five minutes, after any other it is the configured sleep |
| TokenPool.RefillIsRun | internal/crawler/tokenpool/tokenpool.go:171-211 | what the method computes is a run of the state machine, so from a state that keeps the invariant the pool stays bounded and ordered |
| TokenPool.Manager.Register | internal/crawler/tokenpool/manager.go:78-95 | the first registration of a site and kind wins |
| TokenPool.Manager.Start | internal/crawler/tokenpool/manager.go:113-130 | exactly one loop for each registered pool, and none on a second call |
| Sampler.XorShiftInjective | internal/crawler/upi/sample.go:23-28 | the generator's step is injective on 64-bit words |
| Sampler.NeverZero | internal/crawler/upi/sample.go:13-28 | after any number of steps the state is zero exactly when the seed was |
| Sampler.NeverMeet | internal/crawler/upi/sample.go:23-28 | generators with distinct seeds are never in the same state at the same step |
| Sampler.DrawInUnit | internal/crawler/upi/sample.go:31-33 | every draw lies in [0, 1) |
| Sampler.SeededRand.constructor | internal/crawler/upi/sample.go:13-21 | the state is never zero: a zero hash is replaced by the golden constant |
| Sampler.SeededRand.Next | internal/crawler/upi/sample.go:23-28 | three shifts in place are one injective step that never leads to zero |
| Sampler.SelectTop | internal/crawler/upi/sample.go:67-76 | the array is permuted in place and its first k keys are the k largest, in order |
| Sampler.WeightedSample | internal/crawler/upi/sample.go:41-81 | the first k of a ranking by key of all sources, or all of them, without repeated names |
| Sampler.SampledFromRanked | internal/crawler/upi/sample.go:41-95 | the sample is a name-distinct part of the sources, of size min(k, n) when their names are distinct |
| Sampler.DedupIsDistinct | internal/crawler/upi/sample.go:84-95 | one source for each name, all from the list |
| Sampler.DedupKeepsNames | internal/crawler/upi/sample.go:84-95 | no name is lost |
| Sampler.BuildMeta | internal/crawler/upi/engine.go:15-62 | light sampling is all or nothing, the enriched count is cut to what there is, disabled sources never appear |
| ProbePlan.SortFacts | internal/crawler/upi/aggregate.go:220-225 | descending, a permutation, and stable at every priority |
| ProbePlan.SplitList | internal/crawler/upi/suffix.go:128-141 | n contiguous shares at the cuts of the even division |
| ProbePlan.SplitShares | internal/crawler/upi/suffix.go:128-141 | the shares join up to the whole list and differ in length by at most one |
| ProbePlan.BuildSuffixSets | internal/crawler/upi/engine.go:248-257 | common-flow sources get the marker, the others share all the names |
| ProbePlan.OrderFacts | internal/crawler/upi/engine.go:222-233 | ordering is a permutation with the common-flow sources of the phase in front |
| ProbePlan.PlanSampled | internal/crawler/upi/engine.go:148-168 | the chosen suffixes are eligible, none left out outranks one chosen, and every non-common source gets a non-empty contiguous share of exactly the chosen list |
| ProbePlan.PlanConfirm | internal/crawler/upi/engine.go:130-168 | after a light hit every non-common source gets the hit suffix and nothing else |
| ProbePlan.RunSource | internal/crawler/upi/source.go:39-53 | of the list it is handed, a source probes exactly the supported suffixes in order, and one that drives itself none |
| ProbePlan.FanOut | internal/crawler/upi/engine.go:185-213 | what each source really probes: nothing without a crawler, the marker by the phase-blind common test, else what is left of its share |
| ProbePlan.ChosenProbedIff | internal/crawler/upi/engine.go:185-219 | together the non-common sources probe exactly the chosen suffixes if and only if each has a crawler, does not drive itself and is no common-flow source of the other phase, and every chosen suffix is supported |
| ProbePlan.EmulatorDropsItsShare | internal/crawler/upi/sources_special.go:272-299 | a concrete plan: the PhonePe emulator is given a share like any non-common source, and none of it is probed |
| Aggregate.VerdictKind | internal/crawler/upi/aggregate.go:19-117 | one true profile decides for yes, otherwise one error spoils the verdict, otherwise it is no |
| Aggregate.WinnerIsTop | internal/crawler/upi/aggregate.go:48-104 | the winning suffix has the highest configured priority among the candidates and belongs to a named true profile if any is named |
| Aggregate.ArrivalOrderIrrelevant | internal/crawler/upi/aggregate.go:19-117 | existence, error and (with a configured candidate) winning suffix are the same for every arrival and iteration order |
| Aggregate.SuffixSettledIff | internal/crawler/upi/aggregate.go:50-104 | the winning suffix is the same for every walk of the candidate map exactly when a candidate is configured or there is at most one |
| Aggregate.WholeVerdictIff | internal/crawler/upi/aggregate.go:88-104 | the whole verdict is the same for every arrival order and walk exactly when the suffix is settled and the true profiles that carry it show the same |
| Aggregate.AggProfile | internal/crawler/upi/aggregate.go:19-117 | the loops compute the specified verdict for the order in which the candidate map happened to be walked: a true one repeats name, source and app of the first true profile with a winning suffix, any other leaves them empty |
| Aggregate.VerdictIs | internal/crawler/upi/aggregate.go:19-117 | for every list and walk, the verdict by cases on the profiles alone: which suffix may win, whose members it repeats, and what is answered without a true profile |
| NamesList.OriginsIff | internal/crawler/upi/aggregate.go:131-181 | the ids are exactly the non-empty addresses built for true profiles |
| NamesList.OriginsFacts | internal/crawler/upi/aggregate.go:142-187 | each id is filed under the app and name of the first profile that produces it |
| NamesList.ShelvedOn | internal/crawler/upi/aggregate.go:183-201 | one new id keeps the shelves in order, and the search of the app's own list never finds it |
| NamesList.MadeIsList | internal/crawler/upi/aggregate.go:119-216 | whatever list holds one entry for each shelf in order is the list of verified names, said of the profiles alone |
| NamesList.VerifiedNames | internal/crawler/upi/aggregate.go:119-216 | each entry tells of one app and of the name of the first true profile that made one of its addresses, with the addresses made for that app in the order of their first makers; every address made is listed, once; the entries stand in the order of their first addresses |
| NamesList.IdsDisjoint | internal/crawler/upi/aggregate.go:161-216 | an id turns up in one entry only |
| BracketPath.ParseBracketPath | internal/intelligence/merge.go:68-83 | the loop computes the segments |
| BracketPath.ParseFinds | internal/intelligence/merge.go:68-83 | for every text, the segments are those found from left to right: each is the leftmost one behind the one before, in brackets and quotes that it does not hold itself, and behind the last there is none |
| BracketPath.ParseOfPrint | internal/intelligence/merge.go:68-83 | parsing undoes printing for every list of segments that can be quoted |
| IntelMerge.ReadAfterWrite | internal/intelligence/merge.go:127-155 | a written path reads back its value |
| IntelMerge.WriteElsewhere | internal/intelligence/merge.go:127-155 | a write leaves every diverging path as it was |
| IntelMerge.WriteOfSameIff | internal/intelligence/merge.go:127-155 | a write changes nothing exactly when the path already holds the value |
| IntelMerge.OrdersAgreeIff | internal/intelligence/merge.go:127-155 | two writes commute exactly when their paths diverge or one write already holds the other |
| IntelMerge.SwapIff | internal/intelligence/intelligence.go:112-134 | swapping two features leaves the blocks unchanged exactly when they do not clash |
| IntelMerge.OrderIrrelevantIff | internal/intelligence/intelligence.go:112-134 | every order of the feature list builds the same blocks exactly when no two features of it clash |
| IntelRun.Run | internal/intelligence/intelligence.go:85-137 | for every list of features, each block holds at a path what the last feature that bears on it puts there: the block its parent key names, where the request has it, and the part of the answer its output asks for or the default of its type; no block has a key from any other feature |
| IntelRun.WriteIff | internal/intelligence/merge.go:21-192 | the one write a feature makes is the one that its configuration and the response call for |
| IntelRun.NoClashLastWord | internal/intelligence/intelligence.go:112-134 | where no two features clash, every one of them has the last word on its path |
| IntelRun.PredictionIff | internal/intelligence/merge.go:194-211 | there is a prediction exactly when the score entity holds a number as its value and no error, and it is that number |
| IntelRun.PredictionIsFeatureScore | internal/intelligence/merge.go:194-211 | end to end, where the score's own feature has the last word and was answered, the prediction is the number the service gave as its value |
| Condition.EvalCondition | internal/intelligence/intelligence.go:270-290 | the loop decides the conjunction and refuses everything outside the grammar |
| Grammar.HoldsIff | internal/intelligence/intelligence.go:261-300 | for every text, a condition holds exactly when it has no "or" and no comparison and each part between its "and"s, trimmed, holds a presence check whose first one names a field that is there and not null |
| Condition.EvalOfPrint | internal/intelligence/intelligence.go:261-300 | a printed conjunction of presence checks holds exactly when every field it names is present |
| Condition.SplitOfPrint | internal/intelligence/intelligence.go:278-279 | splitting at the separator gives back the clauses that were printed |
| Condition.ClauseMatches | internal/intelligence/intelligence.go:261-281 | the pattern finds in a printed clause the field it was printed for |
| FeatureList.WalkOrderIrrelevantIff | internal/intelligence/intelligence.go:238-257 | the blocks built for a request are the same for every walk of the tenant's map exactly when no two wanted features clash |
| FeatureList.BuildFeatureList | internal/intelligence/intelligence.go:238-257 | each wanted feature once, in whatever order the map is walked |
| AccountEntry.AccountDetails.MarshalJSON | internal/model/account_details.go:19-41 | a failure is a bare error; otherwise data lies over the verdict; the website hint comes last |
| AccountEntry.AccountDetails.UnmarshalJSON | internal/model/account_details.go:48-83 | member by member, what decoding leaves in a receiver that need not be blank, and which inputs are refused |
| AccountEntry.BlankTakes | internal/model/account_details.go:48-83 | of every object read into a blank record: the failure is set exactly when its error member is true, verdict and website come from their members alone, and the data hold every other key unchanged |
| AccountEntry.ReplayShows | internal/model/account_details.go:19-83 | for every entry, in normal form or not, what it prints once stored and read back: the bare error with its website where it failed or its data say so, else its verdict, its other data unchanged, and the website |
| AccountEntry.RoundTripIff | internal/model/account_details.go:19-83 | reading a flattened entry back yields it again exactly when it is in normal form |
| AccountEntry.ListRoundTripIff | internal/model/account_details.go:19-83 | a whole list comes back exactly when every entry is in normal form |
| AccountEntry.ReencodeIff | internal/model/account_details.go:19-83 | an object is reproduced by reading and flattening exactly when it is canonical |
| CacheKeys.KeysEqualIff | internal/personacache/personacache.go:101-111 | section keys are equal exactly when kind, tenant and digest of the login are |
| CacheKeys.SectionKeyNotEnrichKey | internal/personacache/personacache.go:101-213 | a section and an enrichment document never share a slot |
| CacheKeys.RawKeysEqualIff | internal/personacache/personacache.go:101-111 | without hashing, keys are equal exactly when the kinds are and one login is the other with the beginning of its tenant part; logins without a colon are then the same |
| CacheKeys.SameTextIff | internal/personacache/personacache.go:201-213 | two requests share the text under the digest exactly when their non-empty values fall into the same pieces at their colons; without colons, exactly when those lists are equal |
| CacheKeys.EnrichTextIs | internal/personacache/personacache.go:201-213 | the text under the digest is the phone, the address and the name that there are, in this order, with a colon between any two |
| PersonaCache.HitReplaysLatest | internal/personacache/personacache.go:113-186 | in every run a look-up finds the section of the write that landed last in its slot, strictly before its expiry, and nothing otherwise |
| PersonaCache.HitIsOwn | internal/handler/cache_decorator.go:61-124 | with no digest collision among the logins seen, a hit belongs to the same kind, login and tenant, and equals what was crawled exactly when that was in normal form |
| PersonaCache.ReplayFaithfulIff | internal/handler/cache_decorator.go:104-124 | a stored section is replayed unchanged exactly when all its accounts are in normal form |
| PersonaCache.HitShowsAccounts | internal/handler/cache_decorator.go:61-124 | end to end, a hit within fifteen days shows every account of the section that landed last as storing leaves it, and all the rest of the section |
| PersonaCache.TableMirrorsHistory | internal/personacache/personacache.go:160-186 | every slot holds the write that landed last in it |
| PersonaCache.AlwaysNewestIff | internal/handler/cache_decorator.go:87-102 | over a whole run, what a hit would replay has at every moment the latest clock of all that landed in the slot exactly when the slot's write-backs landed in the order of their clocks |
| PersonaCache.LateWriteWins | internal/handler/cache_decorator.go:99-101 | a concrete run: write-backs landing out of order leave the older section |
| PersonaCache.Repo.Get | internal/personacache/personacache.go:116-158 | a missing, expired, undecodable or unreadable item is a miss |
| PersonaCache.Repo.RunOne | internal/handler/cache_decorator.go:99-101 | a goroutine's turn is one step of the run |
| PersonaCache.CacheDecorator.Gate | internal/handler/cache_decorator.go:61-82 | when the lane runs, what it remembers, and what a hit puts into the response |
| PersonaCache.CacheDecorator.Run | internal/handler/cache_decorator.go:87-102 | the crawled section is written back under the key and clock of the gate, or not at all |
| PersonaCache.CacheDecorator.Serve | internal/handler/cache_decorator.go:61-102 | on a hit the inner lane does not run, nothing is written, and the section is the latest landed one read back; on a miss it runs once and its section is on its way to the table |
| EnrichCache.NoBareErrorStored | internal/commondata/commondata.go:249-271 | in every interleaving of requests and write-backs no stored or pending document holds a bare error or a null |
| EnrichCache.AnsweredOnceForAll | internal/commondata/commondata.go:197-271 | over requests served one after another before expiry, a check once answered is never called again and always answered the same |
| EnrichCache.DocumentOnlyGrows | internal/commondata/commondata.go:255-271 | over such requests the document only grows |
| EnrichCache.WriteKeepsIff | internal/commondata/commondata.go:255-271 | a write-back keeps a document whole exactly when each of its answers was found in the request's own read or was got afresh in the same words |
| EnrichCache.OverlapKeepsIff | internal/commondata/commondata.go:203-271 | after any run with nothing under way, of two requests that both read before either writes the first one's document survives exactly when the second has nothing to write or repeats all that the first got afresh |
| EnrichCache.FailedReadKeepsIff | internal/commondata/commondata.go:203-271 | a request whose cache read fails leaves the document whole exactly when it has nothing to write or gets every answer in it again |
| EnrichCache.Service.FanOut | internal/commondata/commondata.go:214-234 | cached answers and missing service ids are settled at once, the rest is called |
| EnrichCache.Service.Collect | internal/commondata/commondata.go:235-247 | whatever order the calls come back in, the results are the same |
| EnrichCache.Service.FetchChecks | internal/commondata/commondata.go:175-274 | nothing when off; otherwise each enabled check is answered by its cached answer if there is one that is not null, else by the vendor's reply, else by a bare error, and the request is one step of the run |
| EnrichCache.LearntIsHeld | internal/commondata/commondata.go:235-271 | once this request's write-back has landed, the document holds every reply it got that is not a bare error |
| JsonTree.CleanReachesNone | internal/handler/persona.go:420-443 | no null is left where the walk gets to |
| JsonTree.CleanFixesIff | internal/handler/persona.go:420-443 | cleaning leaves alone exactly the trees without a null that the walk reaches |
| JsonTree.CleanIdempotent | internal/handler/persona.go:420-443 | cleaning twice is cleaning once |
| JsonTree.CleanNoNullIff | internal/handler/persona.go:420-443 | a cleaned tree prints without a null below its root exactly when its typed lists do |
| JsonTree.CleanKeepsTheRest | internal/handler/persona.go:420-443 | every path finds in the cleaned tree what it found before, cleaned, and nothing else |
| JsonTree.RemoveLeavesNone | internal/handler/transform.go:241-253 | of a decoded tree the key is left at no depth |
| JsonTree.RemoveKeepsTheRest | internal/handler/transform.go:241-253 | every path that avoids the key finds what it found before |
| UpiResponse.CleanProfileForResponse | internal/crawler/upi/response.go:24-65 | the client form of a raw profile, with its two lists in their own type, nil where nothing was collected |
| UpiResponse.FilterVerifiedNames | internal/crawler/upi/response.go:70-124 | one entry for each verified name, as the tenant's flags say, or a nil list |
| UpiResponse.DerivePhonePe | internal/handler/transform_upi.go:73-101 | a true answer of a PhonePe profile wins over false ones, and without an answer the account is an error |
| UpiResponse.TransformUPIResponse | internal/handler/transform_upi.go:32-68 | the accounts with UPI reshaped and PhonePe derived, errors included |
| UpiView.ShownEntryFacts | internal/crawler/upi/response.go:24-65 | end to end, the UPI entry a client sees is a bare error for an error, else the four known members with their nulls dropped, one row for each suffix of the raw profiles, in the order of their first carriers and with those members of them, and the verified names; nothing else |
| UpiView.ShownIdIff | internal/crawler/upi/response.go:70-124 | end to end, an id is shown, in the entry or among the intelligence, exactly when the tenant asks for ids, the raw profile lists it, and it is well-formed or built from an e-mail address or any form is allowed |
| UpiView.ShownNamesOk | internal/crawler/upi/response.go:70-124 | end to end, a shown row of verified names has no other member, no name where names are off, and an app only by its code where codes are on |
| UpiView.NameVerdictIff | internal/handler/transform_upi.go:108-132 | end to end, which status and which bank name a client reads for every raw profile, and that both stay what the crawl left where the profile calls for none or the tenant has them off |
| UpiResponse.CleanedProfileWholeIff | internal/crawler/upi/response.go:35-124 | the reshaped entry prints without a null exactly when some profile has a suffix, none kept has a null of its own, and the verified names are absent or a list the tenant has configured |
| ClientView.AccountDetailsListToMap | internal/handler/dto.go:13-28 | the loop keys the accounts by website |
| ClientView.KeyedFacts | internal/handler/dto.go:13-28 | a website is there exactly when some entry names it, and the last such entry wins |
| ClientView.TransformSection | internal/handler/transform.go:106-166 | the loops compute the specified view of a section |
| ClientView.SectionViewPresentable | internal/handler/transform.go:106-166 | no static data, no account the client may not see, and a count that agrees with the accounts shown |
| ClientView.ShownAccountIff | internal/handler/transform.go:121-151 | an account is shown exactly when the client may see it and some entry carries its name, or it is the PhonePe account derived from a UPI entry |
| ClientView.ClientPrediction | internal/handler/transform.go:198-213 | end to end, the client gets no prediction where the tenant has none, a bare error for an error, else the predicted score alone under the tenant's key; anything else is passed on cleaned |
| ClientView.MetaStrippedFacts | internal/handler/transform.go:218-253 | afterwards no meta key is left at any depth of the three scores, and nothing but the intelligence has changed |
| ClientView.TransformResponse | internal/handler/transform.go:61-95 | the steps compute the specified view of the response |
| ClientView.ClientGuarantees | internal/handler/transform.go:61-253 | for every decoded response and setting: no static data, no hidden account, the right count and, without the meta parameter, no meta key at any depth of a score |
| ClientNulls.NoNullIff | internal/handler/transform.go:61-95 | for every decoded response and setting, the client's response prints without a null below its root exactly when the UPI entry's lists do, as far as entry and names are shown |
| ClientNulls.CrawledProfilesPrintIff | internal/crawler/upi/run.go:99-123 | for profiles without nulls, as the crawler writes them, the list of profiles prints exactly when some profile has a suffix |
| ClientNulls.PhonePeAlonePrintsNull | internal/crawler/upi/run.go:75-123 | the entry the crawler builds of a negative PhonePe answer alone prints a null list of profiles under every setting that shows UPI |
| ClientView.ClientSeesVisibleAccounts | internal/handler/transform.go:61-166 | end to end, the client sees of a section exactly its visible accounts, each cleaned and otherwise as it was |
| ClientReads.AccountReadIff | internal/handler/transform.go:106-166 | end to end, the client reads of every website the last entry that names it, cleaned and without the name, unless the site is hidden or none names it |
| ClientReads.CountRead | internal/handler/transform.go:143-166 | end to end, the count is the number of accounts read that tell of a user |
| ClientReads.PhonePeRead | internal/handler/transform_upi.go:32-101 | end to end, the PhonePe account is a yes when some profile of the UPI account says so without an error, else a no when some says that, else an error |
| ClientReads.NamesRead | internal/crawler/upi/response.go:70-124 | end to end, wherever verified names are read there is a row for each of the raw profile's, in order, with the name, exactly the ids that pass in their order, and the app or its code, each as the tenant has it |
| ClientReads.ScoreReadIs | internal/handler/transform.go:184-238 | end to end, under every key of the score the client reads what stood there, or the fraud score moved to it by the rename, cleaned and without meta keys |
| BasicAuth.Encode | cmd/loadtest/main.go:370-388 | the loop over chunks of three bytes computes the encoding |
| BasicAuth.DecodeOfEncoding | cmd/loadtest/main.go:369-388 | strict decoding gives every byte string back |
| BasicAuth.DecodesIffEncoding | cmd/loadtest/main.go:369-388 | the encoding is the only text that strictly decodes to the bytes |
| BasicAuth.EncodingLength | cmd/loadtest/main.go:373-388 | four characters for every three bytes begun |
| BasicAuth.BuildAuth | cmd/loadtest/main.go:361-390 | a given header wins, no user means no header, otherwise the Basic token |
| BasicAuth.CredentialsRecoveredIff | cmd/loadtest/main.go:361-390 | the server recovers user and password exactly when the user has no colon |

## Left out

- Probing code: the crawlers' checks, UPI validation, vendor calls and transport are network traffic; their results are parameters.
- Storage and cryptography: MySQL, DynamoDB, gzip, JSON text and md5 are abstract stores, trees and a digest parameter of which only the printed form is used.
- Plumbing: authentication middleware, routing, logging, metrics, timings and environment configuration.
- ConfigCache: deleted rows and a database handle that is nil are not modelled. `NoLostUpdate` and `QuietCycleAgrees` speak of runs whose refresh reads succeed and whose fallbacks do not land after the loop has passed their key's last change; what every other run loses is `LostIff`.
- ConfigFetcher.Fetcher.RefreshAll: runs against tables that stand still with reads that succeed; moving tables and failing reads are the state machine's subject.
- ConfigFetcher.Fetcher.FetchUpdates: likewise one snapshot of the tables and no failing query.
- ConfigFetcher.Fetcher.FetchAllConfigs: likewise one snapshot of the tables and no failing page.
- ConfigFetcher.Fetcher.Start: likewise one snapshot of the tables and no failing id query.
- ConfigLoss.CycleLosesIff: speaks of a cycle without upserts and fallbacks between its steps; with them `LostIff` applies.
- ConfigLoss.StraddlingWriteLosesIff: speaks of a fallback whose own reads succeeded; of any other `StepLosesIff` does.
- ConfigCache.NoLostUpdate: audit ids become visible in increasing order and together with their change; transactions that commit out of order are not modelled.
- TokenPool.Pool.Get: tokens are values, so the copy of the handed-out map and pointer identity are not modelled; the mutex is modelled by making each critical section one step.
- TokenPool.WaitDoublesUpToCap: durations are unbounded, so overflow of a 64-bit duration is not modelled.
- TokenPool.Pool.RefillOnce: no reader runs between the critical sections of the method's cycle, as it may in the state machine, and a panic recovered inside a cycle is not modelled.
- TokenPool.Manager.Start: Stop and the cancelled context are not modelled; loops run for ever.
- Sampler.DrawInUnit: draws and keys are reals; rounding, the seed's hash function and the power function (a parameter) are left abstract.
- ProbePlan.ChosenProbedIff: speaks of plans in which every non-common source has a non-empty share, as `PlanSampled` makes them; which sources have a crawler or drive themselves, and the table of suffixes, are parameters.
- ProbePlan.PlanSampled: a negative suffix sample count, on which the code would panic, is not modelled.
- ProbePlan: the light phase's plan repeats the same building blocks, and early exits and retries between phases are not modelled.
- Aggregate.AggProfile: with a true profile there is always a candidate suffix and a profile that carries the winner (proved), so the search among third-party sources is unreachable and not modelled.
- NamesList.VerifiedNames: the table of supported suffixes is a parameter.
- IntelRun.Run: nested maps are values, so sharing between the response of the scoring service and the blocks is not modelled; the call to that service is a parameter.
- Condition.EvalCondition: characters are code points, and invalid UTF-8 is not modelled.
- AccountEntry.AccountDetails.UnmarshalJSON: works on parsed values; numbers too large for a float64, which the decoder refuses, are not modelled, and a nil data map equals an empty one.
- PersonaCache.CacheDecorator.Run: sections are values, so a change made to the section between the crawl and the moment the goroutine encodes it is not modelled.
- PersonaCache.HitIsOwn: that no two logins seen share a digest is an assumption about those logins alone, never about all strings.
- EnrichCache.Service.FetchChecks: parsing of the vendor configuration and the request body are left out; a request's replies are a parameter.
- UpiResponse.TransformUPIResponse: the pattern of well-formed ids and the table of encoded app names are parameters.
- ClientView.TransformResponse: starts from the response as decoded from its own JSON text; that decoding is not modelled.
- JsonTree.RemoveLeavesNone: trees are values; the code removes the key in place.
- Simple parts that a reading settles: status codes, crawl gates, phone parsing, digital age, padding, percentiles.
