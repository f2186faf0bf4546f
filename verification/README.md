# Prebid Server auction logic in Dafny

A model of the parts of Prebid Server (a Go server that runs ad auctions) whose correctness rests on
loops, priority orders, in-place mutation and small concurrent protocols rather than on I/O, with
proofs of what they promise. `dafny verify dfyconfig.toml` checks everything.

The model follows the code. Loops are methods with invariants; objects that the code updates are
classes (`RuleKeys`, `Replacer`, `FetchQueue`, `Auction`, `AdapterBids`, `Deals`, `Injection`, `Bidder`)
or arrays that are rewritten in place; goroutines are steps of a state machine, proved over every
interleaving. Iteration over a Go map is a choice of any order. Floats are reals, and random draws,
clocks, adapter results and library functions are parameters over which every theorem quantifies.

| file | component |
|---|---|
| `BitMasks`, `FloorRules`, `FloorRuleSelection`, `FloorRuleOverflow`, `FloorRuleValidation` | choice of a price floor rule |
| `CategoryMapping`, `CategoryPass`, `CategoryAccount`, `CategoryTally`, `CategoryLoss`, `CategoryExclusion` | competitive exclusion by category |
| `MacroReplacer` | macro expansion in URLs behind a shared cache |
| `FetchQueue`, `FloorFetcher`, `FetcherLivelock` | the floor fetcher: its heap, its goroutines as a protocol, and that protocol with bounds |
| `Auction`, `MultiBid`, `WinnerTies` | auction winners and the limit on bids per bidder |
| `BidderCollector`, `BidderFanOut`, `BidderFanOutLoss` | one goroutine per bidder and the collector |
| `PriceBuckets`, `RoundingUp` | price granularity |
| `BidAdjustments`, `AdjustmentMerge` | merging and looking up bid adjustments |
| `ModelGroups` | weighted choice of a floor model group |
| `CurrencyRates`, `FloorEnforcement` | exchange rates, and floors enforced on bids |
| `BidderHealth` | the unlocked health average and throttling |
| `TrackerInjector`, `TrackerDocuments`, `NestedDocuments` | VAST tracker injection |
| `ImpPruning` | in-place pruning of impressions |
| `Common`, `Sorting` | shared vocabulary |

Main results:

- **Floor rules.** The bit-mask enumeration, the sort and the map lookup together find a rule exactly
  when one matches, for any number of fields (`FoundIffSomeRuleMatches`). The comment at
  floors/rule.go:498-500 promises the most specific rule; the 64-bit shift at line 507 wraps, and the
  promise holds exactly for at most five fields (`MostSpecificIffAtMostFive`), with a family of rule
  sets that break it for every larger schema.
- **Competitive exclusion.** For every seat order and every coin flip, what is left in the seats is what
  the category map lists, one bid per key, of the highest bucket, and each bid is kept or rejected once.
  That needs distinct bid IDs. In general nothing is lost, whatever the prices, exactly if eligible bids
  that share an ID share their category, or are equal where there are no categories.
- **Macro expansion.** Index arithmetic behind the cache equals a recursive reference, after any history.
- **Floor fetcher.** Over every run: one live token per URL, given up exactly when its retries are used
  up, then silence, and no refetch before its period is over. A tick ends exactly when the pool has accepted all that is due, and
  with its bounds the fetcher can livelock exactly if there are more URLs than the pool holds.
- **Auction.** No bid is better than its imp's winner, in price and, where preferred, deals. Limits keep the best bids and seats keep exactly those, in order. Because `sort.Slice` is
  not stable the winner can fall to the limit and become nil; it is safe exactly if the bids of its rank
  fit.
- **Fan-out.** Every schedule ends and nobody blocks, whichever adapters panic. Each seat gets all bids
  returned for it, except that the collector counts messages: a panic after a send can cost another
  bidder its bids, and it never does exactly if there is one bidder or no such panic.
- **Price buckets.** Rounded down they never overstate and are monotone; rounded up they are monotone
  exactly if every range is a whole number of increments.
- **Bid adjustments.** Merging in place, flattening and searching return the list with the fewest wildcards
  of all that apply, ties broken from the left, the request's before the account's.
- **Health.** Lost updates only slow the average down, and none is lost exactly if every store finds the
  value it loaded.
- **Injector.** Trackers are counted exactly, at every point of every stream. Properly nested input is
  refused by the XML encoder exactly if the injector drops a tag of it, save for end tags with only Linear
  and NonLinearAds elements around them; the tags not dropped reach the encoder, in order.

## Model

| member | source | states |
|---|---|---|
| `FloorRules.GenerateCombinations` | floors/rule.go:481-496 | the nested mask loops list, in mask order, the position lists of the masks with the given number of ones |
| `FloorRules.CombosSound` | floors/rule.go:481-496 | every listed combination is an increasing list of field positions of the requested size |
| `FloorRules.CombosComplete` | floors/rule.go:477-496 | every non-empty subset of the fields is listed at its own size |
| `FloorRules.RuleKeys.AppendRuleKey` | floors/rule.go:534-545 | the joined key is appended unless it is there already; needs a field, since the code reads the first one |
| `FloorRules.JoinOfParts` | floors/rule.go:534-540 | a key of two parts is the key of the first, the delimiter and the key of the second |
| `FloorRules.AppendLevel` | floors/rule.go:465-472 | appends the keys of one size class, wildcards written into a copy of the fields |
| `FloorRules.PrepareRuleCombinations` | floors/rule.go:451-475 | the result is the first occurrences of the keys of all subsets in rule order, over the values each lower-cased |
| `FloorRuleSelection.LevelsComplete` | floors/rule.go:461-464 | the generation order contains every subset, for any number of fields |
| `FloorRuleSelection.WeightIsExact` | floors/rule.go:501-516 | while no shift and no sum reaches bit 63 the comparator's wrapped weight is the mathematical sum of powers |
| `FloorRuleSelection.LevelsSorted` | floors/rule.go:498-516 | up to five fields an earlier subset has fewer wildcards, or as many and exact fields further left |
| `FloorRuleSelection.KeyListIsEverySubstitution` | floors/rule.go:451-475 | the key list is every wildcard substitution of the request's values exactly once, also if some values are `*` |
| `FloorRuleSelection.KeyListIsMostSpecificFirst` | floors/rule.go:498-516 | up to five fields, of two listed keys the earlier stands for a more specific rule |
| `FloorRuleSelection.FirstHitUnique` | floors/rule.go:541-544 | removing repeated keys does not change the first hit |
| `FloorRuleSelection.FoundIffSomeRuleMatches` | floors/rule.go:184-193 | nothing is found exactly when no rule matches segment by segment, and a rule found matches; any number of fields |
| `FloorRuleSelection.SelectsMostSpecific` | floors/rule.go:184-193 | up to five fields, the rule found has the fewest wildcards of all matching rules, ties by left-most exactness |
| `FloorRuleSelection.LookUpFirst` | floors/rule.go:186-192 | the lookup loop returns the first key that is a rule |
| `FloorRuleSelection.SelectedIs` | floors/rule.go:184-193 | the same of the first key in rule order that is a rule |
| `FloorRuleSelection.FindRule` | floors/rule.go:184-193 | for any number of fields a rule is found if and only if some rule joins segments that are each the lower-cased value or `*`; the rule found is such a join, and up to five fields no other such rule has fewer stars, or as many with a value where this one first has a star |
| `FloorRuleOverflow.WeightsOverflow` | floors/rule.go:501-516 | with six or more fields, a wildcard in field 0 does not weigh more than one in field 2 |
| `FloorRuleOverflow.NotMostSpecificBeyondFive` | floors/rule.go:501-516 | for every schema of six or more fields there are values and rules for which a less specific rule is selected |
| `FloorRuleOverflow.MostSpecificIffAtMostFive` | floors/rule.go:498-516 | selection is always most specific if and only if the schema has at most five fields |
| `FloorRuleValidation.ValidateRules` | floors/validate.go:37-54 | in any iteration order: every rule kept comes from a rule with the right number of fields, lower-cased, with its value; valid ones are kept; the errors list every rule of another length, and, if lower-casing does not change how rules split, exactly those, once each; with an empty schema no rule survives, so the key builder is never called without fields |
| `FloorRuleValidation.FieldCountOfJoin` | floors/validate.go:37-54 | a rule joined from n segments without the delimiter counts as having n fields |
| `CategoryMapping.FindDurationRange` | exchange/exchange.go:1175-1197 | the least configured range not below the duration, the duration itself if none is configured, an error otherwise |
| `CategoryMapping.RemoveBidById` | exchange/exchange.go:1199-1215 | removes the first bid with the ID and no other |
| `CategoryMapping.RemoveIndices` | exchange/exchange.go:1149-1162 | cutting any distinct indices from the back stays in bounds; if they are those of the bids not kept, exactly the kept bids are left, in order |
| `CategoryPass.RejectKeepsInv` | exchange/exchange.go:1047-1083 | rejecting the current bid keeps the invariant of the pass |
| `CategoryPass.TakeKeepsInv` | exchange/exchange.go:1099-1146 | letting the current bid take a key, evicting its holder if any, keeps the invariant |
| `CategoryPass.EvictKeepsSeats` | exchange/exchange.go:1117-1137 | an eviction removes exactly the holder's bid from its seat, whether that seat is current, finished, or has one bid left |
| `CategoryPass.FinishSeat` | exchange/exchange.go:1149-1162 | after the cut a seat holds exactly its bids in the category map |
| `CategoryExclusion.Classify` | exchange/exchange.go:1043-1097 | a bid is eligible exactly if it has a category, when one is asked for (its own, or its one IAB category, translated if asked for), and fits a configured range, and the reason is the first of these that fails; its key is the category or else bucket and least fitting range; its label has all three and the bidder name if asked for |
| `CategoryMapping.KeyIsBucketAndDuration` | exchange/exchange.go:1085-1093 | without categories two bids share a key if and only if bucket and duration range agree |
| `CategoryExclusion.EvictDuplicate` | exchange/exchange.go:1117-1137 | the branches of the eviction: by index, by ID, or the whole seat marked |
| `CategoryExclusion.ProcessBid` | exchange/exchange.go:1036-1147 | one bid, with a coin flip on equal buckets, keeps the account of all bids, and the invariant if IDs are distinct |
| `CategoryExclusion.ProcessSeat` | exchange/exchange.go:1034-1164 | one seat keeps both |
| `CategoryExclusion.EmptySeats` | exchange/exchange.go:1165-1167 | the marked seats are emptied after the pass |
| `CategoryAccount.TakeKeepsAccount` | exchange/exchange.go:1099-1146 | whatever the IDs: letting a bid take a key keeps the account that every bid holds its key or is rejected |
| `CategoryExclusion.ApplyCategoryMapping` | exchange/exchange.go:992-1170 | for every seat order and coin sequence, shared IDs included: map and rejections are those of the tally of the bids in that order; rejections and distinct keys of eligible bids together number the bids; map entries and rejections number the bids if eligible bids with one ID have one key, and are fewer if two keys can only be won under one ID; with distinct IDs: left in the seats, in order, are exactly the bids in the category map, no two share a key, every eligible bid has a survivor of its key, whose bucket parses to at least as much as its own (0 if unparsable), and kept and rejected IDs together are all IDs, each once |
| `CategoryTally.TallyIsOk` | exchange/exchange.go:1036-1147 | whatever the IDs: each holder is a bid with its key, no eligible bid is dearer than the holder of its key, and every map entry is a holder's |
| `CategoryTally.HolderIsDearest` | exchange/exchange.go:1099-1146 | whatever the IDs: each key is held by one of its bids, and the holder's bucket parses to at least as much as that of every bid of the key |
| `CategoryTally.HigherBucketTakesKey` | exchange/exchange.go:1099-1146 | exactly which bid gets a key that is held: the higher bucket, a coin on equal ones (heads for the new bid if the bucket is above -1), the loser being rejected |
| `CategoryTally.FreeKeyIsTaken` | exchange/exchange.go:1047-1146 | a free key is taken and an ineligible bid rejected, without a coin |
| `CategoryLoss.IdsApartLoseNothing` | exchange/exchange.go:1099-1146 | if eligible bids that share an ID share their key, nothing is lost, for every order and coin |
| `CategoryLoss.SharedTopLosesBids` | exchange/exchange.go:1099-1146 | if all bids with the highest bucket of two different keys have one ID, every order and coin leaves a bid neither in the map nor rejected |
| `CategoryLoss.NeverLosesIffAlwaysApart` | exchange/exchange.go:1085-1146 | nothing is lost for all prices, orders and coins if and only if eligible bids that share an ID share their category or, without categories, are equal |
| `CategoryLoss.OneIdInTwoSeats` | exchange/exchange.go:1145-1146 | two seats with bids of one ID and different keys always lose one |
| `MacroReplacer.ConstructTemplate` | macros/string_index_based_replacer.go:35-61 | the index loop terminates, stays in bounds and yields the template of the recursive definition, although its test for -1 is literal only on the first round |
| `MacroReplacer.Replacer.GetTemplate` | macros/string_index_based_replacer.go:85-101 | keeps the cache coherent and returns the URL's own template, whatever another caller stores between the locks |
| `MacroReplacer.Replacer.Replace` | macros/string_index_based_replacer.go:68-83 | appends the reference expansion of the URL, after any history of calls |
| `MacroReplacer.ExpandStep` | macros/string_index_based_replacer.go:72-81 | one entry of a template is one substitution of the reference, with all slices in bounds |
| `MacroReplacer.ExpandIdentity` | macros/string_index_based_replacer.go:68-83 | macros mapped to themselves with delimiters leave every URL unchanged |
| `MacroReplacer.ExpandSubstitutes` | macros/string_index_based_replacer.go:29-34 | in a URL rendered from text and macros, exactly the macros are replaced by their values |
| `FetchQueues.RootIsLeast` | floors/fetcher.go:62-64 | the root of the heap has the least fetch time |
| `FetchQueues.FetchQueue.Push` | floors/fetcher.go:70-73 | the queue stays a heap and gains exactly the element |
| `FetchQueues.FetchQueue.Pop` | floors/fetcher.go:75-82 | returns the element on top, due first, and keeps the heap and the rest |
| `FetchQueues.FetchQueue.Tick` | floors/fetcher.go:219-224 | if the pool ever accepts as many tasks as entries are due, a tick ends, submits exactly the due entries in order of fetch time and leaves only later ones |
| `FetchQueues.FetchQueue.TickRounds` | floors/fetcher.go:219-224 | after n rounds the loop has ended if and only if the pool has accepted as many of them as entries were due |
| `FetchQueues.FetchQueue.RejectedRound` | floors/fetcher.go:219-224 | a rejected submission leaves the queue as it was with a due entry on top |
| `FloorFetcher.InitInv` | floors/fetcher.go:96-117 | the invariant holds at the start |
| `FloorFetcher.StepKeepsInv` | floors/fetcher.go:155-231 | every step of requesters, workers and scheduler keeps the invariant |
| `FloorFetcher.RunKeepsInv` | floors/fetcher.go:204-231 | it holds in every state of every run |
| `FloorFetcher.AtMostOneToken` | floors/fetcher.go:209-218 | in every reachable state a URL has at most one live token over pool, queue and messages, and only if marked in progress; refetches are below the retry limit; failures in a row are bounded by max(1, maxRetries) |
| `FloorFetcher.NewToken` | floors/fetcher.go:212-217 | a token appears only for a URL not seen before or from that URL's own finished fetch |
| `FloorFetcher.GivenUpForever` | floors/fetcher.go:172-182 | after that many failures in a row a URL is never tried again in the run |
| `FloorFetcher.GivenUpIffExhausted` | floors/fetcher.go:155-231 | with retries configured, in every reachable state: an accepted URL has no token left if and only if it has failed that often in a row |
| `FloorFetcher.FinishCounts` | floors/fetcher.go:155-182 | a finished fetch resets the count of failures or adds one, and asks for a refetch one period later exactly if retries are left |
| `FloorFetcher.RefetchWaitsForPeriod` | floors/fetcher.go:177-181 | a refetch reaches the pool no sooner than Period seconds after the URL's previous fetch finished |
| `FetcherLivelock.StepKeepsInv` | floors/fetcher.go:96-231 | with bounded channel and pool: every step keeps one token per URL and the bounds |
| `FetcherLivelock.StuckForever` | floors/fetcher.go:219-224 | once the drain loop faces a full pool whose workers all wait for room in the full channel, only the clock and rejected rounds are left, for ever |
| `FetcherLivelock.NotStuckGoesOn` | floors/fetcher.go:177-224 | facing a full pool in any other state, a worker can go on |
| `FetcherLivelock.LivelockIffMoreUrlsThanPool` | floors/fetcher.go:101-105 | that livelock is reachable if and only if refetches are sent at all and there are more URLs than workers and places in the pool's queue |
| `Auctions.RankIsPreorder` | exchange/auction.go:139-149 | not being beaten is a total preorder, with and without deals preferred |
| `Auctions.BestIsFirstUnbeaten` | exchange/auction.go:115-119 | the running winner is the first bid that no bid beats |
| `Auctions.BestRankIsOrderFree` | exchange/auction.go:113-119 | the winner's rank does not depend on the order of the seats |
| `Auctions.OfImpInOrder` | exchange/auction.go:115-128 | a seat's bids for an imp are all that name it, each once, in order |
| `Auctions.NewAuction` | exchange/auction.go:109-136 | for any seat order: each imp's winner is one of its bids and none of them has a higher price; with deals preferred, none of the same deal status, and the winner has a deal if any has; the first met wins among equals; each bidder's list is its seat's bids for the imp, in order |
| `MultiBid.LimitKeepsTheBest` | exchange/auction.go:154-171 | whatever the sort does with ties: the kept list is sorted, of the right length, part of the input, and no discarded bid beats a kept one |
| `MultiBid.KeptInOrder` | exchange/auction.go:173-185 | what a seat keeps are its bids that the lists hold, each once, in order |
| `MultiBid.HeadHasWinnersRank` | exchange/auction.go:156-158 | a bid of the winner's rank heads the list |
| `MultiBid.StableHeadIsWinner` | exchange/auction.go:156-158 | under a stable sort the winner itself heads it |
| `MultiBid.WinnerIsBestOfItsSeat` | exchange/auction.go:113-119 | the overall winner is the winner among the bids of one seat |
| `MultiBid.WinnerHeadsItsList` | exchange/auction.go:109-171 | the same for the lists that newAuction builds |
| `MultiBid.Auction.SnipLists` | exchange/auction.go:152-171 | after the double loop every list is sorted and limited, and exactly the discarded bids are nil |
| `MultiBid.Auction.DropFromSeats` | exchange/auction.go:173-185 | each seat keeps the bids that are not nil, in order |
| `MultiBid.Auction.ValidateAndUpdateMultiBid` | exchange/auction.go:151-186 | each list keeps as many bids as the limit allows, no discarded bid has a higher price than a kept one nor a later one than an earlier (with deals preferred: of the same deal status, and deals come first); each seat holds exactly its bids that are in the limited lists, exactly the discarded bids are nil, and the winners are left as they are |
| `WinnerTies.LimitMayDropWinner` | exchange/auction.go:156-168 | if more bids share the winner's rank than the limit allows, some outcome of the sort drops the winner |
| `WinnerTies.WinnerSurvivesIffTiesFit` | exchange/auction.go:156-168 | the winner stays in its list for every outcome of the sort if and only if there is no limit or the bids of its rank fit |
| `WinnerTies.WinnerIsNeverNilIffTiesFit` | exchange/auction.go:109-171 | for the winners and lists of newAuction: no outcome of sorting and snipping all lists sets the winner of an imp to nil if and only if its ties fit |
| `BidderCollector.CollectMessage` | exchange/exchange.go:819-833 | one message's seat bids, nil and empty ones included, are added under their seats |
| `BidderFanOut.StepKeepsInv` | exchange/exchange.go:741-893 | every send, panic, recovery, end and receive keeps: a goroutine has sent its bids, or nothing if it panicked before its send, and one more, empty message if it panicked after it |
| `BidderFanOut.NobodyBlocks` | exchange/exchange.go:736-814 | late messages included, a sender that finds the channel full finds the collector receiving, and one that comes after the collector finds room |
| `BidderFanOut.SomeStepIsEnabled` | exchange/exchange.go:741-893 | a schedule can stop only when all goroutines have ended and the collector has its messages |
| `BidderFanOut.StepsDecrease` | exchange/exchange.go:741-893 | every schedule ends |
| `BidderFanOut.UnreadAsManyAsLatePanics` | exchange/exchange.go:753-814 | in the end a goroutine has sent one message if it did not panic after its send and two if it did, and as many messages as such panics stay unread |
| `BidderCollector.BidsInIsOrderFree` | exchange/exchange.go:813-833 | the order of arrival does not change which bids a seat gets |
| `BidderFanOut.MissingAsManyAsLate` | exchange/exchange.go:813-814 | the collector misses the messages of exactly as many requests as it has received late messages, at most as many as panic after their send |
| `BidderFanOut.CollectedIsReturned` | exchange/exchange.go:813-842 | in every reachable state each seat has a permutation of the bids returned for it by the requests whose messages have been received and that did not panic before their send, and bidsFound says whether there is one |
| `BidderFanOut.GetAllBids` | exchange/exchange.go:741-893 | for every set of adapters that panic before or after their send and every schedule: each seat has a permutation of the bids returned for it by the requests that did not panic before their send, but for at most as many requests as panic after it; with no such panic, of all of them; bidsFound says whether there is one |
| `BidderFanOutLoss.LatePanicCanCostBids` | exchange/exchange.go:807-893 | if a bidder panics after its send, for any other bidder some schedule ends without any message of it |
| `BidderFanOutLoss.NobodyIsMissedIff` | exchange/exchange.go:807-893 | every schedule has the first message of every bidder received if and only if there is at most one bidder or none panics after its send |
| `PriceBuckets.SetDefaultMinima` | ortb/default.go:116-129 | in place, each minimum becomes the previous maximum; reports whether anything changed |
| `PriceBuckets.ValidateGranularity` | endpoints/openrtb2/auction.go:1185-1196 | accepts exactly ascending positive maxima with positive increments |
| `PriceBuckets.DefaultsAreContiguous` | ortb/default.go:116-129 | valid ranges with defaulted minima are contiguous from zero |
| `PriceBuckets.GetPriceBucket` | exchange/price_granularity.go:34-55 | the loop picks the last range holding the price and the highest maximum |
| `PriceBuckets.BucketNeverOverstates` | exchange/price_granularity.go:57-78 | for contiguous ranges, rounded down, min <= v <= cpm < v + increment in the price's own range |
| `PriceBuckets.BucketIsMonotone` | exchange/price_granularity.go:34-78 | a higher price never has a lower bucket, across range boundaries and past the maximum |
| `PriceBuckets.ConfiguredBucketsAreMonotone` | exchange/price_granularity.go:34-78 | the same from any accepted configuration, and the bucket is never above the price |
| `PriceBuckets.NegativePriceHasNoBucket` | exchange/price_granularity.go:35-55 | a negative price gets no bucket |
| `PriceBuckets.TargetIsClose` | exchange/price_granularity.go:57-78 | in every rounding mode the target is less than one increment from the price |
| `PriceBuckets.TargetIsStep` | exchange/price_granularity.go:57-78 | in every mode the target is a whole number of increments above the minimum: the next one down or up, the nearest, or one of the two by the coin |
| `PriceBuckets.BucketInEveryMode` | exchange/price_granularity.go:34-78 | so is the bucket of every covered price, in the last range that holds it |
| `PriceBuckets.AboveEveryMaximum` | exchange/price_granularity.go:46-48 | a price above every maximum gets the highest one, in every mode |
| `RoundingUp.Overshoots` | exchange/price_granularity.go:69-76 | a range that is not a whole number of increments has a price below its maximum that is rounded up beyond it |
| `RoundingUp.RoundingUpIsSafeIffWhole` | exchange/price_granularity.go:34-76 | over contiguous ranges, rounding up is monotone in the price, and stays in each price's range, if and only if every range is a whole number of increments; then no bucket exceeds the highest maximum |
| `BidAdjustments.Deals.AddMissing` | bidadjustment/build_rules.go:91-95 | in place, the account's lists are added for deals without one |
| `BidAdjustments.MergeMaps` | bidadjustment/build_rules.go:89-100 | in place, the merged view has the request's list where there is one and the account's otherwise; the account's maps are unchanged |
| `BidAdjustments.MergeForMediaType` | bidadjustment/build_rules.go:81-101 | the same with nil maps on either side |
| `BidAdjustments.RuleIsInjective` | bidadjustment/build_rules.go:34-35 | rule keys of names without a bar are unambiguous, whatever the deal ID |
| `BidAdjustments.BuildRulesForMediaType` | bidadjustment/build_rules.go:31-38 | adds exactly the rules of a media type, in any iteration order |
| `BidAdjustments.BuildRules` | bidadjustment/build_rules.go:15-29 | the rule map holds exactly the lists of all media types |
| `BidAdjustments.RuleLookup` | bidadjustment/build_rules.go:31-38 | a rule key is in the map if and only if its list is defined, with that list |
| `BidAdjustments.EmptyKeyIsNoRule` | bidadjustment/apply.go:71 | the empty keys of unused slots never match |
| `BidAdjustments.Get` | bidadjustment/apply.go:70-94 | over any rule map without an empty key: nothing if and only if no rule `m|b|d` has the bid's media type or `*`, bidder or `*`, and deal, if there is one, or `*`; else the list of the one with the fewest stars, of two with as many the one whose stars come later |
| `BidAdjustments.FirstRuleIsFirstDefined` | bidadjustment/apply.go:88-93 | over built rules that is the list of the first defined pattern of the eight, or four without a deal |
| `BidAdjustments.MergeLookup` | bidadjustment/build_rules.go:81-101 | every list of the merge is the request's if defined there, else the account's |
| `AdjustmentMerge.LookupIs` | bidadjustment/build_rules.go:31-38 | the view of a side has the list of its maps at media type, bidder and deal |
| `AdjustmentMerge.Merge` | bidadjustment/build_rules.go:56-79 | in place for all six media types: the merged view, with the account's maps unchanged although some are shared |
| `AdjustmentMerge.AdjustmentsFor` | bidadjustment/build_rules.go:56-79 | merging in place, building and looking up together: of all triples whose parts are the bid's or `*` (for the deal only `*` if there is none) and that request or account defines, the list of the one with the fewest stars, of two with as many the one whose stars come later, the request's where both define it; nothing if and only if there is none; the account's maps are unchanged |
| `ModelGroups.PickInterval` | floors/rule.go:152-159 | group i is picked by exactly the draws above the running sum before it and up to the one with it; group 0 also by 0 |
| `ModelGroups.PickIsAGroup` | floors/rule.go:152-161 | every possible draw returns inside the loop |
| `ModelGroups.EachGroupGetsItsWeight` | floors/rule.go:151-159 | of the total + 1 draws each group gets its weight, the first one more |
| `ModelGroups.ArrangedProperties` | floors/rule.go:135-149 | filling in weights and the stable sort permute the groups and keep the total |
| `ModelGroups.LighterGroupsComeFirst` | floors/rule.go:135-149 | the groups are those given, a missing weight being 1, and a lighter group never stands behind a heavier one |
| `ModelGroups.FillWeights` | floors/rule.go:135-142 | in place, missing weights become 1, and the sum is returned |
| `ModelGroups.MovePickToFront` | floors/rule.go:152-159 | in place, the picked group is swapped to the front |
| `ModelGroups.SelectFloorModelGroup` | floors/rule.go:134-162 | the front group is the pick of the draw and the array a permutation of the weighted groups |
| `CurrencyRates.FindIntermediateConversionRate` | currency/rates.go:26-37 | succeeds if and only if some base has both currencies, with the quotient over one of them |
| `CurrencyRates.GetRate` | currency/rates.go:44-70 | the direct entry if there is one, else the reciprocal of the opposite one, else a quotient over a shared base, or the error of each failing case; not found if and only if the codes are valid and different, there is a table, and it has no direct, reverse or shared-base entry |
| `CurrencyRates.RateIsTrueRatio` | currency/rates.go:44-70 | in a consistent table every rate is the ratio of the currencies' values, however it was found |
| `CurrencyRates.RatesCompose` | currency/rates.go:44-70 | so rates are reciprocal and compose |
| `FloorEnforcement.IndexImps` | floors/enforce.go:106-110 | each ID maps to the last impression with it |
| `FloorEnforcement.EnforceSeat` | floors/enforce.go:112-151 | the loop sends each bid of a seat to kept, rejected, failed or nowhere, in order |
| `FloorEnforcement.EnforceFloorToBids` | floors/enforce.go:103-155 | over all seats in any order: seats keep their eligible bids, and every rejected bid is reported in a seat of its own |
| `FloorEnforcement.SeatIsPartitioned` | floors/enforce.go:114-150 | every bid has exactly one fate |
| `FloorEnforcement.KeptAndRejectedExactly` | floors/enforce.go:126-149 | for every request: kept means the extension can be read and, if enforcement is on and the bid no exempt deal, there is a rate and converted price + 0.01 >= floor; rejected means judged and below; failed means unreadable or judged without a rate |
| `FloorEnforcement.UnknownImpIsDropped` | floors/enforce.go:114-118 | a bid for an unknown imp is in none of the three |
| `FloorEnforcement.SelectInOrder` | floors/enforce.go:114-150 | the bids of a fate are all that have it, each once, in order |
| `FloorEnforcement.RejectionsNameTheirSeat` | floors/enforce.go:139-147 | the reported rejections are exactly the rejected bids, each alone under its seat's name and currency |
| `FloorEnforcement.BidsAreConserved` | floors/enforce.go:103-155 | all input bids are kept, rejected, reported as errors or dropped for an unknown imp, each once |
| `FloorEnforcement.StricterFloorsSubsume` | floors/enforce.go:114-151 | enforcing milder floors first, or the same floors twice, changes nothing |
| `FloorEnforcement.FloorsAreFairAcrossCurrencies` | floors/enforce.go:133-149 | with consistent rates, no bid is rejected that is worth at least as much as a kept one for the same imp, in whatever currencies |
| `FloorEnforcement.ConsistentTableAgrees` | floors/enforce.go:229-236 | rates from a consistent table are consistent in that sense |
| `BidderHealth.Bidder.LogHealthCheck` | exchange/bidder.go:890-906 | without interference, one update of the moving average; none if throttling is off |
| `BidderHealth.Bidder.ShouldRequest` | exchange/bidder.go:908-924 | withheld exactly if throttling is on and not simulated and the draw is below the probability |
| `BidderHealth.ThrottleBounds` | exchange/bidder.go:913-919 | for health in [0, 1] the probability is in [0, 0.9], zero exactly up to 0.2 and 0.9 exactly at 1 |
| `BidderHealth.ThrottleIsMonotone` | exchange/bidder.go:913-919 | it rises with the health value |
| `BidderHealth.ThrottleIsLinear` | exchange/bidder.go:913-919 | from 0.2 on it rises by 9 for every 8 of health |
| `BidderHealth.UpdateMovesByDelta` | exchange/bidder.go:896-901 | an outcome moves health by delta of its distance to 1 or 0 |
| `BidderHealth.DeltaIsAFraction` | exchange/bidder.go:126-133 | delta is one part of the window |
| `BidderHealth.RunsInClosedForm` | exchange/bidder.go:896-901 | n failures in a row give 1 - (1 - h)(1 - delta)^n, n successes h(1 - delta)^n |
| `BidderHealth.StepKeepsInv` | exchange/bidder.go:890-906 | every load and every store keeps current and loaded values within the bounds of the stores so far |
| `BidderHealth.RacesOnlySlowDown` | exchange/bidder.go:902-905 | after any interleaving with f failures and k successes stored, lost updates included, health is between k successes and f failures in a row, in [0, 1], and the probability at most 0.9 |
| `BidderHealth.FailureCanBeLost` | exchange/bidder.go:902-905 | two overlapping failures can leave the health of one |
| `BidderHealth.RunIsSequentialIffFresh` | exchange/bidder.go:895-905 | with a window other than 1, health is at every point that of the stored outcomes one after the other if and only if every store finds the value that it loaded |
| `BidderHealth.WindowOfOneLosesNothing` | exchange/bidder.go:895-905 | with a window of 1 it always is |
| `TrackerInjector.Injection.Encode` | injector/injector.go:154-155 | a token goes to the end of what has been written, whenever the encoder flushes; an end tag that does not match the innermost open tag, or other markup that the encoder refuses, gives an error and changes nothing |
| `TrackerInjector.Injection.HandleStart` | injector/injector.go:174-229 | flags, open tags and output of a start tag by the flag rules; trackers land in place because of the flushes |
| `TrackerInjector.Injection.HandleEnd` | injector/injector.go:231-342 | the same for end tags, with the encoder's error |
| `TrackerInjector.Injection.CloseNonLinearAds` | injector/injector.go:256-269 | the NonLinearAds branch |
| `TrackerInjector.Injection.CloseLinear` | injector/injector.go:270-285 | the Linear branch, which ignores the encoder's error |
| `TrackerInjector.Injection.CloseAd` | injector/injector.go:286-302 | the InLine and Wrapper branch |
| `TrackerInjector.InjectTracker` | injector/injector.go:105-172 | the token loop yields the encoder's error exactly if it refuses a token, else the error for malformed input, the output of the whole stream, or the error for a stream that closes no InLine or Wrapper |
| `TrackerInjector.OncePerAd` | injector/injector.go:233-302 | at every point, impression blocks (and error blocks) number the closed ads plus one if the tag of the open ad was found |
| `TrackerInjector.OwedIsPaid` | injector/injector.go:192-285 | the flags that Linear raises fall only with an injection |
| `TrackerInjector.LinearGetsTrackers` | injector/injector.go:192-285 | from a Linear start tag to any later Linear end tag a click block and a tracking block are injected |
| `TrackerDocuments.OutputKeepsTokens` | injector/injector.go:174-342 | the output without injections is the tokens handed to the encoder and taken by it, in order |
| `TrackerDocuments.ErasureIffNothingLost` | injector/injector.go:148-285 | for every input that the encoder takes, all its tokens are handed to it and taken, in order, if and only if there is no dropped tag, no blank text and no stray end tag of Linear |
| `NestedDocuments.BalancedIsTakenIff` | injector/injector.go:174-342 | the encoder takes properly nested input, whatever its elements, if and only if it takes its other markup, no start tag is dropped, and every dropped end tag has only Linear and NonLinearAds elements around it |
| `NestedDocuments.PlacedIsTakenIffNoTagDropped` | injector/injector.go:174-342 | so where every NonLinearAds stands inside some other element, if and only if no tag is dropped |
| `NestedDocuments.RootNonLinearAdsLosesItsEnd` | injector/injector.go:256-269 | a NonLinearAds root around a tracked Creative is taken without its own end tag |
| `NestedDocuments.TakenIsHandedOn` | injector/injector.go:174-342 | such input gives an error, or every token of it but blank text is handed to the encoder and taken by it, in order |
| `NestedDocuments.TrackedNonLinearAdsIsRefused` | injector/injector.go:212-269 | such input with TrackingEvents of its own in a NonLinearAds always ends in the encoder's error |
| `TrackerDocuments.MismatchIsRefused` | injector/injector.go:231-342 | an end tag of another element that does not match ends the pass, whatever follows |
| `TrackerDocuments.StrayLinearEndIsLost` | injector/injector.go:270-285 | an end tag of Linear that does not match is lost and the pass goes on |
| `ImpPruning.CountNumberOfFormats` | adapters/infoawarebidder.go:153-168 | the number of media present |
| `ImpPruning.RemoveUnsupported` | adapters/infoawarebidder.go:81-97 | the unsupported media are cleared, each with a warning |
| `ImpPruning.AdjustForPreferred` | adapters/infoawarebidder.go:212-256 | removal if and only if the preferred medium is absent; otherwise all other media are cleared, each with a warning |
| `ImpPruning.PruneImp` | adapters/infoawarebidder.go:78-121 | one round of the loop: an imp is removed if and only if no medium is supported, or several are that may not be mixed and none is preferred; else it keeps all its supported media, or of several that may not be mixed the preferred one alone; its errors are exact |
| `ImpPruning.PruneImps` | adapters/infoawarebidder.go:73-135 | in place: the imps in front come from increasing places, all but those to be removed, each with exactly its supported media, or of several that may not be mixed the preferred one alone, unchanged; other places hold their own pruned imps, updated says whether any was removed, and the error list is exact |
| `ImpPruning.SurvivorFormats` | adapters/infoawarebidder.go:81-121 | a survivor keeps, unchanged, exactly its supported media with multi-format support or if there is one only, and else exactly the preferred one |
| `ImpPruning.RemovedIff` | adapters/infoawarebidder.go:99-121 | an imp is removed if and only if no medium is supported, or several are that may not be mixed and none is preferred |
| `ImpPruning.LostMediaAre` | adapters/infoawarebidder.go:81-97 | the media lost, and so the warnings, are those present outside the kept set, each once |
| `ImpPruning.ErrorsAre` | adapters/infoawarebidder.go:81-121 | the errors for an imp: a warning for each medium that is not supported and for each that gives way to the preferred one, bad input for each of the two reasons of removal, and no others |
| `ImpPruning.SurvivorsInOrder` | adapters/infoawarebidder.go:123-129 | the survivors are the imps not removed, each once, in order |
| `ImpPruning.BadInputPerRemovedImp` | adapters/infoawarebidder.go:99-115 | bad-input errors and survivors together number the imps |
| `ImpPruning.PruningIsIdempotent` | adapters/infoawarebidder.go:73-135 | pruning the survivors again changes and reports nothing |

## Left out

- HTTP endpoints, cookies, bidder calls, Prebid Cache, metrics, logging, analytics, configuration loading, JSON and the request wrappers: I/O; their results are parameters.
- GDPR enforcement, adapter registries, name tables and the move of OpenRTB 2.6 fields: finite tables over libraries and data that are not part of this model.
- Float rounding, number formatting, lower-casing and ISO 4217 parsing: reals and arbitrary functions. Lower-casing is only assumed idempotent, and only in `ValidateRules`.
- bidadjustment/apply.go:23-65 (the arithmetic of multiplier, CPM and static adjustments) and bidadjustment/validate.go: only which list applies is modelled.
- floors/enforce.go:16-83 (whether enforcement runs at all) and the floor details written into bid extensions.
- Schemas of 63 or more fields, where the mask itself overflows; only the weights are modelled with 64-bit wrap-around.
- Go's library sorts: a stable sort is represented by the one result it can have, `sort.Slice` by every sorted permutation.
- FindRule: states the most specific rule for at most five fields because the code does not deliver it beyond; the exact condition is `MostSpecificIffAtMostFive`. An empty field list, on which the key builder would panic, is excluded as `ValidateRules` excludes it.
- ValidateRules: needs a non-empty delimiter; floors code substitutes the default for an empty one.
- ApplyCategoryMapping: with shared bid IDs the seats' contents are not described, because removal by ID can then hit another bid; what is lost is in `CategoryLoss`. Seats are not nil, and the early error for an unknown primary ad server is not modelled. Seats are values: that removal rewrites the slice's backing array is not captured.
- Settings of the category pass: each bid's price bucket is an arbitrary string, the same for bids equal in every field, and its parsed price an arbitrary number, so bucketing and formatting stay out of that component.
- ValidateAndUpdateMultiBid: bid pointers are addresses with a set of those whose bid is nil; the limit is not negative; nil seats are absent seats.
- NewAuction: nil seats are absent seats.
- GetAllBids: FLEDGE configurations, non-bids and timings are not modelled; a goroutine panics at most once.
- FetchQueue.Tick: needs a pool that accepts as many tasks as entries are due; by `TickRounds` the loop does not end otherwise.
- FloorFetcher: shutdown, cache contents and eviction, and worker panics are not modelled; the clock is monotone and in whole seconds. The bounds of channel and pool are in `FetcherLivelock`, where the pool takes a task exactly if a worker is free or its queue has room.
- AdjustmentsFor: names contain no bar, inner maps are not nil, and request and account share no inner map.
- GetPriceBucket: the choice of a granularity by media type and the number of decimals are left out; time-split rounding takes its coin as a parameter and is rounding up or down.
- EnforceFloorToBids: seats are values in a map rather than shared objects, and a rate is a real, so an infinite rate from a zero table entry does not occur.
- InjectTracker: the two cases of an empty document, the trimming of text and the text of the tracker elements are left out; a block stands for all trackers of its kind. Which processing instructions and directives the encoder refuses is an input.
- Encode: attributes other than the ad ID are not part of a token, and how the encoder writes one (it renames namespace prefixes of attributes and elements) is not modelled.
- PruneImps: a media object is a number, and the bidder's capabilities are a set of media types.
