# Verified model of the listing bot

The bot watches Zonaprop searches for its users, sends each user the postings they have not been
shown, learns from their 👍 and 👎, and ranks what it sends by what it learned. This project models
that behaviour in Dafny and proves what the code and its comments promise about it, over every input
and every run of the modelled steps; what those steps leave out is listed at the end.

The parts of the system, and the file that models each:

- `Tables` – the delivery tables and every SQL statement or transaction on them, as a class updated in
  place and as functions on values.
- `Indexing` – the parallel goroutines that index a user's searches; `Postings` – what they leave in the
  listing rows.
- `Sending` – one run of a user: index, choose, rank, send, record.
- `Engine` – all runs of all users at once as a state machine: daily and manual runs, locks,
  goroutines, ratings, search edits, crashes and restarts.
- `Digests` – the daily job and its resumable day rows.
- `UpdateLoop` – the Telegram update loop: persisted offset, retries, dead letters, replays.
- `Ratings`, `Callbacks` – what a button press does, and the data behind the buttons.
- `FeatureBins`, `Scoring`, `Training`, `Agreement` – learning: buckets, scores, reasons, versioned
  generations, and the agreement measure.
- `Pacing`, `Fetching` – the gate that paces requests, and one fetch through it.
- `Validation` – the life of a search's deep checks.
- `Money`, `Captions` – prices as text, and card captions in UTF-16 code units (section 2.1 of
  RFC 2781).
- `Basics`, `Ordering`, `Numerals`, `Text` – shared values, sorting specifications, decimal numerals and
  white space.

Conventions. Each SQL statement or transaction is one atomic step; a failed one may or may not have
committed. Crashes, failed sends, failed fetches, cancelled contexts and clock readings are chosen by
the environment. Go maps and unordered queries are visited in an arbitrary order. Like rates are exact
rationals, and the logarithm is any strictly increasing function that is zero at one. A loop of the
source is a method proved against a function, and the results are proved about that function or about
the state machine; `Engine.RunIsPath`, `Digests.RunDailyIsPath` and the contracts of `UpdateLoop.Poller`
and `Ratings.CallbackHandler` tie the code to the machines. What a function computes is also stated on the
inputs and rows themselves, without its helpers: for the candidate query (`Tables.NewestFirst`), a run
(`Sending.RunRecords`), the daily job (`Digests.JobSettles`), a tap (`Ratings.CallbackHandler.Handle`), a
fetch (`Fetching.RequestsInTurn`), a pass (`Validation.PassSettles`), scores and reasons
(`Scoring.ScoreSign`, `Scoring.ReasonsByCounts`) and the rest below.

Where the code does less than its text says, the model follows the code, shows it, and states exactly
when the promise holds:

- A price label in pesos reads "ARS 150.000", but the parser knows pesos only by "$", so the currency is
  lost; and a negative amount loses its sign (`Money.PriceRoundTrip`, `Money.AmountRoundTrip`).
- A like can lower the score of a listing it shares a bucket with, when that bucket had no evidence
  before: shown for three rated listings (`Training.LikeCanLower`), and exactly characterised
  (`Scoring.LikeRaisesIff`, `Scoring.FirstLikePullsMean`).
- A priority request overwrites a pending cooldown: shown for a concrete log
  (`Pacing.CooldownCutShort`); `Pacing.PriorityCancelsCooldown` says exactly which later starts come
  too early.
- A like whose handling is cut short between its save and the cleared keyboard, by a failure or a
  crash, never gets its contact lookup (`Ratings.InterruptedLikeLosesLookup`); over all runs a lookup
  starts exactly for the likes whose keyboard was cleared (`Ratings.LookupIffCleared`).
- A search found valid but empty is announced as watched, but no run ever fetches it and no check ever
  looks at it again (`Validation.EmptyPageAnnounced`, `Validation.EmptyNeverWatched`); a search is
  fetched exactly if a check found cards (`Validation.FetchedIff`).
- A page that cannot be parsed does not count as an attempt, so a search may see any number of them and
  stay open (`Validation.UnreadablePages`); it is open exactly while no check got an answer and fewer
  than the maximum were completed (`Validation.OpenIff`).

A new model generation is stored in one transaction so that the scorer never reads half of one. Loading
takes two statements, and one that straddled a retraining would get the empty model under the old version
(`Training.TornLoad`, `Training.RetrainingTearsLoad`). One process retrains at boot, before anything
loads (cmd/bot/main.go:67-85), so today this takes a second process that starts meanwhile.

## Model

| member | source | states |
|---|---|---|
| Engine.SendOnce | internal/digest/digest.go:222-284 | In every interleaving of runs, ratings, search edits, crashes and restarts, a listing is notified to a user at most once more than its notifications whose record never committed; only the last notification can have committed, and then the delivery row exists |
| Engine.OneRunPerUser | internal/digest/digest.go:54-60 | Two runs of one user are never past the user's lock together |
| Engine.RecordInserts | internal/repo/deliveries.go:24-48 | MarkDelivered always inserts: its overwriting branch is never reached |
| Engine.SnapshotsStable | internal/repo/deliveries.go:24-48 | Delivery rows are never removed and what was recorded as shown never changes; only the status can |
| Engine.OnlyOwnInventory | internal/repo/listings.go:49-61 | Every notified listing had been linked before by the same user's own indexing |
| Engine.SendLoopIsPath | internal/digest/digest.go:257-283 | The sequential send loop and the machine's steps reach the same tables and send the same cards, so the machine's results hold at every point of the loop |
| Engine.RunIsPath | internal/digest/digest.go:54-151 | All of RunForUser, from its lock to its end, with its goroutines, statements, fetches, sends and records ending as they may, is a legal run of the machine with the same tables and cards, so what is proved of the machine holds at every point of it |
| Indexing.ParallelIndexing | internal/digest/digest.go:107-123 | Every complete interleaving of the goroutines links exactly the fetched pages, marks as delivered exactly the old keys and the pages of searches that had no sources, and rewrites no delivery row |
| Indexing.InterleavingEqualsSequential | internal/digest/digest.go:103-123 | A complete interleaving and a one-after-another run in any order agree on every link and every delivered posting |
| Postings.IndexedRows | internal/digest/digest.go:155-217 | Whatever the interleaving, finished or not, every new row has the rank of a place of its posting on a fetched page and a time of the run, known rows keep rank and time, and once a search is indexed every posting of its page is stored as some page showed it |
| Postings.InOrderRows | internal/digest/digest.go:103-128 | The same for the searches of a run one after another, with any failures: new rows carry the time of this run |
| Sending.DeferralNeverDrops | internal/digest/digest.go:219-284 | A run considers the newest candidates, at most `maxPerRun` or a thousand without a cap, best score first and at equal scores the later indexed, then the better rank, then the smaller id; the candidate set shrinks by exactly the recorded listings and no other user's changes; an error-free run records exactly the sends that succeed, and failed ones stay candidates |
| Sending.SendOrder | internal/digest/digest.go:257-283 | Rows are written for the notified listings in order; only the last send of a failed run may be unrecorded |
| Sending.RunRecords | internal/digest/digest.go:257-283 | A run fails exactly if it reaches a position where it is cancelled or a record fails; before that every successful send has a row with its place, score, features and time, and no other row is written or rewritten |
| Sending.SendConserves | internal/digest/digest.go:257-283 | Whatever fails on the way, no candidate is dropped or recorded twice |
| Sending.Drains | internal/digest/digest.go:222-284 | With nothing new and no failing run, whatever the scores and the clock do from day to day, n candidates under a cap c are all delivered after k runs exactly when k is at least n / c rounded up |
| Sending.ReindexingIsQuiet | internal/digest/digest.go:155-217 | Indexing pages whose postings were all linked before changes no user's candidates |
| Sending.Runner.RunForUser | internal/digest/digest.go:89-151 | A run that cannot list its searches reports failure and one without searches does nothing; one whose goroutines all fail, or that is cancelled, reports failure and sends nothing; any other sends from the tables its indexing leaves, which rewrite no delivery row and add rows of this user only, whichever statements fail |
| Sending.SequentialIndexing | internal/digest/digest.go:103-128 | When only fetching can fail, indexing in any order leaves the links and deliveries that every interleaving leaves, and succeeds for nothing exactly if no page could be read |
| Indexing.RunExtends | internal/digest/digest.go:155-217 | Whichever statements of a goroutine fail, committed or not, the tables stay consistent, no delivery row is rewritten and only rows of its own user are added |
| Sending.Runner.IndexAll | internal/digest/digest.go:103-128 | Indexing the searches leaves the tables of its specification, whichever statements fail, and counts the goroutines that succeeded |
| Sending.Runner.IndexSearch | internal/digest/digest.go:155-217 | One search is counted, stored, linked and, on its first success, baselined, as the goroutine's atomic steps say; the first failed statement ends it, committed or not |
| Sending.Runner.SendUndelivered | internal/digest/digest.go:222-284 | Sends and records what the send specification says for the newest candidates, and nothing if they or the model cannot be read; reports how many were considered |
| Sending.Runner.SendRanked | internal/digest/digest.go:257-283 | The send loop writes the rows, counts and outbox of its specification |
| Ordering.StableDescendingCorrect | internal/digest/digest.go:238-255 | The ranking is a permutation in descending score order that keeps the query's order within equal scores |
| Ordering.StableDescendingUnique | internal/digest/digest.go:238-255 | Those two conditions determine the result, so any stable sort gives the same ranking |
| Tables.NewestEligibleCorrect | internal/repo/listings.go:69-114 | The candidate query returns distinct undelivered listings of the user's own searches, as many as the limit allows, in strict recency order, and leaves out only older ones |
| Tables.NewestFirst | internal/repo/listings.go:69-114 | On the rows themselves: what is returned is linked to the user and undelivered, the later first-indexed row first, then the smaller rank, then the smaller id; rows left out come after all of it and only when the limit is reached |
| Tables.BaselineInsertsMissing | internal/repo/deliveries.go:50-83 | A baseline inserts exactly the missing rows, unsent, with the features of that moment and no attempt, and touches no other |
| Tables.UpsertConsistent | internal/repo/listings.go:19-47 | Storing a posting keeps ids unique and references resolved, and returns the row that now holds it |
| Tables.UpsertRow | internal/repo/listings.go:19-47 | On the rows themselves: a known posting keeps id, rank and first-indexed time and gets the new features; an unknown one gets a new row with the given rank and time; nothing else changes |
| Tables.LinkConsistent | internal/repo/listings.go:49-61 | Linking an existing posting to an existing search keeps references resolved |
| Tables.BaselineConsistent | internal/repo/deliveries.go:54-83 | A baseline keeps references resolved |
| Tables.Repo.UpsertListing | internal/repo/listings.go:19-47 | A known posting keeps its row id, rank and first-indexed time and gets the new features; an unknown one gets a new row |
| Tables.Repo.LinkListingSource | internal/repo/listings.go:49-61 | Adds the pair once, and fails exactly when the listing or the search is gone |
| Tables.Repo.Candidates | internal/repo/listings.go:69-114 | Returns the newest eligible listings whatever order the rows came in, ordered and cut by the columns of the rows |
| Tables.Repo.LinkedListingIDs | internal/repo/listings.go:138-160 | Returns the listings linked to a search |
| Tables.Repo.BaselineDeliveries | internal/repo/deliveries.go:50-83 | The loop inserts the missing rows of the given listings and counts them |
| Tables.Repo.RecordRating | internal/repo/ratings.go:16-58 | Stores the label and marks the delivery rated together, or finds no delivery and changes nothing |
| Digests.DoneOnlyBySuccess | internal/digest/digest.go:344-350 | A day is done only if a RunForUser for it returned without error |
| Digests.DoneIsAbsorbing | internal/repo/digests.go:45-51 | A done day stays done and is never run again, whatever later jobs, errors and crashes do; rows are never removed |
| Digests.NoDayLost | internal/repo/digests.go:43-69 | Once recorded, a day is done or is returned to every later job for its date or after, whatever failed or crashed before |
| Digests.JobSettles | internal/digest/digest.go:314-354 | A job whose queries succeed runs, oldest first, exactly the days up to the date that are recorded and not done, with the active users' own; each day it gets to ends as its statements and its run leave it, so done or in error when only RunForUser can fail; no other row changes, the total is what the runs sent, and it fails exactly if cancelled |
| Digests.RunDailyIsPath | internal/digest/digest.go:314-354 | RunDaily's two loops are a path of the machine |
| Digests.PendingDigestsCorrect | internal/repo/digests.go:43-69 | The days up to a date that are not done, each once, ordered by date and then user |
| Digests.DailyJob.RunDaily | internal/digest/digest.go:314-354 | The two loops leave the rows, total and result of the specification, the failing list of users included |
| UpdateLoop.NoUpdateSkipped | internal/chat/bot.go:98-153 | Over all runs with crashes at any step, every update at or below the persisted offset had a handler call that returned nil or failed three consecutive calls |
| UpdateLoop.LifeBounds | internal/chat/bot.go:98-153 | Between updates the offset in memory is the persisted one; in one process life an update is handled at most three times and calls never go back to an earlier update |
| UpdateLoop.PersistedGrows | internal/repo/ratings.go:121-130 | The persisted offset never decreases, and advancing it moves it exactly to the update just settled |
| UpdateLoop.BacklogBound | internal/chat/bot.go:107-159 | Without crashes and database errors, n pending updates take at most 3n handler calls, whatever handlers return and however updates are batched |
| UpdateLoop.BatchProgress | internal/chat/bot.go:124-152 | Whatever the size of a batch and whatever its handlers return, it ends in the next poll with fewer updates pending, or the same ones and one more failure of the first |
| UpdateLoop.PollProgress | internal/chat/bot.go:107-159 | While updates are pending, a poll of any size that gets some leaves fewer of them, or the same ones and one more failure of the first |
| UpdateLoop.BacklogDrains | internal/chat/bot.go:107-159 | Every steady run drains: with n updates pending, after 3n polls that got updates nothing is pending, within 3n handler calls, whatever the batch sizes and the handlers |
| UpdateLoop.Poller.Run | internal/chat/bot.go:80-160 | The polling loop, updates arriving between polls included, is a path of the machine from boot; without failures and arrivals it makes at most 3n handler calls for n pending updates and after 3n polls has none left |
| UpdateLoop.Poller.RunBatch | internal/chat/bot.go:124-152 | The batch loop follows the machine, stops at the first update to retry, and keeps the offset equal to the persisted one |
| UpdateLoop.Poller.HandleOne | internal/chat/bot.go:126-144 | One handler call updates the failure count, and settles the update on success or at the third failure |
| Ratings.FirstTapWins | internal/chat/bot.go:199-203 | Over whole runs with crashes and replays, a stored label never changes and a rated snapshot never changes, although RecordRating alone overwrites |
| Ratings.RatedWithinWindow | internal/chat/bot.go:204-209 | Every rating comes from one recorded tap with that label, judged at most 14 days after the listing was really sent |
| Ratings.BaselineNeverRated | internal/repo/ratings.go:162-165 | A baseline row, delivered but never sent, is never rated: its missing time reads as the zero time |
| Ratings.LookupAtMostOnce | internal/chat/bot.go:227-238 | The contact lookup starts at most once per user and listing, and only for a stored like |
| Ratings.LookupIffCleared | internal/chat/bot.go:213-238 | Over every run, with crashes, replays and saves that fail or only seem to, a lookup has started exactly for the stored likes whose save was followed by a cleared keyboard |
| Ratings.InterruptedLikeLosesLookup | internal/chat/bot.go:216-238 | A like whose save commits but reports failure, or is followed by a crash, never gets its lookup |
| Ratings.NotedAtMostOnce | internal/chat/bot.go:221-228 | Over every run a card is noted at most once per user and listing |
| Ratings.LikeGetsLookupIffCleared | internal/chat/bot.go:216-238 | From any reachable idle state, an accepted like handled to its end gets its contact lookup exactly when the keyboard was cleared, and no later tap, replay or crash changes that |
| Ratings.CallbackHandler.Handle | internal/chat/bot.go:174-240 | A tap, like or dislike, is stored exactly if its card was sent in the last 1 209 600 seconds and has no rating and the requests and statements succeed; then the tables gain that label alone, and a like its lookup if the keyboard was cleared; the result says exactly when an update is retried; the effects are a path of the machine |
| Callbacks.ButtonRoundTrip | internal/chat/bot.go:179-190 | Every button is read as the verdict and listing it was made for |
| Callbacks.ButtonFits | internal/telegram/telegram.go:198-217 | The data of every button fits Telegram's 64 bytes |
| Callbacks.ButtonsDiffer | internal/telegram/telegram.go:202-217 | Two different buttons never carry the same data |
| Callbacks.DoublePrefix | internal/chat/bot.go:187-190 | The reader takes both prefixes off in turn, so it accepts "u:d:" as a like and refuses "d:u:" |
| FeatureBins.LinearBinShared | internal/score/features.go:109-116 | Two sizes share a bin label exactly when one interval contains both, or neither is positive |
| FeatureBins.LowerEndBelow | internal/score/features.go:114-115 | The interval named by the label contains the value |
| FeatureBins.LogBinShared | internal/score/features.go:118-124 | Two values share a logarithmic bin label exactly when their indices agree, or neither is positive |
| FeatureBins.LogIndexOrdered | internal/score/features.go:118-124 | Logarithmic bins follow the order of the values |
| FeatureBins.NamespacesNeverMix | internal/score/features.go:60-71 | Listings of different operation and currency share no price bucket, so rating one never touches the price evidence of the other |
| FeatureBins.NamespaceInjective | internal/score/features.go:75-80 | Namespaces tell operation and currency apart as long as no operation contains a colon |
| FeatureBins.AbsentIsExplicit | internal/score/features.go:41-73 | Two listings share a bathroom bucket exactly when both counts or both absences agree; without currency or operation there is no numeric feature; there are two to five features |
| FeatureBins.PriceBucketShared | internal/score/features.go:60-107 | Two dollar sales share the price bucket exactly if their prices per square metre of total surface lie in one interval of 250; under any other operation and currency, in one interval of the logarithmic scale with ratio 1.12 |
| FeatureBins.ExpensasBucketShared | internal/score/features.go:60-73 | Two listings of one operation and currency share the expenses bucket exactly if these lie in one interval of that scale |
| FeatureBins.PlainBuckets | internal/score/features.go:41-58 | The locality or "unknown"; the total surface if given and else the covered one; two surfaces share a bucket exactly if one interval of ten holds both |
| FeatureBins.Extract | internal/score/features.go:41-73 | Filling the map key by key gives the categorical, size and numeric features |
| Scoring.AddedCounts | internal/score/weights.go:138-152 | A rating raises by one the count of its verdict in each of its buckets, creates only those, and changes no other |
| Scoring.Weights.Add | internal/score/weights.go:138-152 | Recording a rating in place, in any order of the features, gives those counts |
| Scoring.RateBounds | internal/score/weights.go:27-31 | A like rate is strictly between zero and one, and one half exactly on balanced evidence |
| Scoring.ScoreChange | internal/score/weights.go:33-60 | How a rating of g moves the score of f, exactly: the changes of the shared buckets are added and the old mean is spread over the buckets seen for the first time |
| Scoring.RatingMovesScore | internal/score/weights.go:33-60 | Where every shared bucket had evidence, a like strictly raises and a dislike strictly lowers the score of every listing that shares one, on the same evidence count |
| Scoring.UnrelatedScoreKept | internal/score/weights.go:33-60 | A rating leaves the score of listings that share no bucket unchanged |
| Scoring.ScoreSign | internal/score/weights.go:42-60 | On the counts: a score is zero when all evidence is balanced, positive when no bucket has more dislikes and one has more likes, negative in the mirror case |
| Scoring.OneBucketScore | internal/score/weights.go:42-60 | With evidence under one feature the score is the logarithm of 2 (ups + 1) / (ups + downs + 2) |
| Scoring.LikeRaisesIff | internal/score/weights.go:33-60 | A like raises a score exactly when what it adds to the shared buckets outweighs the old mean once per first-time bucket |
| Scoring.FirstLikePullsMean | internal/score/weights.go:33-60 | A like that reaches a listing only through one first-time bucket raises its score exactly if that was below the odds of one like, and lowers it exactly if above |
| Scoring.Score | internal/score/weights.go:42-60 | The loop, in any order of the features, computes the mean log odds over the features with evidence and their number |
| Scoring.WeightFormula | internal/score/weights.go:92-95 | The deviation of a bucket is the difference of its counts over twice the total plus four |
| Scoring.ReasonsStrongest | internal/score/weights.go:77-123 | The reasons are min(max, k) of the k buckets with at least three ratings, in strict order, and every one left out comes after every one shown |
| Scoring.ReasonsByCounts | internal/score/weights.go:77-123 | On the counts: reasons are features with at least three ratings, at most `max`, the like rate farthest from one half first and at equal distance the smaller feature name; one not shown is outranked by every one shown |
| Ordering.StringLessIff | internal/score/weights.go:98-108 | Names compare by their first difference, a prefix coming first |
| Scoring.ReasonsCanonical | internal/score/weights.go:98-108 | Whatever the map order and whatever sort, stable or not, the sorted candidates are the same |
| Scoring.Reasons | internal/score/weights.go:77-123 | Collecting, sorting and cutting gives those reasons; a missing model gives none |
| Training.CountsUnique | internal/score/retrain.go:38-41 | The count specification determines the generation, whatever the order of the samples |
| Training.CountsStep | internal/score/retrain.go:39-41 | Adding one more rated snapshot keeps the counts equal to the liked and not liked snapshots seen |
| Training.AddSamples | internal/score/retrain.go:38-41 | Adding the samples in any order gives the counts of their snapshots |
| Training.CountSamples | internal/score/retrain.go:26-41 | The retrained buckets are, per feature and value, the numbers of liked and not liked rated snapshots with it, and exist exactly where there is one |
| Training.LikeCanLower | internal/score/weights.go:33-60 | For listings as extracted and a model as retrained from their ratings: a like that lowers the score of a listing it shares the bathroom bucket with |
| Training.Trainer.TrainingSamples | internal/repo/weights.go:29-59 | One sample per rated delivery of the user, with the snapshot that was shown |
| Training.Trainer.ReplaceWeights | internal/repo/weights.go:71-113 | The upserts, the version flip and the pruning, as one step on the table |
| Training.Trainer.Retrain | internal/score/retrain.go:26-56 | Three steps, between which ratings and stores may change: the samples are read, the version is read, the generation is stored. A committed retraining stores the next version with the counts of the ratings read; otherwise nothing changes; a version is returned only if it committed |
| Training.StoredRows | internal/repo/weights.go:71-113 | After the transaction the rows of the version are those it had, overwritten by the new ones, whatever was pruned |
| Training.RoundTripIff | internal/repo/weights.go:81-146 | A stored generation loads back unchanged exactly when the table held no other row of its version |
| Training.RetrainedLoads | internal/repo/weights.go:71-146 | With one writer, whatever is rated meanwhile, every retraining loads back the counts it took, leaves no old generation of the user behind, touches no other user's model and keeps one writer |
| Training.HoldsUnique | internal/score/retrain.go:64-71 | The rows of a version determine the loaded buckets, whatever order they are read in |
| Training.Trainer.Load | internal/repo/weights.go:115-146 | The version is read, then the rows it has at a later moment; version 0 is the empty model |
| Training.TornLoad | internal/repo/weights.go:71-146 | A load gets the model whole if no generation was activated between its two statements and the empty model otherwise |
| Training.RetrainingTearsLoad | internal/repo/weights.go:71-146 | One retraining that commits between them is enough to load the empty model |
| Training.GenerationsGrow | internal/score/retrain.go:20-56 | Over whole runs of the update loop no bucket's likes or dislikes go down from one generation to the next |
| Agreement.PairCountIsPairs | internal/score/retrain.go:101-115 | Counting sample by sample counts exactly the unordered pairs of positions that are comparable, or concordant |
| Agreement.CountDay | internal/score/retrain.go:103-114 | The nested loops over one day count its comparable and concordant pairs |
| Agreement.OneMoreDay | internal/score/retrain.go:93-102 | Pairs never cross days, so days can be counted one by one |
| Agreement.AgreementShare | internal/score/retrain.go:84-120 | On the samples themselves: from thirty samples on, the share of the pairs of one day with different scores and labels whose higher score has the higher label; one exactly if all agree, zero exactly if none does |
| Agreement.Compute | internal/score/retrain.go:84-120 | Grouping by day and visiting the days in any order gives that share, and none below thirty samples or without a comparable pair |
| Agreement.AgreementPermuted | internal/score/retrain.go:84-120 | The order of the samples changes nothing |
| Agreement.AgreementRescaled | internal/score/retrain.go:106-112 | Only the order of the scores counts: any strictly increasing rescaling keeps the result |
| Agreement.AgreementFlipped | internal/score/retrain.go:106-112 | Swapping binary labels keeps the comparable pairs and turns every agreement into a disagreement |
| Pacing.Spacing | internal/fetch/gate.go:51-58 | A paced start is at least one gap per reservation after any earlier one since the last priority request; so at least one gap after the previous reservation of either kind |
| Pacing.StartExactly | internal/fetch/gate.go:51-58 | A paced request starts exactly at the latest of its own time and of what the marks since the last priority request, or since the first mark, hold it back to |
| Pacing.WindowBound | internal/fetch/gate.go:44-70 | Without priority requests a window of length w holds at most floor(w / minGap) + 1 starts, cancelled waiters included |
| Pacing.CooldownHolds | internal/fetch/gate.go:77-86 | After a cooldown, and without a priority request since, nothing starts before it is over |
| Pacing.PriorityCancelsCooldown | internal/fetch/gate.go:53-57 | After a priority request within a cooldown, a paced start comes too early exactly if it was asked for within the cooldown and no mark since that request reaches past it |
| Pacing.CooldownCutShort | internal/fetch/gate.go:53-57 | A concrete log: a priority request ten seconds into a five-minute cooldown lets two paced requests go within it |
| Pacing.Gate.TakeSlot | internal/fetch/gate.go:44-49 | A slot is taken exactly if one is free and the context is not cancelled, so the slots held never exceed the concurrency |
| Pacing.Gate.Reserve | internal/fetch/gate.go:51-58 | The start is at once for a priority request and otherwise not before the next time allowed, which moves one gap past it |
| Pacing.Gate.Acquire | internal/fetch/gate.go:44-70 | A cancelled wait gives the slot back and keeps the reservation |
| Pacing.Gate.CoolDown | internal/fetch/gate.go:77-86 | The next time allowed never moves forward |
| Fetching.SolverOnlyFirst | internal/fetch/fetch.go:175-189 | The solver is called at most once and only as the first request |
| Fetching.NothingAfterChallenge | internal/fetch/fetch.go:158-216 | A refused request, and an answered one, is always the last |
| Fetching.RequestBudget | internal/fetch/fetch.go:191-216 | At most one request to the solver and one per attempt: two with retries off |
| Fetching.RequestsInTurn | internal/fetch/fetch.go:158-216 | Plain request k is made exactly if the slot was not needed or taken, the solver failed without a challenge or is absent, k is within the attempts, and every earlier one failed without a challenge and its pause ran out; its answer then decides the fetch |
| Fetching.BudgetReached | internal/fetch/fetch.go:191-216 | A site that never answers gets exactly the solver's request if there is one and one plain request with retries off, or one more than the retries |
| Fetching.RequestsPaced | internal/fetch/gate.go:44-70 | Without priority requests, the fetches whose start is reserved in a window of length w send at most (floor(w / minGap) + 1) (retries + 2) requests |
| Fetching.CooldownIffBlocked | internal/fetch/fetch.go:229-247 | The gate cools down exactly once if a paced fetch is refused, and never otherwise |
| Fetching.ReleasedIffAcquired | internal/fetch/fetch.go:165-171 | The slot is given back exactly once, last, if and only if it was taken |
| Fetching.OutcomeIsLastAnswer | internal/fetch/fetch.go:161-220 | The result is the last request's page if it answered and a challenge if it was refused, and neither otherwise |
| Fetching.Client.FetchWith | internal/fetch/fetch.go:161-220 | The code leaves exactly the trace of the specification, the gate's slots as they were, in its log the reservation and, after a challenge, one cooldown, and the result that the last request in turn decides |
| Validation.SettledForever | internal/repo/onboarding.go:159-168 | Over any number of passes valid, empty and rejected searches stay exactly as they are |
| Validation.LifeWellFormed | internal/repo/onboarding.go:131-157 | Every search keeps the attempts its status allows: a retrying one has had at least one and fewer than the maximum |
| Validation.AttemptsAreCompleted | internal/validate/validator.go:109-147 | While a search is open its attempts are its completed checks, and a rejected one had exactly the maximum |
| Validation.SettledInTime | internal/validate/validator.go:69-161 | Every new search leaves the open states within the maximum number of completed checks, and gets no more |
| Validation.RejectedIff | internal/validate/validator.go:111-147 | A search is rejected exactly when it had the maximum of completed checks and none got an answer |
| Validation.RejectionTakes | internal/validate/validator.go:139-147 | A rejection comes no sooner than all the backoffs after the first completed check, wherever that stands among unreadable pages |
| Validation.RejectedHasCompleted | internal/validate/validator.go:111-147 | Every rejected search had a completed check, so the bound always applies |
| Validation.DefaultRejectionTakes | internal/validate/validator.go:200-208 | With the default five attempts that is 1800 seconds |
| Validation.ParseFailuresNeverSettle | internal/validate/validator.go:96-101 | A page that cannot be parsed changes nothing, however often |
| Validation.UnreadablePages | internal/validate/validator.go:96-101 | Any number of unreadable pages is a life of a new search that leaves it as it was |
| Validation.OpenIff | internal/validate/validator.go:91-148 | A search is open exactly if no check got an answer and fewer than the maximum were completed |
| Validation.EmptyNeverWatched | internal/repo/repo.go:83-86 | Over any number of passes, a search found empty is neither fetched by a run nor due for a check again |
| Validation.EmptyPageAnnounced | internal/validate/validator.go:91-148 | A new search whose page has no card is announced as watched, not fetched and not due again |
| Validation.FetchedIff | internal/repo/repo.go:83-86 | A search is fetched by the runs exactly if one of its checks found cards |
| Validation.PassChecksOnce | internal/validate/validator.go:91-148 | In one pass each search is left alone or checked once, as its page says |
| Validation.PassSettles | internal/validate/validator.go:91-161 | From page to row: every search a pass gets to is valid or empty by its cards, unchanged by an unreadable page, and otherwise has one attempt more and is rejected at the maximum or due after 60 * 2^attempts seconds, at most a day; the readable ones are counted; the pass ends early exactly when cancelled or when storing fails |
| Validation.BackoffDoubles | internal/validate/validator.go:200-208 | A minute, doubled with every attempt, until it is a day |
| Validation.PassKeeps | internal/validate/validator.go:69-161 | A pass keeps every row well formed and every settled row unchanged |
| Validation.EverySearchLives | internal/validate/validator.go:69-161 | Over any number of passes every search goes through a life of checks, each while due, so the results about lives hold of it |
| Validation.Validator.Select | internal/repo/onboarding.go:159-184 | The pending and retrying searches that are unscheduled or scheduled for no later than now, unscheduled first and then by their time, as many as the limit allows, and none left out that comes earlier |
| Validation.Validator.RunOnce | internal/validate/validator.go:69-161 | Five attempts and twenty searches where the settings are not positive, then every row the query returned as its page makes it; the count is of searches that became valid or empty |
| Validation.Validator.CheckAll | internal/validate/validator.go:91-148 | The loop, with its early ends, leaves the table and count of the specification |
| Money.FormatThousands | internal/model/model.go:83-101 | The left-to-right loop puts a dot before every group of three digits counted from the right, and nowhere else |
| Money.AmountRoundTrip | internal/parser/parser.go:234-247 | The parser gives a formatted number back exactly when it is not negative |
| Money.AmountOfFormatted | internal/parser/parser.go:234-247 | After any text without digits, a formatted number parses to its magnitude, unless that overflows 64 bits |
| Money.FormattedInjective | internal/model/model.go:83-101 | Two different numbers are never shown alike |
| Money.PriceRoundTrip | internal/model/model.go:43-50 | Parsing a price label gives the amount and currency back exactly for amounts that are not negative, in dollars or without currency; a label in pesos loses its currency |
| Money.ExpensasRoundTrip | internal/model/model.go:75-81 | An expenses label is read as pesos and gives the amount back exactly when it is not negative |
| Money.ReparseStable | internal/parser/parser.go:205-232 | Whatever text a page shows, showing the parsed price and parsing it again loses nothing but the currency of pesos |
| Money.DesdeIgnored | internal/parser/parser.go:205-232 | "desde" in any case before a dollar label changes neither amount nor currency |
| Money.ConsultarHasNoPrice | internal/parser/parser.go:205-232 | A text with "consultar" in any case, wherever, has no price |
| Captions.FittingLongest | internal/telegram/telegram.go:387-399 | The characters kept are the longest whole-character prefix within the limit |
| Captions.TruncatedWithin | internal/telegram/telegram.go:381-401 | Truncation respects the limit, changes nothing that fits, and otherwise keeps that prefix, trimmed |
| Captions.TruncateUTF16 | internal/telegram/telegram.go:381-401 | The loop computes it |
| Captions.CaptionBudget | internal/telegram/telegram.go:152-196 | Every card is within 1024 UTF-16 units and ends with the whole link whenever the link alone fits |
| Captions.CutOnlyIfNeeded | internal/telegram/telegram.go:184-195 | The card is the full text and the link exactly when those fit; otherwise the longest part of the text that leaves room for the link, trimmed, and the link |
| Captions.LinkOnly | internal/telegram/telegram.go:184-195 | Without room for text the card is the link, cut only if it is too long itself |
| Captions.CardLines | internal/telegram/telegram.go:155-182 | The lines are the non-empty fields in the order header, title, price, size, expenses and place, and then the reasons |
| Captions.TextLines | internal/telegram/telegram.go:155-182 | The text splits at its line breaks into exactly those lines |
| Captions.UnitsDecode | internal/telegram/telegram.go:387-399 | The units counted are those of UTF-16: one, or a surrogate pair that gives the character back |
| Captions.RenderCaption | internal/telegram/telegram.go:155-196 | Building the lines, reserving the link and truncating gives that card |
| Captions.NoteKeepsCard | internal/chat/bot.go:242-257 | The rating note keeps the old caption whole, never exceeds the limit, and is left out exactly for no caption, a marked one or one it does not fit |
| Captions.SecondNote | internal/chat/bot.go:259-267 | What the guard does with a caption that carries a note: after a like no second one is written, after a dislike only the limit prevents one; no run notes a card twice (NotedAtMostOnce) |

## Left out

- I/O itself: Telegram, the TLS client, the solver, reading HTML, Postgres, logging, configuration and wiring are steps that succeed, fail or answer as the environment chooses.
- Two statements interleaved inside one SQL statement, and the isolation levels of Postgres.
- JSON encoding of snapshots: a listing and its snapshot are one type.
- Search statistics and `last_checked_at`, which nothing modelled reads.
- Account deletion, which ends a user's history; Telegram's own 24-hour retention of updates.
- Command, help, menu and onboarding texts, the model summary, and the cooldown of the manual search.
- URL normalisation and host checks, phone and JSON-LD extraction, the locality reader (a parameter of feature extraction), the schedule of the next run, seeding and migrations.
- Floating-point rounding and the value of the logarithm; equal deviations compare equal in the model even where rounding would part them.
- The text of a reason and the size line of a card, which are rendered from modelled values.
- How long sleeps really take: the gate's results are about reserved starts, on a clock that does not go back.
- Ratings.CallbackHandler.Handle: assumes contact lookups are configured, and models the messages to Telegram only by whether they succeed.
- Sending.Runner.RunForUser: runs the goroutines one after another; the interleavings are in Indexing, those with failing statements, the lock and crashes in Engine.
- UpdateLoop.Poller.Run: the poll lease is only whether the loop starts; it is taken once and never renewed, so only one poller is assumed, not proved.
- Training.RetrainedLoads: assumes that no two retrainings of one user overlap, as at boot, where users are retrained one after another.
- Fetching.Client.FetchWith: one fetch with nothing interleaved between its steps; other requests to the gate are covered by the results about its log.
- Digests.DailyJob.FinishDigest: the number of listings sent and the error text are not stored; its comment calls the number cumulative, but the statement overwrites it (internal/repo/digests.go:82-100).
