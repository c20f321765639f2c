# Verified model of the dating platform's protocols

A Dafny model of the parts of the platform whose correctness spans several functions or several modules, with
proofs over every input and every run.

| file | what it models |
|---|---|
| `Relationship.dfy` | likes, matches, blocks, conversations and cached feeds as one state and its steps |
| `RelationshipInvariants.dfy` | every step keeps the five modules coherent |
| `RelationshipGuarantees.dfy` | what that gives members: feeds, matches, conversations, blocks |
| `CallRules.dfy` | which answer each of their calls gives and what it leaves behind |
| `FeedRules.dfy` | exactly who a feed shows, and since when |
| `Quotas.dfy` | daily limits: the counters are the count, and nobody is refused before the limit |
| `SwipeRules.dfy` | rewinds, two surprises |
| `EventBus.dfy` | subscribing and publishing; an event means the same in every handler order |
| `RelationshipPlatform.dfy` | the services over their tables, published events included |
| `Payments.dfy`, `PaymentPlatform.dfy` | payments, invoices, subscriptions and coupons; the services over their tables |
| `Settlement.dfy`, `SubscriptionRules.dfy` | what every report and sweep does to a payment, and what a settled one buys |
| `InvoiceNumbers.dfy`, `Decimals.dfy` | invoice numbers and the text order they rely on |
| `TextMasking.dfy`, `StarredTerms.dfy` | text screening and masking; the terms that masking cannot remove |
| `ScreeningRules.dfy` | exactly when a text is blocked or flagged, and what its masked copy reads |
| `RateLimit.dfy`, `Lockout.dfy`, `Totp.dfy`, `Base32.dfy` | the window counter, account lockout, one-time codes, the shared secret |
| `Engine.dfy`, `Ranking.dfy`, `Rounding.dfy` | scoring, hard filters, ranking, radius widening |
| `ScoringRules.dfy`, `Eligibility.dfy` | what each dimension of a score rewards; exactly who is ranked |
| `Displacement.dfy` | who is dropped when a ranking is cut, and what boosts do to that |
| `Gallery.dfy`, `GalleryRules.dfy` | the photo gallery; what each change does to each photo |
| `Wrappers.dfy` | `Option` and `Result` |

Tables are maps, sets and sequences held by a class. A call that raises restores its rows, as the database
transaction does; caches are not part of the transaction and keep what was written. Identifiers are natural numbers,
and a new row's id is its index. The clock is a number of seconds that never goes back. Each class method is proved
equal to a step function; the theorems are about runs of those steps. The step functions in turn are held to laws that
name none of them but the step itself: who is answered how, what is left behind, and what stays as it was. Settings, plan limits and the answers of other
systems (the screening verdict of a message, a payment provider's report, which members accounts offers to a feed) are
parameters.

## What the code does not do

Where a comment or docstring claims more than the code delivers, the model follows the code and the exact condition is
proved.

- Masked terms are said to be removed. The mask is `***`, so a term can occur again in what masking wrote: that can
  happen exactly to a term that is empty, starts or ends with a star, or holds three stars in a row
  (`MaskCanFailExactlyOnStars`). Every other term is removed, `b*d` among them, whatever the other terms are
  (`MaskAllIsClean`), except from blank text, which is returned unscreened (`MaskedTermSurvivesOnlyInBlankText`).
  Screening twice is the same as once for the same terms, and for the mask itself, and for no other
  (`ScreeningRepeatsExactlyWhenRemovable`).
- "Mark a payment paid exactly once" holds until a cancellation or refund is reported; then the payment settles again
  under its old invoice (`CancelledPaymentSettlesAgain`, `StepKeepsSettled`, `SettlementsAreAccountedFor`).
- A month's hundred-thousand-and-first invoice cannot be issued (`TextOrderBreaksAt100000`,
  `SettlementFailsOnlyInAFullMonth`).
- "One live subscription at a time" holds after a start, and after a renewal only if no other row is live
  (`RenewLeavesOneLiveExactlyIfNoOther`). A settled payment buys nothing if its plan or coupon has lapsed
  (`GrantedExactlyWhenStartable`).
- A new match "immediately gets a conversation"; a revived match keeps the one it had, closed or not
  (`RevivalOpensNothing`, `ARevivedMatchIsSilent`).
- "Undo the most recent swipe" undoes the newest row, which an upgraded or repeated swipe does not have
  (`RewindUndoesTheLastSwipeIffNewest`, `AnUpgradeIsNotWhatARewindUndoes`).
- A report that fails after blocking leaves a cached "blocked" without a block, for 300 seconds
  (`FailedReportRefusesFor300Seconds`).
- Boosts are said not to displace a much better match. At the limit they do: with room for one, a boosted candidate who
  scores 53 comes back and an unboosted one who scores 61 does not (`ABoostedCandidateTakesTheOnlyPlace`). A passer is
  dropped while a lower-scored one is returned exactly if its place is past the limit and a boosted passer with a lower
  score is among the first of the boosted (`DisplacedExactlyByBoost`).
- A stored radius of 0 scores every distance as neutral. Setting a real radius lowers the distance dimension and the
  total of exactly the candidates beyond about a quarter of it, boosted ones at the cap apart
  (`ZeroRadiusScoresHigherExactlyWhenFar`, `RealRadiusLowersTotalExactlyWhenFar`). With the shipped weights it lowers
  the score itself of everybody beyond it (`RealRadiusLowersScore`): from 61 to 48 for a candidate 500 kilometres away
  and a radius of 100 (`ARadiusOfZeroScoresMore`).
- Reordering accepts any list, with repeats and unknown ids. Positions stay gapless exactly if the photos named swap
  places among themselves (`ReorderIsCompactExactlyIfPlacesAreSwapped`); for live photos named once, exactly if they are
  the first ones (`ReorderIsCompactExactlyOnPrefixes`). `PartialReorderCollides` shows both ways of failing.

## Model

| member | source | states |
|---|---|---|
| RelationshipInvariants.EveryRunIsCoherent | apps/likes/services.py:67-169 | Over every run of swipes, rewinds, unmatches, blocks, unblocks, failed reports, bans, deactivations, deletion requests, chats, messages, feeds, upkeep tasks and clock ticks from empty tables: matches are earned and unblocked, mutual likes have a match row, one match and one conversation per pair, every match has its thread, counters are true, no "not blocked" verdict is wrong, and no cached feed holds an excluded member |
| RelationshipInvariants.StepKeepsCoherent | apps/common/events.py:115-126 | Each single step, from any coherent state, reachable or not, ends in a coherent state |
| RelationshipInvariants.SwipingKeeps | apps/likes/services.py:67-149 | A swipe, refused at any check or carried through to a created or revived match, keeps the state coherent |
| RelationshipInvariants.RewindingKeeps | apps/likes/services.py:153-169 | So does a rewind: the refusal to undo an active match is what keeps matches earned |
| RelationshipInvariants.BlockingKeeps | apps/reports/services.py:27-42 | So does a block together with all that its event does |
| RelationshipInvariants.FailedReportKeeps | apps/reports/services.py:86-132 | So does a report that fails after blocking, although its caches are not rolled back |
| RelationshipInvariants.HousingKeepsConversations | apps/chat/services.py:30-55 | Giving a match its conversation by keeping, adopting or creating one leaves one conversation per pair, each carrying the id of exactly its members' match |
| RelationshipInvariants.MatchingIsExact | apps/matches/services.py:20-49 | Creating or reviving leaves one row per pair: the pair's row is active, every other row and every row's pair is as before |
| RelationshipInvariants.ReadingIsOnesOwn | apps/chat/services.py:189-209 | Marking read clears exactly the reader's unread messages and leaves the other member's count alone |
| RelationshipGuarantees.CachedFeedsHideTheExcluded | apps/discovery/services.py:26-42 | In every reachable state a cached feed holds nobody its owner must not see: not the owner, nobody passed on, ever matched, or blocked either way |
| RelationshipGuarantees.NobodyExcludedIsServed | apps/discovery/services.py:214-226 | Every list handed out, cached or new, is within the limit and free of excluded members, by the exclusions before and after the call |
| RelationshipGuarantees.MatchesAreMutual | apps/likes/interface.py:42-49 | In every reachable state an active match has both likes standing and no block, two standing likes have a match row, and a pair has at most one |
| RelationshipGuarantees.SwipeMatchesExactlyWhenAnswered | apps/likes/services.py:130-149 | A successful swipe reports a match exactly when it is positive and the other side's like stands, and that match is then active; a refused swipe changes at most the cached verdict |
| RelationshipGuarantees.OneConversationPerPair | apps/chat/services.py:58-65 | In every reachable state no two conversations have the same two members, whichever path created them |
| RelationshipGuarantees.CountersAreTrue | apps/chat/services.py:284-293 | Message counts and both unread counters equal what the messages say, in every reachable state |
| RelationshipGuarantees.MatchAdoptsTheThread | apps/chat/services.py:35-44 | A match of a pair that already talks takes over their conversation with its id, messages and counters, and touches no other |
| RelationshipGuarantees.RevivalOpensNothing | apps/chat/services.py:31-33 | When a match starts, the pair's conversation is open afterwards exactly if the match is their first or the conversation was open before |
| RelationshipGuarantees.BlockCutsEverything | apps/reports/signals.py:17-23 | A new block leaves no like either way, no active match, the ended match's conversation closed, neither feed cached and the verdict true in both directions |
| RelationshipGuarantees.NothingCrossesABlock | apps/likes/services.py:74-75 | While a block stands no step, by anyone, leaves a like or an active match between the two or changes how many messages they have exchanged |
| RelationshipGuarantees.SilentWhileBlocked | apps/chat/services.py:258-259 | Over any stretch of a run during which the block stands, the two stay apart and nothing is said |
| RelationshipGuarantees.OnlyUnblockingLifts | apps/reports/services.py:45-48 | A block disappears only by its own author's unblocking |
| RelationshipGuarantees.StepOnBlocks | apps/reports/services.py:27-48 | What every kind of step does to the block table, exactly |
| RelationshipGuarantees.VerdictIsTheBlockTable | apps/reports/services.py:51-66 | Over every run without a failed report each cached verdict equals the block table, and so does the answer given |
| RelationshipGuarantees.FailedReportRefusesFor300Seconds | apps/reports/services.py:86-132 | A failed report leaves no block, and the answer "blocked" for exactly the 300 seconds the cache keeps it |
| SwipeRules.RewindUndoesTheNewest | apps/likes/services.py:153-169 | When a rewind succeeds and when there is nothing to undo, both exactly; it takes back the newest standing row and no other, and a refused one changes nothing |
| SwipeRules.RewindUndoesTheLastSwipeIffNewest | apps/likes/services.py:159-167 | A rewind right after a swipe takes that swipe back exactly if its row is newer than the sender's other standing rows, as on a first swipe |
| SwipeRules.RewindRestoresTheExclusions | apps/likes/interface.py:56-66 | A first swipe taken back leaves the sender's exclusions as they were before it; a feed cached in between is not touched |
| SwipeRules.StandingSwipeCanBeFound | apps/likes/services.py:159-161 | Whenever a swipe stands there is a newest one to undo |
| Quotas.CountersAreTheCount | apps/likes/services.py:20-28 | Over any run a member's counters for today are the number of likes, super likes and rewinds that got through today |
| Quotas.SwipeIsRefusedExactlyAtTheLimit | apps/likes/services.py:49-61 | Over any run, towards an active, unblocked receiver whose row permits it, a like or super like is refused for the quota exactly if the plan gives a number and that many or more of the kind got through that day; otherwise it succeeds |
| Quotas.RewindIsRefusedExactlyAtTheLimit | apps/likes/services.py:49-61 | An entitled member's rewind is refused for the quota exactly if that many rewinds got through that day |
| Quotas.ExactlyTheLimitGetsThrough | apps/likes/services.py:49-61 | With a limit of l, of any number of likes or super likes to new people in a day exactly the first l get through |
| Quotas.DailyUseIsBounded | apps/likes/services.py:20-61 | Over any run from any state, with the plan changing within the day, no member gets more likes, super likes or rewinds through in a day than the largest limit in force at one of them, counting what was used before |
| Quotas.StepOnQuota | apps/likes/services.py:49-61 | Within a day every step adds to a member's counter exactly what it lets through |
| Quotas.ResettingOnQuota | apps/likes/tasks.py:8-13 | The midnight reset leaves every member's counters for the day as the reset on reading has them |
| SwipeRules.AnUpgradeIsNotWhatARewindUndoes | apps/likes/services.py:98-106 | Like one, like another, upgrade the first: the rewind undoes the second |
| SwipeRules.ARevivedMatchIsSilent | apps/matches/services.py:29-38 | Match, unmatch, super like again: the match is active and its conversation refuses messages |
| CallRules.SwipeAnswers | apps/likes/services.py:72-96 | Each refusal of a swipe given exactly, in the order of the checks; it reports a match exactly if the like is returned; and a refused swipe changes at most the stored verdict |
| CallRules.SwipeWrites | apps/likes/services.py:91-111 | A swipe that gets through writes the row of its pair in the place of the former one, stores the verdict asked for, and changes no other row |
| CallRules.SwipeConnects | apps/likes/services.py:130-149 | With a returned like the pair's match row, found or new, is active, no other row changes and neither feed is kept; without, matches and conversations stay and only the sender's feed goes |
| CallRules.SendingIsExact | apps/chat/services.py:245-313 | Each refusal of a message given exactly, in the order of the checks; otherwise one unread message with this sender and body stands at the end, the count goes up by one and so does the other member's unread counter |
| CallRules.OpeningIsExact | apps/chat/services.py:68-111 | Each refusal given exactly; otherwise the pair's conversation, or a new open and empty one at the end if they had none |
| CallRules.ReadingIsExact | apps/chat/services.py:189-209 | Reading marks exactly the others' messages and clears the reader's counter; an outsider changes nothing |
| CallRules.UnmatchingIsExact | apps/matches/services.py:81-91 | Not found, not yours, or the match ended by the caller with exactly its conversations closed |
| CallRules.BlockingIsExact | apps/reports/services.py:27-42 | A block ends and closes what its pair has, forgets its likes and feeds and stores the verdict for 300 seconds, and touches nobody else; a repeated one changes nothing |
| CallRules.UnblockingIsExact | apps/reports/services.py:45-48 | Lifting a block removes the row and the verdict and brings nothing back |
| CallRules.AskingAndFailingAreExact | apps/reports/services.py:51-66 | An answer is stored for 300 seconds unless one still holds; a failed report leaves exactly the verdict and the two feeds changed |
| CallRules.LeavingIsExact | apps/accounts/services.py:77-118 | A ban ends the member's active matches and closes the conversations, a pause does the first, a deletion request the second, to nobody else; coming back restores neither |
| CallRules.PruningIsExact | apps/likes/tasks.py:17-22 | Exactly the passes before the cutoff go |
| CallRules.ArchivingIsExact | apps/chat/tasks.py:19-23 | Exactly the stale conversations close |
| FeedRules.BuiltFeedShowsExactlyTheEligible | apps/discovery/services.py:26-42 | When refreshing, or when no unexpired non-empty list is cached, somebody is stored exactly if ranked, dateable and not excluded; the stored list keeps the rank order and holds for 180 seconds, and the answer is its first members up to the limit |
| FeedRules.StoredFeedIsServed | apps/discovery/services.py:30-33 | Otherwise the answer is the first members of the stored list, and nothing changes |
| FeedRules.ServedFeedIsRecent | apps/discovery/services.py:30-41 | Over any run, a list served from the cache was stored by that member's own build less than 180 seconds earlier |
| FeedRules.StepOnFeeds | apps/discovery/signals.py:19-39 | No step but a member's own build puts a list into that member's cache |
| EventBus.PublishIsItsEffect | apps/common/events.py:115-126 | Whatever the order of an event's handlers, whichever unrelated ones stand among them and whichever of those raise, publishing has the same effect, nested events included |
| EventBus.DispatchIsPart | apps/common/events.py:121-125 | After any number of handlers exactly the parts of those that have run are in effect |
| EventBus.EndPairIs | apps/matches/services.py:94-106 | Ending a pair's matches one by one, each announced to its own handlers, ends all of them and closes exactly their conversations |
| EventBus.EndingIsItsEffect | apps/chat/signals.py:21-25 | A match-ended event closes exactly the conversation of that match |
| EventBus.HandlerDoesItsPart | apps/discovery/signals.py:19-39 | Each handler does its part whichever handlers ran before it, and running twice is the same as once |
| EventBus.HousedTwice | apps/chat/signals.py:11-18 | Opening a match's conversation twice is opening it once |
| EventBus.AnyLoadOrderWires | apps/common/events.py:99-107 | Modules may subscribe in any order, repeatedly and with others in between: every event ends up with exactly its own related handlers |
| EventBus.LoadedHolds | apps/common/events.py:103-104 | After any subscriptions exactly those who asked are subscribed, nobody twice |
| RelationshipPlatform.Platform.Subscribe | apps/common/events.py:99-107 | Appends a handler unless it is already there |
| RelationshipPlatform.Platform.Publish | apps/common/events.py:115-126 | The loop over handlers has the event's effect on the tables |
| RelationshipPlatform.Platform.RunHandler | apps/likes/signals.py:16-25 | One handler, or nothing where it raises |
| RelationshipPlatform.Platform.Swipe | apps/likes/services.py:67-149 | Same answer, error and tables as the swipe step, which keeps them coherent |
| RelationshipPlatform.Platform.RecordSwipe | apps/likes/services.py:91-111 | Consumes the quota and writes or updates the row |
| RelationshipPlatform.Platform.FindLatest | apps/likes/services.py:159 | The scan finds the receiver of the newest standing row, or that there is none |
| RelationshipPlatform.Platform.Rewind | apps/likes/services.py:153-169 | Same answer, error and tables as the rewind step; a refused one leaves the quota unspent |
| RelationshipPlatform.Platform.CreateMatch | apps/matches/services.py:20-49 | Creates or revives the pair's row and announces it only then |
| RelationshipPlatform.Platform.Unmatch | apps/matches/services.py:81-91 | Ends the match for a participant and closes its conversation; the error cases change nothing |
| RelationshipPlatform.Platform.EndAllForPair | apps/matches/services.py:94-106 | The loop over the rows read, with an event for each |
| RelationshipPlatform.Platform.EndAllForUser | apps/matches/services.py:109-117 | Ends exactly the member's active matches |
| RelationshipPlatform.Platform.GetOrCreateConversation | apps/chat/services.py:30-55 | Keeps, adopts or creates the conversation of a match |
| RelationshipPlatform.Platform.CloseForMatch | apps/chat/services.py:237-240 | Closes exactly the conversations carrying the match's id |
| RelationshipPlatform.Platform.CloseAllOf | apps/chat/signals.py:28-40 | Closes exactly the member's conversations |
| RelationshipPlatform.Platform.OpenChat | apps/chat/services.py:68-111 | Same answer, error and tables as the step: a pair's conversation is found or created, unless blocked |
| RelationshipPlatform.Platform.Send | apps/chat/services.py:245-313 | Same answer, error and tables as the step: one message, one count, one unread for the other |
| RelationshipPlatform.Platform.MarkRead | apps/chat/services.py:189-209 | The loop marks exactly the messages of the other member and clears the reader's counter |
| RelationshipPlatform.Platform.IsBlockedBetween | apps/reports/services.py:51-66 | Answers from the cache while it lasts, else from the table, and stores the answer |
| RelationshipPlatform.Platform.Block | apps/reports/services.py:27-42 | Same answer, error and tables as the block step; a repeated block publishes nothing |
| RelationshipPlatform.Platform.Unblock | apps/reports/services.py:45-48 | Removes the one row and forgets the verdict |
| RelationshipPlatform.Platform.Report | apps/reports/services.py:86-132 | A report that blocks; a failing one takes its rows back and not its caches |
| RelationshipPlatform.Platform.Ban | apps/accounts/services.py:99-107 | The account leaves, its matches end, its conversations close |
| RelationshipPlatform.Platform.Deactivate | apps/accounts/services.py:77-85 | The account pauses and its matches end; its conversations stay as they are |
| RelationshipPlatform.Platform.RequestDeletion | apps/accounts/services.py:110-118 | The account pauses and its conversations close; its matches stay as they are |
| RelationshipPlatform.Platform.PrunePasses | apps/likes/tasks.py:17-22 | Drops exactly the passes created before the cutoff |
| RelationshipPlatform.Platform.ArchiveStaleConversations | apps/chat/tasks.py:19-23 | Closes exactly the conversations found stale |
| RelationshipInvariants.PruningKeeps | apps/likes/tasks.py:17-22 | Dropping old passes keeps the state coherent: no match loses a like and no cached feed gains an excluded member |
| RelationshipPlatform.Platform.MatchedUserIds | apps/matches/interface.py:46-53 | The appended list holds exactly the members ever matched |
| RelationshipPlatform.Platform.ExcludedUserIds | apps/discovery/services.py:214-226 | Self, passed on, ever matched, blocked either way |
| RelationshipPlatform.Platform.BuildFeed | apps/discovery/services.py:26-42 | Serves the cached list while it lasts and is not empty, else ranks the pool without the excluded and stores it |
| Payments.SettlementsAreAccountedFor | apps/payments/services.py:102-126 | Over every run a payment has settled once for each time a cancellation or refund took it out of success, plus once if it stands succeeded; it has an invoice exactly if it ever settled, and no more subscription rows than settlements |
| Payments.SettledOnceAndForGood | apps/payments/services.py:233-257 | Under any mix of repeated and reordered success and failure reports, polls, reconciliations and expiry sweeps a payment settles at most once, stays settled, has an invoice exactly if settled and at most one subscription row |
| Payments.StepKeepsSettled | apps/payments/models.py:95-125 | A settled payment stops being settled in exactly the cases a cancellation or refund names it |
| Payments.CancelledPaymentSettlesAgain | apps/payments/services.py:253-257 | A cancellation report for a settled payment followed by a success report settles it a second time, under the same invoice |
| Payments.RunKeepsBooks | apps/payments/services.py:276-296 | Invoices and subscription rows follow settlements over every run |
| Payments.InvoicesAreNumberedInOrder | apps/payments/services.py:299-303 | Over every run the invoices of a month are numbered 1, 2, 3 and so on without gap or repeat, and no two payments share a number |
| Payments.SettlementFailsOnlyInAFullMonth | apps/payments/services.py:102-126 | A first settlement fails exactly if the month's hundred thousand numbers are used up |
| Payments.GrantedExactlyWhenStartable | apps/subscriptions/signals.py:11-24 | A settled subscription payment starts a subscription exactly if the plan is offered and the coupon, if any, still redeemable |
| Payments.StartLeavesOneLive | apps/subscriptions/services.py:147-189 | Starting a plan leaves the member exactly one live row |
| Payments.RenewLeavesOneLiveExactlyIfNoOther | apps/subscriptions/services.py:192-213 | Renewing leaves one live row exactly if no other row of the member was live |
| Payments.RunKeepsCouponsWithinLimits | apps/subscriptions/services.py:290-333 | Over every run no coupon is redeemed beyond its own or its per-member limit |
| Settlement.PaidReportSettles | apps/payments/services.py:233-250 | From any reachable state a payment not settled that a report of success names, by reference or as the newest with the provider's reference, is settled, invoiced, announced once more and buys what it is for, whatever happened to it before; it is not exactly if it has no invoice and the month is full, and then nothing changes |
| Settlement.PaidPollSettles | apps/payments/services.py:149-161 | A poll does the same for a payment with a provider reference, and nothing for one without |
| Settlement.ReconciliationIsExact | apps/payments/tasks.py:14-34 | For every payment: of the two hundred newest that wait, one reported paid is settled exactly if it has an invoice or the numbers of the month suffice for those ahead of it too; a declined one fails; every other payment, polled or not, is left alone |
| Settlement.BatchFinds | apps/payments/tasks.py:20-24 | The batch holds every open payment older than ten minutes with a provider reference that has fewer than two hundred newer ones like it, in its place |
| Settlement.BatchHolds | apps/payments/tasks.py:20-24 | And no other payment |
| Settlement.OtherReports | apps/payments/services.py:233-262 | A declined payment that has not succeeded fails and one that has stays; a cancelled one is cancelled; an external refund adds up; a repeated success is ignored; and nothing else changes |
| Settlement.OtherPolls | apps/payments/services.py:149-161 | A poll that does not report success fails a declined payment that has not succeeded, and does nothing else |
| Settlement.OrphansChangeNothing | apps/payments/services.py:233-247 | A report that names no payment changes nothing |
| Settlement.RefundsAreIssuedExactlyWithinTheRest | apps/payments/services.py:325-350 | A refund is issued exactly for a positive amount within what is left of a succeeded payment |
| SubscriptionRules.GrantBuys | apps/subscriptions/signals.py:11-31 | A settled payment opens a subscription exactly if its plan is offered and its coupon honoured, extends the row it names, and buys nothing otherwise |
| SubscriptionRules.StartOpens | apps/subscriptions/services.py:147-189 | Which starts succeed and with which error the others fail; the new row runs for the plan's and the coupon's days, the member's live rows are cancelled, nobody else's change, and the coupon is counted once |
| SubscriptionRules.FreeStartIsExact | apps/subscriptions/services.py:147-189 | A free start does that, or nothing |
| SubscriptionRules.RenewalIsExact | apps/subscriptions/services.py:192-213 | A renewal makes the row it names active until its plan's days after the later of its end and now, and changes no other |
| SubscriptionRules.CancellingStopsTheCurrentRow | apps/subscriptions/services.py:216-229 | Cancelling stops the newest live, unexpired row and its renewal, without taking time away; without one it does nothing |
| SubscriptionRules.SweepsAreExact | apps/subscriptions/services.py:232-250 | The sweeps expire exactly the subscriptions past their end and cancel exactly the open payments past their window |
| SubscriptionRules.CreatingIsExact | apps/payments/services.py:35-83 | A payment of a positive amount is added, to be processed within two hours |
| PaymentPlatform.Platform.SettlePayment | apps/payments/services.py:102-126 | Settles once: marks, invoices, announces and grants, or leaves everything as it was |
| PaymentPlatform.Platform.FailPayment | apps/payments/services.py:128-139 | Marks failed unless succeeded |
| PaymentPlatform.Platform.PollPayment | apps/payments/services.py:149-161 | Applies the provider's report unless there is no provider reference |
| PaymentPlatform.Platform.ApplyWebhook | apps/payments/services.py:233-262 | Finds the payment by reference or provider reference and applies the report |
| PaymentPlatform.Platform.CreateInvoice | apps/payments/services.py:276-296 | The existing invoice, or a new one under the next number |
| PaymentPlatform.Platform.IssueRefundFor | apps/payments/services.py:325-368 | Refunds exactly the valid amounts of a settled payment, never more than was paid |
| PaymentPlatform.Platform.SelectDue | apps/payments/tasks.py:20-24 | The open payments past the cutoff with a provider reference, at most two hundred |
| PaymentPlatform.Platform.ReconcileOpenPayments | apps/payments/tasks.py:14-34 | Polls the batch one by one; a failing poll changes nothing and stops nothing |
| PaymentPlatform.Platform.ExpireStalePayments | apps/payments/tasks.py:38-42 | Cancels exactly the open payments whose window has passed |
| PaymentPlatform.Platform.StartSubscription | apps/subscriptions/services.py:147-189 | Replaces live rows and starts one, or fails and changes nothing, exactly as plan and coupon allow |
| PaymentPlatform.Platform.RenewSubscription | apps/subscriptions/services.py:192-213 | Extends from the later of expiry and now |
| PaymentPlatform.Platform.CancelSubscription | apps/subscriptions/services.py:216-229 | Cancels the member's current row, if there is one |
| PaymentPlatform.Platform.ExpireDueSubscriptions | apps/subscriptions/services.py:232-250 | Expires exactly the rows that are due, and returns how many |
| PaymentPlatform.Platform.GrantAccess | apps/subscriptions/signals.py:11-31 | Starts or renews what a payment bought |
| PaymentPlatform.Platform.RedeemCoupon | apps/subscriptions/services.py:322-333 | Counts a redemption for the coupon and for the member |
| InvoiceNumbers.MonthIsNumberedWithoutGaps | apps/payments/services.py:299-303 | However attempts in different months interleave, a month's issued numbers are the first n in order |
| InvoiceNumbers.NextContinues | apps/payments/services.py:299-303 | With n numbers issued in a month the next is n + 1, up to one hundred thousand and no further |
| InvoiceNumbers.NumberIssuedOnce | apps/payments/services.py:299-303 | The next number is already taken exactly when the month is full |
| InvoiceNumbers.AttemptFailsWhenMonthIsFull | apps/payments/services.py:283-296 | Issuing fails exactly then |
| InvoiceNumbers.TextOrderUpTo99999 | apps/payments/services.py:301 | Up to 99999 the text order of numbers is their numeric order |
| InvoiceNumbers.TextOrderBreaksAt100000 | apps/payments/services.py:301 | 99999 is not below 100000 as text |
| InvoiceNumbers.SequenceReadsBack | apps/payments/services.py:302 | The last field of a printed number parses to what was printed |
| Decimals.PaddedRoundTrip | apps/payments/services.py:302-303 | Printing with zero padding and parsing give the number back, at any width |
| Decimals.SameWidthOrder | apps/payments/services.py:301 | Between numerals of one width text order is numeric order and equal values are equal text |
| TextMasking.MaskAllIsClean | apps/moderation/services.py:62-82 | After all terms are applied in any order, no masked literal term is left that has no star at either end and no three in a row, whatever their overlaps |
| TextMasking.MaskedTermSurvivesOnlyInBlankText | apps/moderation/services.py:56-82 | Such a term occurs in the clean text exactly if the text is blank and holds it |
| TextMasking.ScreeningIsIdempotent | apps/moderation/services.py:56-82 | Screening a clean text again changes nothing, for any list of removable terms, the mask itself allowed |
| StarredTerms.MaskCanFailExactlyOnStars | apps/moderation/services.py:78-79 | Some text that is not blank still holds a term after being screened with it exactly if the term is empty, starts or ends with a star, or holds three stars in a row |
| StarredTerms.ScreeningRepeatsExactlyWhenRemovable | apps/moderation/services.py:56-82 | Screening every text twice with one masked term gives what screening it once gives exactly if the term is removable or is the mask itself |
| StarredTerms.SomeTextKeepsIt | apps/moderation/services.py:79 | For every term that is not removable, a text that holds the term and still holds it after the replacement |
| StarredTerms.SubChanges | apps/moderation/services.py:79 | A replacement that finds something changes the text, unless the term is the mask |
| StarredTerms.ALoneStarTriples | apps/moderation/services.py:78-79 | The term `*` turns a lone star into three and three into nine |
| TextMasking.ReplaceAddsNoTerm | apps/moderation/services.py:79 | Replacing any term brings no removable term into being |
| TextMasking.SubLeavesNone | apps/moderation/services.py:79 | Replacing a removable term leaves no occurrence of it, across replacement borders too |
| TextMasking.CountedOnce | apps/moderation/services.py:81-83 | Each term that hits is counted once, the others not at all |
| TextMasking.SevereHitIsFlagged | apps/moderation/services.py:91-93 | A hit of a high or critical term always flags the text |
| ScreeningRules.BlockedExactly | apps/moderation/services.py:76-91 | A text is blocked exactly if it contains a term to be blocked, in letters of either case, or hits a critical pattern |
| ScreeningRules.FlaggedExactly | apps/moderation/services.py:92-93 | The score reaches the threshold exactly for one severe hit, two of middle severity, one of those beside two mild ones, or four mild ones |
| ScreeningRules.ReasonsNameTheHits | apps/moderation/services.py:70-73 | One reason for each term found, in the order of the terms, and no others |
| ScreeningRules.FirstOccurrenceIsMasked | apps/moderation/services.py:79 | The first occurrence becomes the mask, what stands before it stays, and the rest is masked in its turn |
| ScreeningRules.NothingToMask | apps/moderation/services.py:79 | A text without the term stays as it is |
| TextMasking.TextScreeningService.Screen | apps/moderation/services.py:56-105 | The whole verdict, the hit counts and the owner's trust |
| TextMasking.TextScreeningService.ScanTerms | apps/moderation/services.py:67-83 | The loop over terms: reasons, risk, clean text, blocking and hit counts |
| TextMasking.TextScreeningService.ScanPatterns | apps/moderation/services.py:85-90 | The loop over risk patterns |
| TextMasking.TextScreeningService.Penalise | apps/moderation/models.py:151-161 | Lowers the owner's score, not below 0, hiding the owner below 15, and touches nobody else |
| RateLimit.AtMostTwiceTheLimit | apps/security/services.py:44-61 | For any timed trace, with a limit and a window of its own for every key, no interval as long as a key's window holds more than twice its limit of allowed requests |
| RateLimit.TwiceTheLimitIsReached | apps/common/services.py:27-38 | And twice the limit is reached |
| RateLimit.CounterBoundsAllowed | apps/common/services.py:27-38 | How many requests the counter accounts for at each moment |
| RateLimit.WindowAccounts | apps/security/services.py:44-61 | A window lets through its first requests up to the limit and writes one breach row exactly if it trips |
| RateLimit.RateLimitService.Check | apps/security/services.py:44-61 | Allows, counts and records exactly as the trace says |
| RateLimit.RateLimitService.Incr | apps/common/services.py:27-38 | The counter with its window |
| Lockout.FailuresAreBounded | apps/authentication/services.py:155-203 | From any reachable account, without a success or reset, at most five failures are counted per started lockout period, sweeps included |
| Lockout.LocksPaceFailures | apps/authentication/services.py:196-203 | Each lock absorbs at most five failures, and the n-th cannot end before n full lockouts |
| Lockout.LockHolds | apps/authentication/backends.py:31-37 | While a lock runs no sign-in succeeds, no failure counts and nothing extends or lifts it short of a reset |
| Lockout.EveryRunIsCoherent | apps/accounts/tasks.py:40-44 | A lock is on record exactly while the counter is at the threshold |
| Lockout.SignInIsDecidedExactly | apps/authentication/services.py:155-193 | After any history: signed in exactly if the password is right, the account active and not banned and no lock runs; refused as banned, as locked or for the credentials each exactly; signing in clears counter and lock, a lock that ran out without a sweep included |
| Lockout.StandingIsTheLastGiven | apps/authentication/backends.py:31-37 | An account is banned and active as it was last said to be, whatever else happened |
| Lockout.SweepClearsExactlyWhatRanOut | apps/accounts/tasks.py:40-44 | A sweep clears exactly a lock that has run out, and a reset clears always |
| Lockout.FifthWrongPasswordLocksForFifteenMinutes | apps/authentication/services.py:196-203 | After four wrong passwords the right one gets in; after five it gets in exactly from fifteen minutes on, with no sweep |
| Lockout.LoginService.Authenticate | apps/authentication/services.py:155-193 | The outcome and the new counters of a sign-in |
| Lockout.LoginService.RegisterFailure | apps/authentication/services.py:196-203 | Counts and, at five, locks |
| Lockout.LoginService.UnlockExpired | apps/accounts/tasks.py:40-44 | The sweep clears exactly an expired lock |
| Lockout.LoginService.Reset | apps/authentication/services.py:359-372 | A password reset clears counter and lock |
| Totp.NothingIsAcceptedTwice | apps/authentication/services.py:301-322 | Over every history of an enrolment the accepted counters strictly increase and each recovery entry is accepted at most once |
| Totp.AcceptedCodesAreBounded | apps/authentication/totp.py:43-60 | An enrolment used during time steps s to e accepts at most e - s + 3 codes |
| Totp.GenuineCodeIsAccepted | apps/authentication/totp.py:43-60 | A genuine code within the window and not yet used is accepted |
| Totp.VerdictIsTheLeastFit | apps/authentication/totp.py:52-59 | The verdict is the least unused counter in the window whose code fits, or none |
| Totp.CodeHasSixDigits | apps/authentication/totp.py:26-32 | A code is six digits and is the truncated digest modulo a million |
| Totp.CodeReadsFourBytes | apps/authentication/totp.py:26-32 | A code prints the four bytes that start where the low half of the last byte points, without the top bit, modulo a million (section 5.3 of RFC 4226) |
| Totp.CodeOfTheExample | apps/authentication/totp.py:26-32 | The example of section 5.4 of RFC 4226 gives 872921 |
| Totp.SpacesAreIgnored | apps/authentication/totp.py:49 | A space may stand anywhere in a code, and blanks around it |
| Totp.SignInIsExact | apps/authentication/services.py:301-322 | A confirmed enrolment accepts exactly a code of a neighbouring step newer than the last one, taking the oldest such step, or else an unused recovery entry, marking the first; anything else is refused and changes nothing |
| Totp.EnrolmentIsExact | apps/authentication/services.py:276-298 | Confirming takes exactly such a code and stores only unused entries; renewing them needs a confirmed enrolment |
| Totp.MFAService.VerifyCode | apps/authentication/totp.py:43-60 | The early-return loop finds that verdict |
| Totp.MFAService.VerifyLogin | apps/authentication/services.py:301-322 | Accepts a code or an unused recovery entry, and marks it |
| Totp.MFAService.ConfirmEnrolment | apps/authentication/services.py:276-298 | Confirms on a valid code and issues recovery entries |
| Totp.MFAService.RegenerateRecoveryCodes | apps/authentication/services.py:334-341 | Replaces the recovery entries of a confirmed enrolment |
| Base32.SecretRoundTrip | apps/authentication/totp.py:21-28 | For every byte string, decoding the stripped and padded-again secret gives the bytes back |
| Base32.RepadUndoesStrip | apps/authentication/totp.py:27-28 | The padding added back is exactly the padding removed |
| Base32.DecodeEncoding | apps/authentication/totp.py:23 | Decoding undoes encoding, for every byte string (section 6 of RFC 4648) |
| Base32.SymbolsSpellTheBytes | apps/authentication/totp.py:23 | The symbols of whole five-byte groups, in base 32, spell the number that the bytes spell in base 256 |
| Engine.ClampIsIdle | apps/matching/engine.py:142-182 | With weights that share out 1 the total lies in 0 to 1 before the clamp, boosted or not, so the score is its rounding |
| Engine.DimensionsInUnit | apps/matching/engine.py:33-136 | Every dimension lies in 0 to 1 |
| Engine.ShippedWeightsAreShares | config/settings/base.py:290-297 | The shipped weights are non-negative and sum to 1 |
| Engine.BoostIsBounded | apps/matching/engine.py:169-182 | A boost adds between 0 and 8 points |
| Engine.BoostKeepsOrder | apps/matching/engine.py:169-182 | Boosting two candidates alike never reverses their scores, and neither does taking both boosts away |
| Engine.WiderNeverScoresLower | apps/matching/engine.py:33-47 | From a kilometre up, a larger radius never lowers a score |
| Engine.ZeroRadiusScoresHigherExactlyWhenFar | apps/matching/engine.py:42-43 | A radius of 0 scores the distance dimension higher than a real radius does exactly for candidates beyond 0.2500500025 of that radius |
| Engine.RealRadiusLowersTotalExactlyWhenFar | apps/matching/engine.py:142-182 | Under any weights that count distance, the total drops from a radius of 0 to a real one exactly for those candidates, unless a boost keeps them at the cap |
| Engine.RealRadiusLowersScore | apps/matching/engine.py:142-182 | With the shipped weights the score itself drops for every candidate beyond the real radius |
| Engine.ARadiusOfZeroScoresMore | apps/matching/engine.py:42-43 | A candidate 500 kilometres away scores 61 with a stored radius of 0 and 48 with one of 100 |
| Engine.WiderFiltersAcceptMore | apps/matching/engine.py:195-224 | A larger radius keeps every candidate accepted and changes a verdict only from "too far" to accepted |
| Eligibility.RefusedExactlyForTheFirstUnmetWish | apps/matching/engine.py:195-224 | A candidate passes exactly if visible, of a wanted gender or none is named, of unknown or wanted age, with photos and verification where demanded, and within the radius unless global or at unknown distance; otherwise the reason is the earliest of these that fails |
| Engine.AgeInUnit | apps/matching/engine.py:50-60 | The age dimension lies in 0 to 1, and within the wanted range at 0.75 or above |
| ScoringRules.BetterNeverScoresLower | apps/matching/engine.py:142-182 | A candidate at least as good in every dimension, in education and in boosting never scores lower |
| ScoringRules.NearerScoresHigher | apps/matching/engine.py:33-47 | Nearer never scores lower: one on the spot, a half at a quarter of the radius, nothing from the radius on; unknown is neutral |
| ScoringRules.NearTheMiddleScoresHigher | apps/matching/engine.py:53-57 | Within the age range, nearer to its middle never scores lower |
| ScoringRules.TheMiddleScoresOne | apps/matching/engine.py:53-57 | The middle of the range scores one |
| ScoringRules.EdgeOfTheBand | apps/matching/engine.py:53-57 | The edges of a range of two years or more score three quarters |
| ScoringRules.YearsOutsideCostATenth | apps/matching/engine.py:58-60 | Outside it a tenth is lost each year, down to nothing at five |
| ScoringRules.InterestsAreMutual | apps/matching/engine.py:63-73 | The overlap of interests is the same from either side |
| ScoringRules.InterestExtremes | apps/matching/engine.py:63-73 | The same interests score one, different ones nothing, none on one side 0.3 |
| ScoringRules.MoreInCommonScoresHigher | apps/matching/engine.py:63-73 | Of two candidates with as many interests in all, the one who shares more never scores lower |
| ScoringRules.LifestyleExtremes | apps/matching/engine.py:76-108 | All wishes met score one; all open, or none expressed, a half |
| ScoringRules.AnswersInOrder | apps/matching/engine.py:83-97 | How much neighbouring, distant and unknown answers are worth |
| ScoringRules.BackgroundCounts | apps/matching/engine.py:99-107 | A named religion or language counts in full exactly if it is shared, letter case aside |
| ScoringRules.GoalsInOrder | apps/matching/engine.py:111-121 | Wanted, unsure, unnamed and other goals in their order |
| ScoringRules.ActivityRewards | apps/matching/engine.py:124-129 | A fuller, better photographed, more recently seen profile never scores lower, and photos beyond the third add nothing |
| ScoringRules.EachDimensionIsWorthItsShare | apps/matching/engine.py:142-182 | A dimension that rises from nothing to one adds exactly its weight |
| ScoringRules.EducationIsAModifier | apps/matching/engine.py:132-136 | Education moves the total by at most eight hundredths, up exactly for a wanted level |
| ScoringRules.HalvesGoToEven | apps/matching/engine.py:182 | A half is rounded to the even neighbour, anything else to the nearer one |
| Engine.AccumulateLifestyle | apps/matching/engine.py:76-108 | The accumulating loop computes the lifestyle dimension |
| Rounding.RoundShifts | apps/matching/engine.py:182 | Rounding commutes with even shifts, halves to even included |
| Ranking.RankCandidates | apps/matching/services.py:69-138 | The loop, the tally and the sort give the ranking; considered is passed plus the tallies |
| Eligibility.PassersAreExactlyTheEligible | apps/matching/services.py:82-113 | The passers are exactly the candidates listed, other than the seeker, with payload and account who pass those filters |
| Eligibility.RankedAreExactlyTheEligible | apps/matching/services.py:82-126 | Every row returned is such a candidate as the engine scores them, and with room for all every such candidate is returned |
| Eligibility.TallyCountsTheRefused | apps/matching/services.py:82-113 | The tally of a reason is the number of candidates refused for it |
| Ranking.NoOmittedPasserOutranks | apps/matching/services.py:124-126 | The best passers up to the limit come back in order, and no passer left out outranks one that is in |
| Ranking.SortedIsStable | apps/matching/services.py:125 | Sorting is descending, loses and adds nothing and keeps ties in input order |
| Ranking.DescendingLevelsDetermine | apps/matching/services.py:125 | Only one list is descending and keeps every level, so the sort is fully determined |
| Ranking.BoostedRowsComeFirst | apps/matching/services.py:124-125 | In the sorted list a boosted passer precedes every passer that is not boosted, whatever their scores |
| Displacement.SortedByPlace | apps/matching/services.py:125 | Sorting puts every passer behind exactly those that outrank it or tie with it and were considered earlier |
| Displacement.PlacesFollowTheOrder | apps/matching/services.py:125 | Who comes before another has the lower place, so no two passers share one |
| Displacement.PlaceTaken | apps/matching/services.py:125 | Every place is some passer's |
| Displacement.ReturnedExactlyWithinTheLimit | apps/matching/services.py:125-126 | A passer is returned exactly if fewer passers than the limit come before it |
| Displacement.UnboostedReturnedExactlyIfRoom | apps/matching/services.py:124-126 | An unboosted passer is returned exactly if the boosted passers and the unboosted ones ahead of it are together fewer than the limit |
| Displacement.DisplacedExactlyByBoost | apps/matching/services.py:124-126 | A passer is dropped while a lower-scored one is returned exactly if its place is past the limit and a boosted passer with a lower score is among the first of the boosted |
| Displacement.ABoostedCandidateTakesTheOnlyPlace | apps/matching/services.py:124-126 | Two candidates scoring 61 and, boosted, 53: with room for one only the second comes back |
| Ranking.EveryCandidateIsAccountedFor | apps/matching/services.py:82-113 | Every candidate passes or is refused for exactly one reason |
| Ranking.WiderKeepsPassers | apps/matching/services.py:82-113 | Every passer still passes within a larger radius |
| Ranking.WiderRanksNoFewer | apps/discovery/services.py:58-66 | A larger radius ranks no fewer rows |
| Ranking.StepsNeverShrink | apps/discovery/services.py:58-68 | Nor does any later widening step |
| Eligibility.WideningTriesFourRadii | apps/discovery/services.py:56-62 | The radii tried are the member's own and 3, 10 and 100 times it, or times 100 where none is stored |
| Ranking.RankWidening | apps/discovery/services.py:54-68 | Widening returns no fewer rows than the strict pass, stops at the first radius with ten, and otherwise has as many as the widest; every radius before the one used had fewer than ten and fewer rows |
| Ranking.Hydrate | apps/discovery/services.py:70-77 | One card for each row that can be shown, in rank order, marked outside the range exactly if widened and farther than the member's own distance |
| Gallery.EveryGalleryIsOk | apps/profiles/services.py:148-264 | Over every run of uploads, deletions, primary choices, verdicts and reorderings in which the photos named swap places, as full ones do, a gallery has at most nine photos at positions 0 to n - 1, one primary if any, and a true count of approved photos |
| Gallery.StepKeepsOk | apps/profiles/services.py:148-264 | So does each single step |
| Gallery.ReorderIsCompactExactlyIfPlacesAreSwapped | apps/profiles/services.py:224-231 | For any list, repeats and unknown ids included, positions stay gapless exactly if the last indexes of the live photos named are the positions those photos had |
| Gallery.PlacedAt | apps/profiles/services.py:224-231 | Every photo named ends at the last index that names it, and nothing else about any photo changes |
| Gallery.ReorderIsCompactExactlyOnPrefixes | apps/profiles/services.py:224-231 | For live photos named once each that means: exactly if they are the first ones |
| Gallery.PartialReorderCollides | apps/profiles/services.py:224-231 | With two photos, naming the second alone collides, naming the first twice and then the second leaves a gap, and an unknown id before the second changes nothing |
| Gallery.FullReorderKeepsShape | apps/profiles/services.py:224-231 | Naming every photo once is such a reordering, keeps the gallery's shape and puts each where named |
| Gallery.UploadStaysCompact | apps/profiles/services.py:151-185 | A new photo goes to the end |
| Gallery.UploadKeepsOnePrimary | apps/profiles/services.py:151-185 | One primary remains |
| Gallery.DeleteKeepsShape | apps/profiles/services.py:188-207 | Deleting closes the gap and passes the primary flag on |
| GalleryRules.UploadingIsExact | apps/profiles/services.py:151-185 | A tenth photo is refused; a new one waits for review at the end and is primary exactly if first or asked to be, and no other photo changes but for that flag |
| GalleryRules.DeletingIsExact | apps/profiles/services.py:188-207 | The photos left keep status and order and close the gap; the primary flag passes to the first exactly if the primary photo went; the count goes down exactly for an approved one |
| GalleryRules.ChoosingIsExact | apps/profiles/services.py:210-221 | Only an approved photo becomes primary, and then it alone is |
| GalleryRules.ModeratingIsExact | apps/profiles/services.py:234-250 | Approval makes the photo approved and refusal rejected, the count follows, and no other photo changes |
| Gallery.PhotoService.UploadPhoto | apps/profiles/services.py:151-185 | Same outcome and gallery as the step |
| Gallery.PhotoService.DeletePhoto | apps/profiles/services.py:188-207 | Same outcome and gallery as the step |
| Gallery.PhotoService.Reindex | apps/profiles/services.py:197-202 | The loop leaves the photos at their places in the list and changes nothing else |
| Gallery.PhotoService.SetPrimaryPhoto | apps/profiles/services.py:210-221 | Same outcome and gallery as the step |
| Gallery.PhotoService.ReorderPhotos | apps/profiles/services.py:224-231 | Same gallery as the step |
| Gallery.PhotoService.ApplyModeration | apps/profiles/services.py:234-250 | Same outcome and gallery as the step |
| Gallery.PhotoService.SyncProfile | apps/profiles/services.py:253-264 | The count of approved photos is brought up to date |

## Left out

- Views, serializers, forms, URL routing, templates, Celery and WebSocket delivery, mail and push, HTTP calls between
  services, social login: plumbing around the modelled calls.
- The analytics, audit, recommendation, onboarding and notification modules, admin edits, hard account deletion and the
  purges it triggers, sign-up: bookkeeping; members are taken to exist, and activation is a step.
- RelationshipPlatform.Platform.Report: does not model the existence and once-a-day checks, the penalty, the moderation
  case or the automatic suspension, which are other modules' tables; a suspension is a ban step.
- PaymentPlatform.Platform.StartSubscription: does not model trial starts or case-insensitive coupon codes, because no
  paid start uses a trial and codes are taken as already normalised.
- SubscriptionRules.CreatingIsExact: does not model the currency and phone checks or a charge that the provider rejects at
  once: both leave no row, and what an adapter accepts is the adapter's.
- Gallery.PhotoService.SyncProfile: does not model the link to the primary photo or the completion score, which other
  modules project further.
- Database races and cache eviction before expiry: a call is one step, and a cache loses entries only by expiry or
  deletion.
- The bodies of payment provider adapters, SHA-1 and SHA-256, the haversine formula and square root: parameters; the
  square root is specified by its square.
- Regular-expression terms and the fixed risk patterns: terms are literal, and which patterns hit is a parameter. Case
  folding is a character function of which only the star is assumed to fold alone.
- The cached list of banned terms, which can be stale for its lifetime.
- Message kinds, attachments, reactions, deletion of single messages and its purge, archive and mute flags, typing markers; a match's
  own message count and last activity.
- The left-conversation marker, which nothing modelled ever sets.
- The text attached to a super like, the score stored with a swipe, match origin and timestamps other than creation
  order.
- Named feeds other than the main one, search, and card fields beyond those listed; ranking is modelled by itself and is
  an arbitrary order inside `BuildFeed`.
- Webhook event rows and their replay, refund rows, fees and net amounts, boosts and entitlement caches.
- Refund totals under repeated external refunds: the provider's report is applied as given.
- The login throttle, lookup by several identifiers, multi-factor deletion and non-ASCII digits in codes.
- Resetting a rate-limit counter by hand and the deduplication of anomaly rows.
