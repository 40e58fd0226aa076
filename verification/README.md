# Verified model of the home-services backend

The backend is a NestJS application over TypeORM. This project models the parts of it that are
state machines, in the form the services have them, and proves what holds over every run of them.

Each stateful service appears twice. A class (`BookingsService`, `AuthService`, `ChatGateway`,
`PaymentsService` and the cache users in `CacheComponents`) has the handlers step by step, over
maps and sequences that stand for the repositories, and every handler is proved to do what one step
of a specification function does. That function is described twice more: request by request, in terms
of stored fields, amounts and milliseconds (`BookingRequests`, `AuthRequests` and the lemmas ending in
`Does`), and by theorems about all of its runs. The pure
parts (pagination, error flattening, string normalisers) are functions with lemmas; the error
formatter, which fills a dictionary in loops, is a method.

- **Bookings** (`BookingModel`, `BookingRequests`, `BookingHistory`, `BookingLedger`,
  `BookingProgress`, `BookingsService`). A request is planned as the list of saves it will make; storage accepts a
  prefix of that list, because any awaited save can fail and end the request. Theorems about
  interrupted runs quantify over all prefixes, those about uninterrupted runs require that every
  request has room for its three saves. Decimal columns either keep numbers exactly or round to
  cents, and the ledger theorem covers both: with rounding it bounds the drift by half a cent for
  each completion. `markEnRoute` and `markArrived` look at no status, so no status is final; all
  statements are about histories, not about final statuses.
- **Rate limiter and caches** (`TtlStore`, `RateLimit`, `ResponseCache`, `CacheRuns`,
  `CacheComponents`). One store with expiry serves the limiter, the response interceptor and the
  cache service, and runs interleave requests to all three, with responses and computed values that
  reach the store only later. Whether an item is readable at the very instant it expires depends
  on the configured store, so everything is proved for both answers.
- **Authentication** (`AuthModel`, `AuthRequests`, `AuthTheorems`, `AuthService`). Issue, resend, newest-first
  lookup, expiry, consumption and the login gate, together with the requests of the user and admin
  services that write a user's status. Any save can fail here too.
- **Chat presence** (`ChatRegistry`, `ChatGateway`). Two maps under connections and disconnections
  in any order.
- **Payments** (`Wallets`, `PaymentsService`). Webhooks, duplicated or interrupted ones included,
  against wallet balances.
- **Pure parts** (`Pagination`, `ErrorTree`, `Normalizers`), with `Basics`, `Sequences`, `Money` and
  `Options` underneath.

Findings about the code, each stated by a lemma:

- A completed booking can be marked en route or arrived and then be completed, or cancelled and
  refunded, again. The number of forward steps is bounded only by the number of marks, and
  `BookingProgress.BoundIsReached` shows that the bound is attained.
- `update` never changes the price, provider or appointment of a booking: the fields a client may
  send do not include `scheduledAt`, so a changed date or time does not move the appointment
  (`BookingLedger.RunKeepsTerms`).
- `attemptCount` is never incremented, so the limit on OTP attempts refuses nobody
  (`AuthTheorems.AttemptsAreNeverCounted`).
- A suspended or banned user is let in again once an OTP for the phone is verified, because
  `verifyOtp` makes every user active (`AuthTheorems.BannedUserReturns`), as after being activated or
  unbanned (`AuthTheorems.UnbannedUserReturns`). Whichever wrote the status last decides
  (`AuthTheorems.StatusIsLastWritten`, `AuthTheorems.LoginExactly`).
- A user stays online on a socket that closed while its token was being verified
  (`ChatRegistry.LateRegistrationStaysOnline`); `ChatRegistry.PresenceIsSound` and
  `ChatRegistry.LateMeansClosedFirst` say exactly when.
- A user with an open socket disappears when the old socket's event comes after a reconnection
  (`ChatRegistry.LaterDisconnectHidesUser`), or when looking up the old socket throws, since the
  new one is then turned away and takes the user along (`ChatRegistry.FailedLookupHidesUser`). In
  general a user is online exactly when the last event about the user was a registration
  (`ChatRegistry.OnlineFollowsLastEvent`, `ChatRegistry.HiddenExactlyAfterLeaving`).
- The limiter is stricter than its window: every accept renews the count, so requests that follow
  one another more closely than the ttl are blocked after `limit` of them, however long they take
  together (`RateLimit.TrickleIsBlocked`, with an example in `RateLimit.RefusedBelowTheLimit`). The
  exact condition for a refusal is in `RateLimit.QuietTtlReopens`.
- A repeated `payment_paid` event credits the wallet again, and a `payment_failed` event takes
  nothing back (`Wallets.SecondWebhookBreaksAgreement`). Balances agree with the completed top-ups
  exactly when no webhook matches a payment after it was credited (`Wallets.CompletedTopUps`). A
  webhook that stops between its two saves completes a payment without crediting it
  (`Wallets.HaltedIsMissing`).
- Two validation errors can share a key when a property name contains a dot
  (`ErrorTree.DottedNamesCollide`). Messages are lost exactly when two that share a key differ
  (`ErrorTree.LostExactlyOnDisagreement`).

## Model

| member | source | states |
|---|---|---|
| BookingModel.StepHasEffect | src/modules/bookings/bookings.service.ts:40-424 | Every request, interrupted anywhere, either changes nothing, changes client fields of a pending booking, or saves one legal status followed by at most its timeline entry and, on completion, the provider credit; row keys, stored amounts and provider ids stay well-formed |
| BookingModel.SavedCallAssigns | src/modules/bookings/bookings.service.ts:180-424 | A request that is not refused and gets its first save through assigns its status |
| BookingHistory.HistoryOfRun | src/modules/bookings/bookings.service.ts:64-86 | From an empty database and on a non-decreasing clock, every booking is saved along a chain of legal changes that opens as PENDING and whose last row is the stored one |
| BookingHistory.GrammarIsEdgePath | src/modules/bookings/bookings.service.ts:192-201 | The positional grammar of statuses and the pairwise transition table accept the same lists |
| BookingHistory.SavedStatusesFollowGrammar | src/modules/bookings/bookings.service.ts:180-424 | In every run, on any clock and however requests are interrupted, saved statuses follow the grammar: PENDING only first, CONFIRMED or REJECTED only second, COMPLETED after IN_PROGRESS after PROVIDER_ARRIVED, CANCELLED not after COMPLETED or CANCELLED, no other status; the booking has the last one |
| BookingHistory.TimelineIsSubsequence | src/modules/bookings/bookings.service.ts:590-604 | However requests are interrupted, a booking's timeline is its saved status history with some statuses left out |
| BookingHistory.TimelineIsHistory | src/modules/bookings/bookings.service.ts:590-604 | Without interruptions the timeline is the saved status history |
| BookingHistory.TimelineFollowsGrammar | src/modules/bookings/bookings.service.ts:506-514 | Without interruptions, on any clock, every timeline follows the grammar and ends with the status of its booking |
| BookingHistory.GrammarIsRealised | src/modules/bookings/bookings.service.ts:180-424 | Every list of statuses in the grammar is the timeline of some uninterrupted run on a non-decreasing clock |
| BookingHistory.InstantsAreOrdered | src/modules/bookings/bookings.service.ts:310-349 | In IN_PROGRESS and COMPLETED, arrivedAt is not after startedAt, and startedAt not after completedAt |
| BookingHistory.RefundsNeverGrow | src/modules/bookings/bookings.service.ts:197-206 | Every refund written lies in 0..totalAmount, and cancelling a booking again never refunds more than before |
| BookingHistory.RefundShrinks | src/modules/bookings/bookings.service.ts:606-617 | The refund lies in 0..totalAmount and does not grow as the appointment gets closer |
| BookingRequests.EveryRefundIsBracketed | src/modules/bookings/bookings.service.ts:197-206 | In every run, on any clock and however requests are interrupted, a row saved as CANCELLED four hours or more before the appointment carries the whole price as refund, two hours or more half of it, and else nothing; and the refund is pending exactly from two hours on |
| BookingRequests.RefundBrackets | src/modules/bookings/bookings.service.ts:606-617 | The same brackets, in milliseconds, for any booking and instant |
| BookingRequests.TimelineNamesParties | src/modules/bookings/bookings.service.ts:590-604 | In every run a timeline entry names the customer who opened the booking, and for all statuses but CANCELLED after that the user behind its provider |
| BookingHistory.ChainKeepsTerms | src/modules/bookings/bookings.service.ts:160-178 | Along a booking's history its price, provider, customer and appointment are constant and the clock never goes back |
| BookingLedger.RunKeepsTerms | src/modules/bookings/bookings.service.ts:160-178 | Price, provider, customer and appointment of every booking and every provider's commission rate survive every run |
| BookingLedger.LedgerConservation | src/modules/bookings/bookings.service.ts:346-363 | Over every uninterrupted run a provider's two counts grow by the COMPLETED entries appended on that provider's bookings, and pending earnings by the sum over those entries of `totalAmount * (100 - commissionRate) / 100`, within half a cent for each entry when the column rounds |
| BookingLedger.LedgerIsExact | src/modules/bookings/bookings.service.ts:358-363 | With exact arithmetic the pending earnings grow by exactly that sum over the stored prices and rate |
| Money.KeepIsClose | src/database/entities/provider.entity.ts:111-112 | Saving to a two-decimal column moves an amount by at most half a cent |
| Money.KeepIsIdempotent | src/database/entities/booking.entity.ts:118-119 | An amount read back and saved again does not change |
| Money.RoundsToNearestCent | src/database/entities/provider.entity.ts:111-112 | A two-decimal column takes the nearest cent and sends halves away from zero |
| BookingLedger.ShareAndCommission | src/modules/bookings/bookings.service.ts:359-360 | The commission is `commissionRate` per cent of the price and the share the rest; both are non-negative exactly for a rate in 0..100 or a price of nothing |
| BookingLedger.AbortOrdering | src/modules/bookings/bookings.service.ts:314-363 | However requests are interrupted, for every set of bookings: credits ≤ COMPLETED entries ≤ saves as COMPLETED ≤ saves as IN_PROGRESS |
| BookingLedger.AbortAccounting | src/modules/bookings/bookings.service.ts:314-363 | The differences, exactly: saved statuses without an entry are the requests stopped after their first save, COMPLETED entries without a credit the completions stopped after their second, and bookings set in progress but not completed are still in progress or were taken out of it by another request |
| BookingLedger.CountersNeverRunAhead | src/modules/bookings/bookings.service.ts:346-363 | However requests are interrupted, a provider's three fields move together, once for each credit, never ahead of the timeline, and short of it by exactly the completions stopped before their credit |
| BookingProgress.ProgressIsBounded | src/modules/bookings/bookings.service.ts:371-424 | For one booking, accept, reject, start, complete and cancel requests that take effect number at most its potential (2 when new) plus 2 for each arrival and 1 for each departure |
| BookingProgress.BoundIsReached | src/modules/bookings/bookings.service.ts:371-424 | That bound is attained for every booking, whatever its status and also before it is made, with any numbers of arrivals and departures, by an uninterrupted run on a non-decreasing clock |
| BookingsService.BookingsService.CreateBooking | src/modules/bookings/bookings.service.ts:40-92 | The handler does the planned saves for a new PENDING booking, or is refused, as the specification step says |
| BookingsService.BookingsService.UpdateBooking | src/modules/bookings/bookings.service.ts:160-178 | The handler changes client fields of the customer's own pending booking and nothing else |
| BookingsService.BookingsService.CancelBooking | src/modules/bookings/bookings.service.ts:180-225 | The handler cancels, computes and returns the refund, and is refused for strangers and for completed or cancelled bookings |
| BookingsService.BookingsService.AcceptBooking | src/modules/bookings/bookings.service.ts:228-260 | The handler confirms a pending booking of the caller |
| BookingsService.BookingsService.RejectBooking | src/modules/bookings/bookings.service.ts:262-294 | The handler rejects a pending booking of the caller |
| BookingsService.BookingsService.StartService | src/modules/bookings/bookings.service.ts:296-326 | The handler starts a booking whose provider has arrived |
| BookingsService.BookingsService.CompleteBooking | src/modules/bookings/bookings.service.ts:328-369 | The handler completes a booking in progress and then credits the provider, save by save |
| BookingsService.BookingsService.CalculateRefund | src/modules/bookings/bookings.service.ts:197-199 | The refund is the percentage of the price that the time left gives |
| BookingsService.BookingsService.CreditProvider | src/modules/bookings/bookings.service.ts:358-363 | The provider's share is added to the pending earnings, one booking to each count, and no other provider changes |
| BookingsService.BookingsService.MarkBookingEnRoute | src/modules/bookings/bookings.service.ts:371-396 | The handler sets PROVIDER_EN_ROUTE whatever the status was |
| BookingsService.BookingsService.MarkBookingArrived | src/modules/bookings/bookings.service.ts:398-424 | The handler sets PROVIDER_ARRIVED and arrivedAt whatever the status was |
| BookingsService.BookingsService.CreateTimelineEntry | src/modules/bookings/bookings.service.ts:590-604 | One entry is appended and nothing else changes |
| BookingRequests.CreateDoes | src/modules/bookings/bookings.service.ts:40-92 | A request for an active service saves a pending booking of the customer with the service's provider, at the service's price and 15 per cent, and its entry; it is refused in exactly the other cases |
| BookingRequests.UpdateDoes | src/modules/bookings/bookings.service.ts:160-178 | A pending booking's own customer sets the fields sent to the values sent, and no others; anybody else is refused |
| BookingRequests.CancelDoes | src/modules/bookings/bookings.service.ts:180-225 | A booking neither completed nor cancelled is cancelled for its customer or a non-customer, with reason, instant, author and the refund of its bracket stored and answered; all others are refused, by what failed first |
| BookingRequests.AcceptDoes | src/modules/bookings/bookings.service.ts:228-260 | The provider of a pending booking confirms it now, with that entry; all others are refused |
| BookingRequests.RejectDoes | src/modules/bookings/bookings.service.ts:262-294 | The provider of a pending booking rejects it with the reason |
| BookingRequests.StartDoes | src/modules/bookings/bookings.service.ts:296-326 | The provider of a booking at PROVIDER_ARRIVED starts it now |
| BookingRequests.EnRouteDoes | src/modules/bookings/bookings.service.ts:371-396 | The provider of a booking at any status sets it en route |
| BookingRequests.ArriveDoes | src/modules/bookings/bookings.service.ts:398-424 | The provider of a booking at any status sets it arrived now |
| BookingRequests.CompleteDoes | src/modules/bookings/bookings.service.ts:328-369 | The provider of a booking in progress completes it now with the notes and earns, of the price, what the commission rate leaves of a hundred per cent |
| RateLimit.AdmittedIffStreakBelowLimit | src/common/guards/rate-limit.guard.ts:60-77 | The stored count is the number of latest accepts not yet lapsed, and a request is admitted exactly while it is below the limit |
| RateLimit.SlidingWindow | src/common/guards/rate-limit.guard.ts:60-77 | Under one key with one limit and ttl, any limit + 1 consecutive accepted requests span at least ttl seconds |
| RateLimit.WindowHoldsAtMostLimit | src/common/guards/rate-limit.guard.ts:15-19 | Every half-open window of one ttl holds at most limit accepted requests |
| RateLimit.QuietTtlReopens | src/common/guards/rate-limit.guard.ts:63-75 | Rejections do not extend the block: once the ttl has passed since the last accept, a request is accepted |
| RateLimit.TrickleIsBlocked | src/common/guards/rate-limit.guard.ts:66-75 | After at least `limit` accepts of a run, each less than a ttl after the one before, a request less than a ttl after the last is refused, because every accept renews the lifetime of the count |
| RateLimit.RefusedBelowTheLimit | src/common/guards/rate-limit.guard.ts:66-75 | A run in which a request is refused although fewer than `limit` were accepted in the ttl before it |
| CacheRuns.LimiterBesideCache | src/common/guards/rate-limit.guard.ts:56-58 | In runs of limited requests, cached responses and cache service calls over one store, the window bound holds for every identifier and URL, if the cache service keeps off its key and does not reset the store |
| CacheComponents.RateLimitGuard.CanActivate | src/common/guards/rate-limit.guard.ts:46-78 | The guard admits or rejects, and writes the count, as the step of a limited request says; without options it touches nothing |
| ResponseCache.KeysAreApart | src/common/interceptors/cache.interceptor.ts:88-101 | A rate-limit key is never a response key |
| ResponseCache.SameKeyExactly | src/common/interceptors/cache.interceptor.ts:88-101 | For user ids without a colon, two responses share a key exactly when they have the same custom key or, without one, the same user (none counting as anonymous) and URL |
| ResponseCache.SameRateKeyExactly | src/common/guards/rate-limit.guard.ts:56-58 | For identifiers without a slash and URLs that start with one, two requests share a counter exactly when identifier and URL agree |
| CacheComponents.RateLimitGuard.SameIdentifierExactly | src/common/guards/rate-limit.guard.ts:84-98 | Two requests have one identifier exactly when they are by the same user, or by no user and from the same address, the first given of the two headers and the connection's |
| CacheRuns.FirstRequestIsAdmitted | src/common/guards/rate-limit.guard.ts:60-77 | Whatever others request, the first request of an identifier for a URL is admitted |
| CacheRuns.BoundedStaleness | src/common/interceptors/cache.interceptor.ts:55-83 | In any run of requests through the interceptor, the limiter and the cache service, every GET is answered with what the handler said to it or to an earlier GET with its key, at most that route's ttl, by default a minute, plus the time a response takes to be stored, before; if user ids contain no colon, that GET had the same custom key or, without one, the same user and URL |
| CacheRuns.HitUntilExpiry | src/common/interceptors/cache.interceptor.ts:69-82 | A stored response that is not falsy answers the same reader's GETs, without the handler, until its ttl has passed or something else is stored or deleted under its key |
| CacheRuns.AskedAgain | src/common/interceptors/cache.interceptor.ts:58-61 | Requests other than GET are left to the handler and change nothing; so are GETs with a falsy, deleted or reset item, whose response will then be stored |
| CacheComponents.CacheInterceptor.Intercept | src/common/interceptors/cache.interceptor.ts:55-83 | A GET is served from the cache when a truthy response is alive there, else by the handler, and its response is then outstanding; other methods bypass the store |
| CacheComponents.CacheInterceptor.Tap | src/common/interceptors/cache.interceptor.ts:78-82 | An outstanding response is stored under its request's key for the route's ttl, a minute by default |
| CacheRuns.CacheAsideIsTransparent | src/shared/services/cache.service.ts:74-89 | If every factory and every `set` for a key gives one value and nobody else stores under it, each `getOrSet` of any run returns that value, however values reach the store late and whatever is deleted, reset or expires |
| CacheRuns.ValueUntilExpiry | src/shared/services/cache.service.ts:26-32 | A value other than null that was stored by `set` or `getOrSet` is returned without the factory until its ttl in seconds, or the store's default, has passed or something else is stored or deleted under its key |
| CacheRuns.MadeAgain | src/shared/services/cache.service.ts:74-89 | After a delete of its key or a reset, `getOrSet` returns what its factory makes |
| CacheComponents.CacheService.GetOrSet | src/shared/services/cache.service.ts:74-89 | The method returns the cached value unless it is missing or null, else makes one and stores it: an asking step and a finishing step of a run |
| CacheComponents.CacheService.Delete | src/shared/services/cache.service.ts:37-39 | The item under the key is removed and nothing else changes |
| CacheComponents.CacheService.Reset | src/shared/services/cache.service.ts:59-61 | The store is emptied; values on their way to it are not affected |
| CacheComponents.CacheService.Set | src/shared/services/cache.service.ts:26-32 | A ttl in seconds is stored in milliseconds; none, or 0, means the default of the store |
| AuthModel.NewestIsNewest | src/modules/auth/auth.service.ts:92-102 | No selected row was created after the one taken, and none is taken only when nothing is selected |
| AuthTheorems.AttemptsAreNeverCounted | src/modules/auth/auth.service.ts:113-118 | In every run attemptCount stays 0, isBlocked stays false, lifetimes stay ten minutes, and the attempt limit refuses nobody |
| AuthTheorems.NewestSuffices | src/modules/auth/auth.service.ts:92-111 | Any newest selected row is alive exactly when some selected row is |
| AuthTheorems.LookupIsComplete | src/modules/auth/auth.service.ts:92-123 | After every run, verifying accepts a code exactly when some unused row for that phone, code and purpose is unexpired, and resetting when such a row for `FORGOT_PASSWORD` is; a row is used up if the first save is accepted |
| AuthTheorems.OneTimeUse | src/modules/auth/auth.service.ts:120-123 | Different successful verifications and resets use up different rows of the same phone, code and purpose, each no later than its expiry |
| AuthTheorems.EachConsumptionHasItsRow | src/modules/auth/auth.service.ts:252-273 | A row used up in a run stays marked with the instant of its use to the end of the run |
| AuthTheorems.LoginNeedsVerification | src/modules/auth/auth.service.ts:183-205 | Nobody unverified at the start of a run logs in before an OTP for their phone was used up by verifyOtp |
| AuthTheorems.VerifiedNeverRunsAhead | src/modules/auth/auth.service.ts:120-136 | However requests are interrupted, the rows used up are exactly as many as the requests that used one up, successful verifications are among these, and no more users become verified than there were successful verifications |
| AuthTheorems.StatusIsLastWritten | src/modules/users/users.service.ts:156-188 | In every run a user's status is the one written last, by a successful `verifyOtp` or by suspending, activating, banning or unbanning, and stays what it was if none wrote it |
| AuthTheorems.LoginExactly | src/modules/auth/auth.service.ts:183-214 | After every run a user is let in exactly with the password written last, if the phone was verified before or in the run and the status written last is neither suspended nor banned |
| AuthTheorems.BarredUntilStatusIsWritten | src/modules/auth/auth.service.ts:207-214 | A user suspended or banned at the start of a run is let in after it only if the run wrote another status |
| AuthTheorems.BannedUserReturns | src/modules/auth/auth.service.ts:129-136 | A banned user who asks for an OTP, with none younger than two minutes, and verifies it in time can log in |
| AuthTheorems.UnbannedUserReturns | src/modules/admin/admin.service.ts:196-201 | A verified user who is unbanned can log in without any OTP |
| AuthTheorems.RegistrationLeadsToLogin | src/modules/auth/auth.service.ts:40-229 | Who registers and verifies the code within ten minutes can log in with the registered password |
| AuthTheorems.ResetChangesPassword | src/modules/auth/auth.service.ts:275-283 | After a reset, login succeeds exactly with the new password, for a verified user neither suspended nor banned |
| AuthRequests.ForgottenPasswordIsReplaced | src/modules/auth/auth.service.ts:231-288 | After any run, a verified user who is not barred, asks for a code, sets a new password with it within ten minutes and logs in with that gets through all three |
| AuthRequests.OtherPurposeSetsNoPassword | src/modules/auth/auth.service.ts:256-264 | After any run, a code that was issued only for other purposes than `FORGOT_PASSWORD` sets no password |
| AuthTheorems.ResendSpacing | src/modules/auth/auth.service.ts:157-175 | In every run an OTP made by resendOtp is at least two minutes younger than every earlier OTP for the same phone and purpose |
| AuthTheorems.ResendWindow | src/modules/auth/auth.service.ts:164-173 | A window of w milliseconds holds at most w / 120000 + 1 resent OTPs for a phone and purpose |
| AuthService.AuthService.RegisterUser | src/modules/auth/auth.service.ts:40-87 | The request registers an unverified user with a wallet and an OTP, or finds the phone or email taken |
| AuthService.AuthService.VerifyCode | src/modules/auth/auth.service.ts:89-146 | The request uses up the newest matching OTP, then verifies the user if there is one |
| AuthService.AuthService.Resend | src/modules/auth/auth.service.ts:148-181 | The request issues an OTP unless one for the pair is younger than two minutes |
| AuthService.AuthService.LogIn | src/modules/auth/auth.service.ts:183-229 | The request logs in a verified user who is neither suspended nor banned, and sets the login count to 1, because it is not among the selected columns |
| AuthService.AuthService.Forgot | src/modules/auth/auth.service.ts:231-250 | The request issues an OTP for a known phone and answers unknown ones without one |
| AuthService.AuthService.Reset | src/modules/auth/auth.service.ts:252-288 | The request uses up the newest matching OTP, then changes the password if there is a user |
| AuthService.AuthService.ChangeUserPassword | src/modules/auth/auth.service.ts:322-348 | The request changes the password of a user who knows the current one |
| AuthService.AuthService.WriteStatus | src/modules/users/users.service.ts:156-188 | Suspending, activating, banning and unbanning write their status to a user there is, and nothing else |
| AuthService.AuthService.GenerateAndSendOtp | src/modules/auth/auth.service.ts:398-414 | One unused row is appended that expires ten minutes after it was created |
| AuthRequests.RegisterDoes | src/modules/auth/auth.service.ts:40-87 | An unknown phone and email register an unverified user pending verification with a wallet and a `REGISTRATION` code for ten minutes and three attempts; known ones are refused |
| AuthRequests.VerifyDoes | src/modules/auth/auth.service.ts:89-146 | A live unused code for the phone and purpose is used up and makes the user verified and active; an expired one and a missing one are told apart |
| AuthRequests.ResendDoes | src/modules/auth/auth.service.ts:148-181 | A code for the purpose is issued unless one is younger than 120000 milliseconds; then the missing seconds are answered, rounded up |
| AuthRequests.LoginDoes | src/modules/auth/auth.service.ts:183-229 | The first failing test of password, verification, suspension and ban is answered, and else the login recorded |
| AuthRequests.ForgotDoes | src/modules/auth/auth.service.ts:231-250 | A known phone gets a `FORGOT_PASSWORD` code for ten minutes, any other none |
| AuthRequests.ResetDoes | src/modules/auth/auth.service.ts:252-288 | A live unused `FORGOT_PASSWORD` code for the phone is used up and sets the password; anything else is refused |
| AuthRequests.ChangeDoes | src/modules/auth/auth.service.ts:322-348 | Whoever knows the current password sets a new one |
| AuthRequests.StopsInBetween | src/modules/auth/auth.service.ts:58-83 | What each request leaves when one of its saves fails |
| ChatRegistry.PresenceIsSound | src/modules/chat/chat.gateway.ts:36-37 | In any order of events a connected user's socket belongs to that user alone, and is still open exactly when it had not closed before it registered |
| ChatRegistry.LateMeansClosedFirst | src/modules/chat/chat.gateway.ts:67-82 | A socket counts as registered late exactly when its disconnect event comes before its registration |
| ChatRegistry.LateRegistrationStaysOnline | src/modules/chat/chat.gateway.ts:67-95 | A socket that closes while its token is being verified leaves its user online on a closed socket |
| ChatRegistry.OnlineMeansOpen | src/modules/chat/chat.gateway.ts:84-95 | If replaced sockets close at once, a user has an open socket exactly when online on one that had not closed before it registered |
| ChatRegistry.RegistryIsExact | src/modules/chat/chat.gateway.ts:84-95 | If, besides, no socket closes before it registers, the two maps are inverse to each other and equally large |
| ChatRegistry.OnlineFollowsLastEvent | src/modules/chat/chat.gateway.ts:79-131 | In any order of events, whatever becomes of replaced sockets, a user is online exactly when the last event about the user was a registration, and then on the socket of that event |
| ChatRegistry.OnlineUsersAreTheJoined | src/modules/chat/chat.gateway.ts:354-363 | In any order of events, the users the registry lists and counts are exactly those whose last event was a registration |
| ChatRegistry.HiddenExactlyAfterLeaving | src/modules/chat/chat.gateway.ts:79-131 | A user with an open socket is hidden exactly when one of the user's sockets disconnected, or was turned away, after the user's last registration |
| ChatRegistry.LaterDisconnectHidesUser | src/modules/chat/chat.gateway.ts:119-122 | A replaced socket's later disconnect event removes a user whose new socket is open |
| ChatRegistry.FailedLookupHidesUser | src/modules/chat/chat.gateway.ts:84-115 | A second connection for which the lookup of the first socket throws removes the user although the first socket is open |
| ChatGateway.ChatGateway.HandleConnection | src/modules/chat/chat.gateway.ts:50-117 | The handler registers a verified client after dealing with the user's earlier socket; a client without a valid token, or for which that fails, is disconnected |
| ChatGateway.ChatGateway.HandleDisconnect | src/modules/chat/chat.gateway.ts:119-131 | The handler removes the client's user and the client, if the client has a user |
| ChatGateway.ChatGateway.DisconnectUser | src/modules/chat/chat.gateway.ts:375-388 | The method reports whether the user is registered on an open socket, and disconnects it |
| ChatGateway.ChatGateway.IsUserOnline | src/modules/chat/chat.gateway.ts:361-363 | Whatever events led to the current maps, the answer is yes exactly for users whose last event was a registration |
| ChatGateway.ChatGateway.GetConnectedUsersCount | src/modules/chat/chat.gateway.ts:354-356 | Whatever events led to the current maps, the answer is the number of those users |
| Wallets.WalletConservation | src/modules/payments/payments.service.ts:358-375 | Over any events, and however webhooks are interrupted, balances grow by exactly the amounts of paid events that matched a top-up whose user has a wallet and got both saves through |
| Wallets.CreditedOnceMeansSettled | src/modules/payments/payments.service.ts:358-385 | However webhooks are interrupted, a payment is never credited, or credited once and completed in the end, exactly when after a credit no event credits it again and the last webhook that matches it, if any, says paid |
| Wallets.SettledMeansLeftAlone | src/modules/payments/payments.service.ts:358-385 | Without interruptions that means that no webhook matches it after the credit |
| Wallets.CompletedTopUps | src/modules/payments/payments.service.ts:358-385 | Balances never grow by less than the credited and completed top-ups, and by exactly those if and only if every credit is settled in that sense; without interruptions, if and only if no webhook matches a payment after it was credited |
| Wallets.SecondWebhookBreaksAgreement | src/modules/payments/payments.service.ts:358-385 | A paid top-up reported again is credited twice on a second paid event, and stays credited without being completed on a failed one |
| Wallets.OneEventForEachPayment | src/modules/payments/payments.service.ts:185-198 | If each payment is matched by at most one event, balances grow by exactly the completed top-ups that were credited |
| Wallets.CreditsNeverRunAhead | src/modules/payments/payments.service.ts:358-375 | However webhooks are interrupted, a payment with a wallet to credit is saved as completed once for each credit and once for each webhook stopped in between |
| Wallets.HaltedIsMissing | src/modules/payments/payments.service.ts:358-375 | Balances fall short of the completed top-ups with a wallet by exactly the amounts of the webhooks stopped in between |
| Wallets.RunExtends | src/modules/payments/payments.service.ts:139-147 | Payments are never removed and keep user, kind and amount |
| Wallets.CreateDoes | src/modules/payments/payments.service.ts:32-53 | Paying for one's own booking records a pending payment over the given amount, if it is not 0, and else over the price; nothing is recorded for other bookings |
| Wallets.TopUpDoes | src/modules/payments/payments.service.ts:134-147 | A pending top-up over the amount is recorded |
| Wallets.GetWalletDoes | src/modules/payments/payments.service.ts:120-132 | A user without a wallet gets an empty one |
| Wallets.WebhookDoes | src/modules/payments/payments.service.ts:358-385 | A paid event completes its payment and, for a top-up, adds its amount to the user's wallet; a failed one marks it; other events and ids do nothing |
| Wallets.WebhookStops | src/modules/payments/payments.service.ts:358-375 | What a webhook leaves when one of its saves fails |
| PaymentsService.PaymentsService.CreatePayment | src/modules/payments/payments.service.ts:32-71 | A pending payment for the user's own booking is recorded, over the given amount or else the price |
| PaymentsService.PaymentsService.TopUpWallet | src/modules/payments/payments.service.ts:134-164 | A pending top-up is recorded and no balance changes |
| PaymentsService.PaymentsService.GetUserWallet | src/modules/payments/payments.service.ts:120-132 | The user's wallet is returned, after creating an empty one if there was none |
| PaymentsService.PaymentsService.HandleMoyasarWebhook | src/modules/payments/payments.service.ts:185-198 | Paid and failed events act on the matched payment; all others do nothing |
| PaymentsService.PaymentsService.MarkPaymentCompleted | src/modules/payments/payments.service.ts:358-375 | The matched payment is completed and, for a top-up, the user's wallet credited if there is one |
| PaymentsService.PaymentsService.MarkPaymentFailed | src/modules/payments/payments.service.ts:377-385 | The matched payment is marked failed and no balance changes |
| Pagination.NextPageMeansMoreRows | src/common/interfaces/pagination.interface.ts:34-53 | hasNextPage holds exactly when some row lies behind the page |
| Pagination.MetaDescribesRows | src/common/interfaces/pagination.interface.ts:34-53 | The numbers asked for are given back, and `totalPages` is the least number of pages that hold all rows |
| Pagination.WalkCollectsEverything | src/modules/notifications/notifications.service.ts:14-26 | Following hasNextPage from page 1 ends and yields every row exactly once, in order |
| ErrorTree.FormatErrors | src/common/pipes/validation.pipe.ts:44-62 | For any forest the dictionary holds, for each dotted path, the messages of the last node with that path, and no other keys |
| ErrorTree.FlatteningIsFaithful | src/common/pipes/validation.pipe.ts:44-62 | With distinct dot-free sibling names, the keys are exactly the dotted paths of the nodes with constraints, each with that node's messages, without collisions |
| ErrorTree.UnflattenRestores | src/common/pipes/validation.pipe.ts:44-62 | Then splitting the keys at their dots restores the messages of every node |
| ErrorTree.LostExactlyOnDisagreement | src/common/pipes/validation.pipe.ts:44-62 | For every forest, all messages are in the dictionary under their dotted paths exactly when nodes with the same dotted path have the same messages |
| ErrorTree.DottedNamesCollide | src/common/pipes/validation.pipe.ts:55-57 | With a dot in a name, one node's messages can replace another's |
| Normalizers.SanitizeDeletesTags | src/common/utils/validation.utils.ts:106-108 | The scan deletes exactly the characters between some `<` and the next `>` |
| Normalizers.SanitizeOnlyDeletes | src/common/utils/validation.utils.ts:106-108 | The result is a subsequence of the input |
| Normalizers.SanitizeLeavesNoTag | src/common/utils/validation.utils.ts:103-108 | The result has no `<` before a later `>` |
| Normalizers.SanitizeIsIdempotent | src/common/utils/validation.utils.ts:103-108 | A string is left alone exactly when it has no tag, and sanitizing twice is sanitizing once |
| Normalizers.FormatIsIdempotent | src/common/utils/validation.utils.ts:16-30 | Normalising a phone number twice is normalising it once, for every string |
| Normalizers.FormatIsValidExactly | src/common/utils/validation.utils.ts:8-30 | The result is valid exactly when the input's digits are 966 and nine more, 5 and eight more, or 05 and eight more |
| Normalizers.FormatKeepsNumber | src/common/utils/validation.utils.ts:16-30 | A number that can be normalised becomes `+966` and its last nine digits |
| Normalizers.SameNumberExactly | src/common/utils/validation.utils.ts:16-30 | Two such numbers are written alike exactly when their last nine digits agree |
| Normalizers.FormatLeavesOthers | src/common/utils/validation.utils.ts:29 | A string whose digits start in none of the three ways is left as it is |
| Normalizers.FormatKeepsDigits | src/common/utils/validation.utils.ts:20-27 | The others keep all their digits but a leading 0, behind a plus and, where they lack it, 966 |
| Normalizers.DigitsAreKept | src/common/utils/validation.utils.ts:18 | Digits are the characters from 0 to 9, in order |
| Normalizers.ValidExactly | src/common/utils/validation.utils.ts:8-11 | A valid number is a plus, 966 and nine digits |

## Left out

- TypeORM and Postgres: repositories are maps and sequences; generated keys come from the caller, and an insert under a taken key is refused. That the driver returns decimal columns as strings is not modelled; they are numbers.
- IEEE doubles: amounts are exact numbers, rounded only where a two-decimal column stores them.
- Concurrency of requests: one request runs at a time. Interruption at any save of a booking or authentication request or of a webhook, a delay between making and storing a cached response, and closing sockets during token verification are modelled.
- Several clock readings in one request: a request reads the clock once.
- BookingsService.BookingsService.CreateBooking: takes the appointment as an instant, because parsing of date and time strings is foreign; the random booking number is left out, and a clash of it is an interrupted first save.
- Foreign calls: gateways, SMS, push, queues, token signing and verification, password hashing. A stored password equals the password it was made from.
- AuthModel.NewestIsNewest: among rows created at the same instant the last one is taken, where the database may take any; AuthTheorems.NewestSuffices covers any of them.
- RateLimit.SlidingWindow: holds as long as nothing resets the store or deletes the counter; after a reset it starts anew.
- Stored values under a rate-limit key that are not numbers count as no count; neither the guard nor the interceptor ever stores one there.
- CacheRuns.BoundedStaleness: holds for each cache key; two interceptors nested around one handler are two requests of the run, the outer one's handler being the inner one.
- Cache statistics, `increment`, `decrement`, `has` and `deletePattern` of the cache service: they add only single-step facts.
- Wallets.WalletConservation: webhook payloads without an id are not modelled; the gateway's id of a payment is assigned by the environment, to one payment at most.
- ChatGateway.ChatGateway.HandleConnection: rooms, emitted messages and log lines are left out; whether looking up the old socket throws, finds nothing or closes it at once is a parameter. A client the handler turns away runs its disconnect handler at once.
- ErrorTree.FormatErrors: keys are compared as strings; the special property name `__proto__` of JavaScript objects and the order of numeric keys are not modelled.
- Writes of other services to the same rows: updating a user (phone, email, password) and soft deletion of users, changes of services, and reassigning a provider to another user. Users keep their phone, providers their user and services their provider during a run.
- Query filters, statistics, disputes, reviews, promo codes, refund requests and approvals, provider approval and location search: independent field assignments or listings without a property over runs.
