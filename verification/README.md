# Verified model of the transfer server's concurrent protocols and parsers

This project models, in Dafny, the parts of the backend whose guarantees rest on
an argument rather than on a type: what may interleave at an `await`, what
arrives twice or out of order, what a parser accepts, and what a resumable
operation leaves behind. Each part is a step relation or a function that follows
the TypeScript branch by branch, a class whose methods do what the service's
methods do and are proved equal to those steps, and theorems over every run.

| file | what it models |
|---|---|
| `AsyncLock.dfy` | the promise-chain lock (`withLock`, and the archive chain of `createZip`) as a machine of arrivals, starts, settlements and clean-ups, and its refinement to a first-in-first-out mutex |
| `Credentials.dfy` | one account's rows and every request that touches them, each database call a step; passwords, wipes, single-use tokens |
| `CredentialLocks.dfy` | all accounts over the one lock table: the promise machine alone decides which request runs |
| `StripeEvents.dfy`, `Payments.dfy`, `PaidAccess.dfy`, `SoldWindows.dfy`, `PaymentService.dfy` | payment events, confluence, who is let in, and the guarantee that a sold window is not cut short |
| `Bits.dfy`, `Ipv6Text.dfy`, `Ipv6Prefix.dfy`, `PublicAddress.dfy`, `AddressRanges.dfy` | the address classifier: text to groups, bit prefixes, tables, and what the tables say in octets and groups |
| `SecretsFile.dfy`, `SecretsLines.dfy`, `SecretsMirror.dfy` | printer and parser of `secrets.env`, what the written file is read as whatever the values hold, and the load, write and watch loop |
| `Uploads.dfy`, `UploadOverlap.dfy` | chunked upload to local storage, its ceilings and the contribution tag, with imports and deletions, with whole requests and with requests cut at every await |
| `UploadCopies.dfy` | what overlapping requests do to one file: copies of a piece sent at the same time |
| `NasImport.dfy` | paged import from the mounted archive |
| `Collections.dfy`, `CollectionService.dfy` | a collection's uses, its two clocks and the scheduled jobs |
| `ThumbnailGate.dfy` | the four-slot gate with hand-off |
| `AvatarFetch.dfy` | the bounded fetch with redirections |
| `HttpRange.dfy` | the Range header |
| `Text.dfy`, `Wrappers.dfy` | string operations and result shapes |

How to read the runs. An event is one database call, one transaction, or one
callback; whatever another request does in between is another event. A run is a
sequence of events from an initial state, `After` is where it leads, and a
theorem about `After` holds for every interleaving. Instants and durations are
integers, and 0 as an expiration means never. Random identifiers are drawn by the
caller and assumed not to repeat. Passwords stand for what verifies against their
hash. I/O, clocks and configuration are parameters.

## What turned out not to hold as promised

For each of these a lemma gives the exact condition under which the promise is
kept, and for all but account deletion and import, which are a single event,
another gives a run or an input that breaks it.

- **A refund can be acknowledged and lost.** `revokePayment` updates, then looks
  again for a known payment, in two calls. A payment first named between them makes
  the second call find an unrevoked row, and the delivery is acknowledged
  (`RefundLostBetweenItsTwoCalls`). An acknowledged delivery has revoked its payment
  if and only if that did not happen, whatever else came between its two calls
  (`AnsweredLandsExactly`); `RowsExactly` says so of every schedule.
- **A sold window can be cut by a check made too early.** `expire`, `remove` and
  the sweep read, then write. A payment that lands between the two is overtaken
  (`PaymentOvertakenByExpire`); the write keeps every sold window if and only if no
  payment for the transfer still runs when it happens (`WriteKeepsExactly`).
- **A sold window can be cut with no race at all.** `revertComplete` unlocks a paid
  transfer, and the sweep of unfinished transfers, which asks nothing of payments,
  deletes it (`ReopenedTransferIsSwept`); `UnfinishedSweepKeepsExactly` is the exact
  condition.
- **Deleting an account ends what it sold.** It asks nothing of payments and takes
  the account's transfers with it; every sold window is kept if and only if none of
  them is still sold (`AccountDeleteKeepsExactly`).
- **Replaying a payment is not always null.** After a refund and an expiry, the
  replay of the old delivery brings the transfer back to life
  (`ReplayOfRefundedPaymentRevives`); `ReplayIsNullExactly` is the exact condition.
- **`secrets.env` loses values with a line feed**, and only those
  (`RoundTripExactly`). At the next restart the first line replaces the stored secret,
  and the other lines are read as lines of their own: a restart leaves the table as
  it is if and only if no value that `update` may write spans lines, as long as none
  of those lines sets a variable of the table (`OwnFileExactly`,
  `OwnFileIsQuietExactly`). A secret of two plain lines ends as the first behind a
  quote (`TwoLinesBecomeOne`), and an inner line can set an earlier variable
  (`InnerLineSetsAnother`).
- **A collection can be deleted before its date** when its retention outlasts the
  ten-year placeholder and the closing job never ran; `NeverEarlyExactly` gives the
  bound.
- **A size ceiling can be exceeded when two requests overlap**, since the checks, the
  row and the tag are separate (`OverlapExceeds`). The ceilings hold in every run of
  overlapping requests in which no row is inserted on readings that were overtaken
  (`CeilingsHoldUndisturbed`), and one insert keeps them if and only if the size
  check, asked again, still passes (`OverlapKeepsExactly`).
- **An import from the archive asks for no ceiling.** It keeps them if and only if its
  file fits what is left (`ImportKeepsExactly`).
- **A file can be lost to a copy of its own last chunk.** The chunk index is checked
  before the append, and the row is inserted after the rename. Of two copies of the
  last chunk that are past the check together, the first completes the file and the
  second replaces it by the last chunk alone, under a row of the full length; its own
  insert is refused. This can happen to every file of two chunks or more
  (`LastChunkTwice`). One append keeps the file a whole number of pieces, or
  complete, if and only if nobody has the whole file yet and the piece is the one
  expected when the append comes, or has the same bytes (`AppendKeepsExactly`); where
  every append is like that, overlapping requests are as resumable as whole ones
  (`OverlapIsResumable`).

## Model

| member | source | states |
|---|---|---|
| AsyncLock.ReachableInv | backend/src/utils/asyncLock.util.ts:12-37 | in every schedule the map names the newest call of each key that may still hold up a successor, each call waits for the previous call of its own key, and no call has started before that one ended |
| AsyncLock.RefinesFifoMutex | backend/src/utils/asyncLock.util.ts:14-37 | every event of the promise machine is an allowed action, or none, of the first-in-first-out mutex of each key; other keys do not notice it |
| AsyncLock.ScheduleRefinesFifoMutex | backend/src/utils/asyncLock.util.ts:14-37 | a whole schedule seen from one key is a run of that mutex, for the lock and for the archive chain |
| AsyncLock.MutualExclusion | backend/src/share/share.service.ts:180-216 | two running calls of one key are the same call, so no two archive builds of a share, nor two locked bodies of a user, overlap |
| AsyncLock.ArrivalOrder | backend/src/utils/asyncLock.util.ts:8-11 | a call that has started comes after the end of every earlier call of its key |
| AsyncLock.HeadNeverBlocked | backend/src/utils/asyncLock.util.ts:18-25 | when nobody is inside, the oldest waiting call can be run, not skipped, at once or after the settlement of its predecessor, whatever that one came to and whatever other keys do |
| AsyncLock.NeverSkipsExactly | backend/src/utils/asyncLock.util.ts:18-25 | with a link that is rejected skipping the next call, as `then` does, no schedule ever ends a call that was not run if and only if rejections are caught before they reach the link, as both chains do |
| AsyncLock.BareSkips | backend/src/share/share.service.ts:200-204 | without the handler, one failed call makes the next one of its key end without having run |
| AsyncLock.LineIsOldestFirst | backend/src/utils/asyncLock.util.ts:14-16 | the abstract queue holds exactly the unfinished calls of the key, in arrival order |
| AsyncLock.MapForgetsIdleKeys | backend/src/utils/asyncLock.util.ts:27-34 | a key whose calls have all been cleaned up has no entry, and a key without an entry has no call that could hold up another |
| AsyncLock.LockTable.WithLock | backend/src/utils/asyncLock.util.ts:14-37 | the table after a call is the machine's state after its arrival: the call gets the next number and takes its key's entry, and no other entry changes |
| AsyncLock.LockTable.CleanUp | backend/src/utils/asyncLock.util.ts:31-34 | afterwards the key does not name this call, an entry a later call took over stays, and no other changes |
| Credentials.StepKeepsSafe | backend/src/auth/auth.service.ts:237-301 | every database call, inside or outside the lock, keeps every stored credential of the current password, save during a wipe, and keeps what the holder read true |
| Credentials.NoStaleCredential | backend/src/auth/auth.service.ts:440-460 | in every interleaving, once no wipe is under way, every session, trusted device and login token that goes back to a password check goes back to the current password |
| Credentials.MintedUnderCurrentPassword | backend/src/auth/authTotp.service.ts:60-126 | a request about to insert a session holds the lock, and the credential it rests on belongs to the password in force at that moment |
| Credentials.ChangeIsAuthorised | backend/src/auth/auth.service.ts:588-604 | every accepted change quoted the password that its own write replaced, or there was none |
| Credentials.QuotedOnce | backend/src/auth/auth.service.ts:588-618 | of two accepted changes that quoted the same password, some change from the first on put that very password back or removed it |
| Credentials.ResetTokenOnce | backend/src/auth/auth.service.ts:400-461 | a reset token stands behind at most one password change |
| Credentials.LoginTokenOnce | backend/src/auth/authTotp.service.ts:61-105 | a login token stands behind at most one session |
| Credentials.StepKeepsAccounted | backend/src/auth/auth.service.ts:406-417 | every step keeps the history of changes and sessions consistent with the tokens spent and with the requests still on their way |
| Credentials.Reachable | backend/src/auth/auth.service.ts:61-166 | every run from sign-up satisfies both invariants |
| Credentials.TurnIsARun | backend/src/utils/asyncLock.util.ts:46-51 | from any account with nobody inside, each kind of request that is offered can begin, take the lock and run alone to its end, and has then done exactly its turn: the services below do what the machine can do |
| Credentials.ResetIsARun | backend/src/auth/auth.service.ts:400-461 | likewise for a reset, which spends its token before it asks for the lock |
| CredentialLocks.LockGrantsAlone | backend/src/utils/asyncLock.util.ts:46-51 | whenever the promise machine would run a request, that request is waiting and nobody of its user is inside |
| CredentialLocks.HolderIsTheRunningCall | backend/src/utils/asyncLock.util.ts:46-51 | in every run a request holds its account exactly while its call under the key of that user is the running one |
| CredentialLocks.OldestGetsIn | backend/src/utils/asyncLock.util.ts:14-37 | in every run, while nobody holds an account, the oldest request in its line can get in, at once or when the promise before it has settled |
| CredentialLocks.HolderGoesOn | backend/src/utils/asyncLock.util.ts:46-51 | and once in, it can make its next call whatever the others do, and gives the account back when it leaves |
| CredentialLocks.WaitingJoins | backend/src/utils/asyncLock.util.ts:14-16 | whoever waits can ask for the lock, and then stands at the end of the user's line |
| CredentialLocks.UsersDoNotInterfere | backend/src/utils/asyncLock.util.ts:46-51 | every run of all users over the one lock table, which never asks who holds an account, is for each account a run of the machine that does, made of its own events alone |
| CredentialLocks.OthersKeepTheLine | backend/src/utils/asyncLock.util.ts:14-37 | a call under one user's key never counts for another's: events of other users, and settlements of their calls, leave a user's line and whether somebody is inside as they were |
| CredentialLocks.NoStaleCredentialAnywhere | backend/src/auth/auth.service.ts:237-301 | so no account of any such run keeps a credential of an earlier password outside a wipe |
| CredentialLocks.ChangeIsAuthorisedAnywhere | backend/src/auth/auth.service.ts:588-604 | in every run of all users over the one lock table, every accepted change of an account quoted the password it replaced, or there was none |
| CredentialLocks.QuotedOnceAnywhere | backend/src/auth/auth.service.ts:588-618 | and of two accepted changes of one account that quoted the same password, some change from the first on put it back or removed it |
| CredentialLocks.ResetTokenOnceAnywhere | backend/src/auth/auth.service.ts:400-461 | in every such run a reset token stands behind at most one password change of its account |
| CredentialLocks.LoginTokenOnceAnywhere | backend/src/auth/authTotp.service.ts:61-105 | and a login token behind at most one session |
| Credentials.CredentialStore.CreateRefreshToken | backend/src/auth/auth.service.ts:709-727 | exactly one session row is added, of the credential given, and no other table changes; it is the last call of the locked turn |
| Credentials.CredentialStore.SetTrustedDevice | backend/src/auth/auth.service.ts:782-802 | exactly one device row is added, of the credential given, and no other table changes |
| Credentials.CredentialStore.SignInWithPassword | backend/src/auth/auth.service.ts:283-358 | signs in exactly when the quoted password is the stored one and the account is active, and otherwise changes nothing; with TOTP it leaves one unused login token of the current password and nothing else, without it one session of the current password, and a device before it exactly when asked to remember; it is the machine's turn uninterrupted |
| Credentials.CredentialStore.SignInTotp | backend/src/auth/authTotp.service.ts:60-126 | succeeds exactly on an unused, unexpired token with the right code, which is then used; adds one session of the credential behind the token, and a device of it exactly when asked to remember; otherwise changes nothing |
| Credentials.CredentialStore.SignInTrusted | backend/src/auth/auth.service.ts:869-915 | succeeds exactly on a known, live device, and adds one session of the credential behind it and nothing else |
| Credentials.CredentialStore.CommitThenWipe | backend/src/user/user.service.ts:164-181 | write and wipe leave the new password, the next epoch and three empty tables |
| Credentials.CredentialStore.ResetPassword | backend/src/auth/auth.service.ts:440-460 | equals the machine's turn and leaves no session, device or login token |
| Credentials.CredentialStore.UpdatePassword | backend/src/auth/auth.service.ts:588-618 | equals the machine's turn; accepted exactly when the old password is the stored one or there is none, and then one session of the new password remains |
| Credentials.CredentialStore.AdminUpdate | backend/src/user/user.service.ts:164-181 | equals the machine's turn; a refused transaction changes nothing, an accepted one wipes everything |
| Text.NormalizedExactly | backend/src/share/paidAccess.util.ts:21-26 | two addresses compare equal exactly when they differ by the spaces around them and by ASCII case only |
| Text.TrimCuts | backend/src/share/paidAccess.util.ts:21-26 | where trimming takes off exactly the spaces before the first and after the last other character |
| StripeEvents.PayerIsRecognised | backend/src/payment/stripeEvent.util.ts:25-78 | a completed checkout is recorded for a positive whole amount, and among any other payments its row lets in exactly the visitor whose proven address is the same up to spaces and case, while not revoked |
| StripeEvents.PaidExactly | backend/src/payment/stripeEvent.util.ts:25-60 | an event is a payment with these terms if and only if it is a checkout paid in full that names the transfer, with an address that normalises to the payer's and a positive whole number of cents that a double holds exactly |
| StripeEvents.RefundedExactly | backend/src/payment/stripeEvent.util.ts:62-78 | and a refund of this intent, created then, if and only if it names the intent and is dated in seconds, or not dated |
| PaidAccess.AttachedExactly | backend/src/payment/payment.service.ts:154-174 | after any schedule a payment belongs to the transfer it was paid for if that one has stood since, and otherwise to none |
| PaidAccess.AdmittedExactly | backend/src/share/paidAccess.util.ts:13-27 | after any schedule, any visitor enters any transfer if and only if it has no price, or the visitor has a proven address, some session first paid for it with that address while it stood, it has stood since, and no refund of the session came in time |
| PaidAccess.PaidForLasts | backend/src/share/paidWindow.util.ts:7-26 | in every run whose writes are not overtaken, a transfer that stood when a session first paid for it exists, and does not expire before the instant of that delivery plus a thousand milliseconds for each second sold, until then or until a refund in time |
| PaidAccess.StillSells | backend/src/payment/payment.service.ts:142-193 | and the payment goes on selling it all that time |
| Payments.RowsExactly | backend/src/payment/payment.service.ts:138-174 | after any schedule, whether a session has a row, whose address, amount and intent it carries and whether it is revoked are determined by the first delivery that paid, the first that named an intent, and whether a refund of that intent came after it |
| Payments.WindowExactly | backend/src/share/paidWindow.util.ts:7-9 | after any schedule a payment is dated at its first delivery, by the time elapsed until it, and its window ends a thousand milliseconds later for each second that delivery sold |
| Payments.VerdictExactly | backend/src/payment/payment.service.ts:294-328 | what every refund delivery is answered, from the schedule alone: accepted exactly when a delivery before its second call named the intent, and otherwise given up exactly when more than six hours have passed since it was created, and asked for again until then |
| Payments.RecordSays | backend/src/payment/payment.service.ts:107-193 | column by column, what recording a delivery does to the row and to the transfer |
| Payments.Confluent | backend/src/payment/payment.service.ts:107-328 | two schedules of the same paid and refund deliveries, repeated and reordered at will, with every refund of a known payment redelivered until accepted, end with the same sessions, addresses, amounts, intents and revocations |
| Payments.RowIncluded | backend/src/payment/payment.service.ts:138-174 | one direction of it: whatever the first schedule recorded or revoked, the second did too, and only the second needs its refunds accepted |
| Payments.AnsweredLandsExactly | backend/src/payment/payment.service.ts:294-325 | a refund delivery that was acknowledged, with any events between its two calls, has revoked the payment of its session by its first call if and only if that payment was not first named in between |
| Payments.AcceptedRefundWasInTime | backend/src/payment/payment.service.ts:294-325 | so a refund accepted under that condition is in time in the whole schedule |
| Payments.RefundLostBetweenItsTwoCalls | backend/src/payment/payment.service.ts:294-308 | a three-event run in which a refund is acknowledged and its payment stays valid |
| Payments.NothingIsUndone | backend/src/payment/payment.service.ts:142-174 | from any point of any schedule on, no row disappears, no intent is cleared or changed, no revocation is lifted |
| Payments.OneReceiptPerSession | backend/src/payment/payment.service.ts:204-221 | at most one receipt is attempted per session, and only for a recorded one |
| SoldWindows.SoldWindowsAreKept | backend/src/share/share.service.ts:535-587 | in every run whose writes no payment overtook, and in which no account is deleted with something still sold, an unrevoked payment of an existing transfer with its window ahead has a transfer that never expires or lasts to the end of that window |
| SoldWindows.RecordKeeps | backend/src/payment/payment.service.ts:112-193 | recording or replaying any delivery shortens no sold window and detaches no payment |
| SoldWindows.SweptHasNothingSold | backend/src/jobs/jobs.service.ts:24-58 | what the expired-share sweep selects has no window still running |
| SoldWindows.StepKeeps | backend/src/share/share.service.ts:554-587 | every event whose check was not overtaken keeps the invariant |
| SoldWindows.WriteKeepsExactly | backend/src/share/share.service.ts:535-587 | a delayed expire, delete or sweep keeps every sold window if and only if no payment for the transfer still runs at the write |
| SoldWindows.PaymentOvertakenByExpire | backend/src/share/share.service.ts:570-587 | a run in which the payment lands between check and write and its window is lost |
| SoldWindows.ReopenedTransferIsSwept | backend/src/jobs/jobs.service.ts:106-129 | from any state, reopening a transfer with a window running and the sweep of unfinished transfers leave a valid payment with nothing to open |
| SoldWindows.UnfinishedSweepKeepsExactly | backend/src/jobs/jobs.service.ts:106-129 | what that sweep deletes at once keeps every sold window if and only if no payment for the transfer is running |
| SoldWindows.AccountDeleteKeepsExactly | backend/src/user/user.service.ts:411-436 | deleting an account, transfers and all, keeps every sold window if and only if none of its transfers is still sold |
| SoldWindows.ReplayIsNullExactly | backend/src/share/paidWindow.util.ts:18-26 | a replay changes nothing if and only if it brings no new intent and the transfer it names lasts long enough |
| SoldWindows.ReplayOfValidPaymentIsNull | backend/src/payment/payment.service.ts:176-193 | for a payment still attached and valid, after any undisturbed run, that condition holds |
| SoldWindows.ReplayOfRefundedPaymentRevives | backend/src/payment/payment.service.ts:176-193 | after refund and expiry, a replay moves the expiration ahead again |
| PaymentServices.PaymentService.RecordPayment | backend/src/payment/payment.service.ts:107-193 | a new session gets a row of the delivery's columns, sold from now for a thousand milliseconds a second, and a receipt if the transfer exists; a known one at most an intent it lacked; a transfer that would end before the window is moved to its end, and no other row or transfer changes |
| PaymentServices.PaymentService.RevokePayment | backend/src/payment/payment.service.ts:294-328 | exactly the unrevoked rows of the intent are revoked, now; the answer is that some were, that all were before, or, when no row bears the intent, to give up more than six hours after the event and to deliver again until then |
| PaymentServices.PaymentService.ApplyEvent | backend/src/payment/payment.service.ts:363-375 | each kind of event does its step, an ignored one nothing, and only a refund to be delivered again throws |
| PaymentServices.PaymentService.AssertNoActivePaidAccess | backend/src/share/share.service.ts:535-552 | passes exactly when every unrevoked payment of the transfer has run out |
| PaymentServices.PaymentService.ExpireShare | backend/src/share/share.service.ts:570-587 | expires the transfer now exactly when it exists, has a creator and every unrevoked payment of it has run out; otherwise, and elsewhere, changes nothing |
| PaymentServices.PaymentService.RemoveShare | backend/src/share/share.service.ts:554-568 | deletes it exactly when it exists, has a creator or the caller is an administrator, and every unrevoked payment of it has run out; the payment rows stay, detached |
| Ipv6Text.ExpandInverts | backend/src/avatar/avatarUrl.guard.ts:43-79 | every spelling of section 2.2 of RFC 4291 (any compressed zero run, padding, case, dotted-quad tail) expands to the groups it spells |
| Ipv6Prefix.AgreeIsSameTop | backend/src/avatar/avatarUrl.guard.ts:84-93 | agreement group by group with a masked cut group is equality of the leading bits as one number, for any number of groups |
| Ipv6Prefix.MatchesIpv6Prefix | backend/src/avatar/avatarUrl.guard.ts:84-93 | the loop answers exactly whether the two 128-bit numbers agree after division by 2^(128-bits), for every cut |
| Bits.MaskedEqual | backend/src/avatar/avatarUrl.guard.ts:131-134 | two numbers agree under the shifted mask of the code exactly when their quotients by the power of two agree |
| PublicAddress.ScanIsUnion4 | backend/src/avatar/avatarUrl.guard.ts:129-134 | the masked scan of the IPv4 table is membership in the union of its blocks |
| PublicAddress.TableIsApart | backend/src/avatar/avatarUrl.guard.ts:106-124 | no two of the eleven IPv6 prefixes share an address |
| PublicAddress.FirstMatchIsUnion | backend/src/avatar/avatarUrl.guard.ts:141-155 | for disjoint prefixes, the first match decides as the union does |
| PublicAddress.OrderDoesNotMatter | backend/src/avatar/avatarUrl.guard.ts:106-124 | any permutation of a disjoint table gives the same verdict |
| PublicAddress.FindRule | backend/src/avatar/avatarUrl.guard.ts:141-142 | the walk stops at the first block that contains the address, or at the end when none does |
| PublicAddress.IsPublicAddress | backend/src/avatar/avatarUrl.guard.ts:126-158 | the recursive method with its tables answers the specification on numbers, for text of either family and for neither, and terminates |
| AddressRanges.IsPublic | backend/src/avatar/avatarUrl.guard.ts:126-158 | on the code's own tables: false for an IPv4 address exactly when its octets lie in one of the ranges written out, for an IPv6 address exactly when its groups do or it embeds such an IPv4 address, and for any other text |
| AddressRanges.QuadVerdict | backend/src/avatar/avatarUrl.guard.ts:20-36 | the fifteen IPv4 blocks with their prefix lengths are those octets |
| AddressRanges.GroupsVerdict | backend/src/avatar/avatarUrl.guard.ts:106-124 | the eleven IPv6 prefixes with their lengths and delegation are those groups |
| AddressRanges.DottedVerdict | backend/src/avatar/avatarUrl.guard.ts:129-134 | so every dotted quad is public exactly when its octets are outside |
| AddressRanges.SpelledVerdict | backend/src/avatar/avatarUrl.guard.ts:137-155 | and every legal spelling of an IPv6 address exactly when its groups are |
| PublicAddress.IPv4Exactly | backend/src/avatar/avatarUrl.guard.ts:126-129 | a text is taken for an IPv4 address if and only if it is four octets as printed |
| PublicAddress.EmbeddedDecides | backend/src/avatar/avatarUrl.guard.ts:141-155 | a v4-mapped address (section 2.5.5.2 of RFC 4291) or a NAT64 address (section 2.1 of RFC 6052) is public exactly when its last 32 bits are, as IPv4 |
| PublicAddress.SpellingDoesNotMatter | backend/src/avatar/avatarUrl.guard.ts:38-42 | the verdict depends on the address and not on which of its legal spellings it is written in |
| SecretsFile.EnvVarNameIsKey | backend/src/config/config.service.ts:76-82 | the printed name of a plainly named variable is a key the parser reads back unchanged |
| SecretsFile.EnvVarNameOfWords | backend/src/config/config.service.ts:76-82 | a name made of words, joined by humps or dashes, prints as category and words in capitals with an underscore between any two |
| SecretsFile.SameWordsCollide | backend/src/config/config.service.ts:76-82 | so two names of the same words share one line of the file, however they are joined |
| SecretsFile.UnescapedEscaped | backend/src/config/config.service.ts:294-296 | unescaping undoes escaping, for every string |
| SecretsFile.LineParses | backend/src/config/config.service.ts:196-220 | a printed line, taken as one line, parses to exactly its name and value |
| SecretsFile.ParseSecretsFile | backend/src/config/config.service.ts:196-220 | the loop over lines computes the parser's specification on every text, malformed lines included |
| SecretsLines.FileReads | backend/src/config/config.service.ts:264-288 | whatever the values hold, the written file is read as, variable by variable, the first line of its value and then the value's other lines as lines of the file |
| SecretsLines.RoundTripExactly | backend/src/config/config.service.ts:264-288 | for distinct plain names, parsing the written file returns exactly the effective values of the obscured variables, if and only if none of them holds a line feed |
| SecretsLines.HeadIsCut | backend/src/config/config.service.ts:294-296 | what is read back of a value with a line feed is neither blank nor the value |
| SecretsLines.InnerLineReads | backend/src/config/config.service.ts:196-220 | a line inside a value that reads as a setting is one |
| SecretsMirror.AppliedExactly | backend/src/config/config.service.ts:231-257 | a pass sets a variable exactly when it is obscured, named in the file with a value that is not empty, and the value is one `update` accepts; all others keep theirs |
| SecretsMirror.NothingPushed | backend/src/config/config.service.ts:231-247 | a pass performs no update exactly when no variable has a value to take, and then the table is unchanged |
| SecretsMirror.SecondPassIsQuiet | backend/src/config/config.service.ts:246-247 | a second pass over the same text performs no update |
| SecretsMirror.OwnFileExactly | backend/src/config/config.service.ts:150-164 | a pass over the file the table itself writes leaves every variable as it is, but for those that `update` may write and whose value spans lines, which keep what is read of their first line |
| SecretsMirror.OwnFileIsQuietExactly | backend/src/config/config.service.ts:231-257 | so it performs no update if and only if there is no such variable |
| SecretsMirror.TwoLinesBecomeOne | backend/src/config/config.service.ts:294-296 | a secret of two plain lines is after a restart its first line behind a quote |
| SecretsMirror.InnerLineSetsAnother | backend/src/config/config.service.ts:196-220 | a line inside one secret that reads as a setting of an earlier variable becomes that variable's value wherever `update` accepts it |
| SecretsMirror.ContentChanges | backend/src/config/config.service.ts:264-276 | an update that changes a value changes the text of the file |
| SecretsMirror.ConfigService.WriteSecretsFile | backend/src/config/config.service.ts:264-288 | after a write the last text known is that of the table, and the file is rewritten only if the text differs from it |
| SecretsMirror.ConfigService.Update | backend/src/config/config.service.ts:669-725 | refused exactly when there is no such variable or the text is not acceptable, and then nothing changes; accepted, one variable changes and the file follows |
| SecretsMirror.ConfigService.ApplySecrets | backend/src/config/config.service.ts:231-257 | despite the whole-file write after each update, the table ends as one pass over the original table, the updates are exactly those due, and a quiet pass touches neither file nor memory of it |
| SecretsMirror.ConfigService.LoadSecretsFile | backend/src/config/config.service.ts:150-164 | after boot the table has taken the file and the file is what the table prints |
| SecretsMirror.ConfigService.ReloadSecretsFile | backend/src/config/config.service.ts:169-184 | an edit is taken in exactly, the result is settled, and on a settled file nothing at all happens |
| SecretsMirror.WatchLoopStops | backend/src/config/config.service.ts:169-184 | after any edit, the first watch event takes it in, and any number of further events changes neither the table nor the updates performed |
| SecretsMirror.Restart | backend/src/config/config.service.ts:150-164 | a restart on the file the service wrote cuts the values that span lines and may be written, leaves all others, and performs no update if and only if there are none |
| Uploads.PostAccepted | backend/src/file/local.service.ts:165-188 | an accepted request lengthens its temporary file, or on the last chunk replaces it by the file and adds one row with its size and contribution; its id was free |
| Uploads.AcceptedExactly | backend/src/file/local.service.ts:48-163 | a chunk is taken if and only if its id is free and well-formed, it is the next one, the transfer is a collection or neither locked nor given a contribution, and space, ceiling and quota suffice, whatever order these are asked in |
| Uploads.RefusedExactly | backend/src/file/local.service.ts:48-163 | and otherwise is told the first thing that is wrong; a chunk out of turn is told the one that is next |
| Uploads.CompletedGetsNothing | backend/src/file/local.service.ts:67-68 | over every run, a completed transfer that is no collection gets no row, no file and no byte, temporary or not, by upload |
| Uploads.TagsItsOwnRow | backend/src/share/contribution.controller.ts:103-106 | the update by id, transfer and missing contribution reaches the row just created and no other |
| Uploads.CeilingsHold | backend/src/file/local.service.ts:112-142 | over every run of uploads, sweeps, deletions and imports that fit, identifiers stay distinct, only collections hold tagged files, and the untagged bytes of every transfer and the bytes of every contribution stay under their limits, although only the current temporary file is counted |
| Uploads.ImportKeepsExactly | backend/src/nasImport/nasImport.service.ts:272-286 | an import, which asks for no ceiling, keeps them all if and only if its file fits what is left |
| Uploads.CommittedUnderLimit | backend/src/file/local.service.ts:112-142 | in particular all committed bytes of an ordinary transfer stay under its limit, and a deposit under the collection's |
| UploadOverlaps.CeilingsHoldUndisturbed | backend/src/file/local.service.ts:54-188 | over every run of requests cut at every await, from the look at the rows to the tag, in which no row is inserted on readings that were overtaken and every import fits, every deposit and every ordinary transfer stays under its ceiling, whether the tags have come or not |
| UploadOverlaps.OverlapKeepsExactly | backend/src/file/local.service.ts:112-142 | whatever the request read before, the insert of its row keeps every ceiling if and only if the size check, asked again of the measured file, passes |
| UploadOverlaps.GuardCovers | backend/src/file/local.service.ts:112-142 | the check asked again bounds exactly the scope it measures, for deposits, ordinary transfers and an owner writing into a collection alike, and passing it is always enough |
| UploadOverlaps.OverlapExceeds | backend/src/file/local.service.ts:112-188 | a run in which two overlapping one-byte uploads pass a one-byte limit, the second row inserted on overtaken readings |
| UploadOverlaps.AloneIsPost | backend/src/share/contribution.controller.ts:85-108 | a request left alone does call by call what it does whole, refused or not |
| UploadCopies.AppendKeepsExactly | backend/src/file/local.service.ts:71-89 | however far other requests of the file have come, an append keeps it a whole number of pieces, or in the hands of one request that has all of it, or stored, if and only if no request has the whole file, there is no row, and the piece is the one expected at that moment or equal to it with neither the last |
| UploadCopies.OverlapIsResumable | backend/src/file/local.service.ts:71-89 | pieces sent in any order and at the same time, cut at every await, with any other events: where every append is such, a stored file is complete, and otherwise the temporary file is a whole number of pieces whenever nobody is between the last append and the row |
| UploadCopies.LateCopyTruncates | backend/src/file/local.service.ts:165-188 | of two copies of the last piece past their checks, the first welcome, one completes the file and the other replaces it by the last piece with the rows unchanged; the file survives if and only if it has one piece |
| UploadCopies.LastChunkTwice | backend/src/file/local.service.ts:71-188 | for every file that may be uploaded at all, a run reaches a row of its full length over its last piece alone |
| Uploads.OnlyTheNextPiece | backend/src/file/local.service.ts:71-87 | with k whole pieces in, every other piece is refused with the number k to resume from |
| Uploads.AnyOrderIsResumable | backend/src/file/local.service.ts:71-89 | pieces of one file sent in any order, repeated, with other traffic, sweeps, imports and deletions between, leave a whole number of pieces, or the complete file with one row of its size |
| Uploads.ChunkedIsOneShot | backend/src/file/local.service.ts:165-188 | sent in order, whether the client chose the id or echoes the one minted for its first piece, the pieces leave exactly what one request with the whole file would have left, and commit nothing when that request would have been refused |
| Uploads.FileStore.Create | backend/src/file/file.service.ts:48-78 | answers and changes the store as the step says: the refusal of the first check that fails, with nothing changed, or the append |
| Uploads.FileStore.Check | backend/src/file/local.service.ts:48-163 | reports the first refusal in the order of the code |
| Uploads.FileStore.SumSizes | backend/src/file/local.service.ts:112-119 | the bytes committed in the scope of the write |
| Uploads.FileStore.UploadFile | backend/src/share/contribution.controller.ts:85-108 | upload and tag together are one step of the machine |
| NasImports.ChosenExactly | backend/src/nasImport/nasImport.service.ts:256-269 | an import takes exactly the first occurrence of every new name, in walk order |
| NasImports.NextIsAhead | backend/src/nasImport/nasImport.service.ts:251-254 | a cursor handed back lies a full batch or more beyond the one passed in, and inside the walk |
| NasImports.PageAdvances | backend/src/nasImport/nasImport.service.ts:231-294 | a page started anywhere up to the frontier takes exactly what a single pass would take next, and never ends behind the frontier |
| NasImports.PagedIsOnePass | backend/src/nasImport/nasImport.service.ts:231-294 | any sequence of pages from 0 or from returned cursors, resent pages included, has imported what one pass up to the frontier imports, once each and in order |
| NasImports.DoneIsEverything | backend/src/nasImport/nasImport.service.ts:288-293 | once a page says it is the last, that is the whole walk |
| NasImports.NasImportService.ImportBatch | backend/src/nasImport/nasImport.service.ts:231-294 | a call fails without effect when import is off or the share unknown, and otherwise returns and appends one page for the names already there |
| NasImports.NasImportService.Walked | backend/src/nasImport/nasImport.service.ts:247-270 | the loop yields such a page for every walk, cursor and limit |
| NasImports.ImportSelection | frontend/src/components/upload/UploadPage.tsx:372-394 | the client's loop ends, and the share then holds its old files and the first occurrence of every new name |
| Collections.RunIsSound | backend/src/reverseShare/reverseShare.service.ts:109-153 | in every interleaving the uses are accounted for, the container is a locked collection with one of two death dates, and every suspended write carries the right date |
| Collections.UsesAddUp | backend/src/share/contribution.service.ts:67-86 | while the link exists, uses left plus successful claims make the number it was created with; contributions never exceed it, and a claim is refused only when all uses are gone |
| Collections.ClaimsInTime | backend/src/share/contribution.service.ts:34-74 | in every interleaving there are no more claims, and calls about to claim, than looks by identified callers no later than the end |
| Collections.NoneOpensLate | backend/src/share/contribution.service.ts:34-41 | past the end a look lets nobody go on and changes nothing |
| Collections.SomeoneOpens | backend/src/share/contribution.service.ts:34-49 | up to the end, while the link exists, a look lets every identified caller go on |
| Collections.NeverUnfinished | backend/src/share/share.service.ts:428-441 | a container is never unlocked by reopening and never selected by the sweep of unfinished transfers |
| Collections.JobCloses | backend/src/jobs/jobs.service.ts:67-99 | past the end the job selects the collection exactly when its death date is not written yet, and its write writes it; a removed link has written it already |
| Collections.ClosingIsIdempotent | backend/src/jobs/jobs.service.ts:75-88 | on a closed collection the job does nothing |
| Collections.ClosedForGood | backend/src/jobs/jobs.service.ts:67-99 | once written, the death date never moves again in any run |
| Collections.RunInTime | backend/src/jobs/jobs.service.ts:24-58 | no run deletes a collection early under the bound, or when sweeping is off |
| Collections.PlaceholderRunsOut | backend/src/reverseShare/reverseShare.service.ts:117 | a run that deletes early when the retention outlasts the placeholder |
| Collections.NeverEarlyExactly | backend/src/jobs/jobs.service.ts:24-58 | for a file retention period that is not negative, no run deletes the collection before its end plus retention, if and only if the retention does not outlast the placeholder and that period |
| CollectionServices.CollectionStore.Create | backend/src/reverseShare/reverseShare.service.ts:82-153 | refused exactly when the address is taken; otherwise both rows appear and no other collection changes |
| CollectionServices.CollectionStore.Open | backend/src/share/contribution.service.ts:21-87 | over the rows themselves: not found without a share; closed exactly when it is no collection, has no link or has ended; forbidden exactly when it is open and the caller unknown; full exactly when a known caller finds no use; and otherwise one use is spent and one contribution added; a refusal changes nothing |
| CollectionServices.CollectionStore.CloseEndedCollections | backend/src/jobs/jobs.service.ts:67-104 | every container whose link has ended expires at its end plus retention, no other changes, and those that were not so before are counted |
| CollectionServices.CollectionStore.DeleteExpiredShares | backend/src/jobs/jobs.service.ts:24-58 | nothing when sweeping is off; otherwise deletes exactly those whose expiration is not 0 and is more than the period ago, with their links and contributions |
| CollectionServices.CollectionStore.DeleteUnfinishedShares | backend/src/jobs/jobs.service.ts:106-129 | deletes exactly those that are unlocked and were last touched before the cutoff |
| CollectionServices.CollectionStore.RemoveLink | backend/src/reverseShare/reverseShare.service.ts:270-294 | the link goes, the container stays and expires at its end plus retention |
| CollectionServices.CollectionStore.RevertComplete | backend/src/share/share.service.ts:428-441 | refused for a collection, which stays as it is; any other transfer is unlocked |
| CollectionServices.ClosedIsARun | backend/src/jobs/jobs.service.ts:67-99 | from any state the job can run alone, with something to close or nothing: its steps are in the relation, write what the job writes and leave no call behind |
| CollectionServices.RemovedIsARun | backend/src/reverseShare/reverseShare.service.ts:270-294 | so can the removal of a link |
| CollectionServices.SweptIsARun | backend/src/jobs/jobs.service.ts:24-58 | and the sweep of a container that has expired |
| CollectionServices.OpenIsARun | backend/src/share/contribution.service.ts:21-87 | from any state opening can run alone, turned away at the checks, at the claim or not at all: its steps are in the relation, and count a claim exactly when one is made |
| ThumbnailGate.RunIsSound | backend/src/file/thumbnail.service.ts:35-50 | in every order of arrivals and completions the counter is the number of slots held, at most four, with a queue only when all are held |
| ThumbnailGate.FourInOrder | backend/src/file/thumbnail.service.ts:35-50 | jobs go through in the order they came, and one waits only while four hold slots |
| ThumbnailGate.NoSlotIsLost | backend/src/file/thumbnail.service.ts:71-77 | some job holds a slot exactly while some job is unsettled, and the gate is empty exactly when all have settled, failures included |
| ThumbnailGate.SettlingCounts | backend/src/file/thumbnail.service.ts:71-77 | every holder can settle, and each completion leaves one job fewer |
| ThumbnailGate.ThumbnailService.AcquireSlot | backend/src/file/thumbnail.service.ts:35-41 | a call goes on only within the four slots, and otherwise waits at the end of the queue |
| ThumbnailGate.ThumbnailService.ReleaseSlot | backend/src/file/thumbnail.service.ts:46-50 | the oldest waiter gets the slot, and only an empty queue gives it back |
| AvatarFetch.HandleSettlesOnce | backend/src/avatar/avatar.fetch.ts:108-113 | a callback settles a hop exactly when the hop was unsettled and becomes settled, an unsettled hop never holds more than the cap, and success only comes from the end of a body |
| AvatarFetch.RunIsSound | backend/src/avatar/avatar.fetch.ts:74-192 | in every order of callbacks, late ones of earlier hops included, only the last hop can be unsettled and the caller waits exactly while it is |
| AvatarFetch.SettlesAtMostOnce | backend/src/avatar/avatar.fetch.ts:74-192 | at most one outcome, and at most maxRedirects + 1 requests |
| AvatarFetch.SettledForGood | backend/src/avatar/avatar.fetch.ts:108-113 | after the outcome nothing changes it and no request is opened |
| AvatarFetch.DeadlineSettles | backend/src/avatar/avatar.fetch.ts:99-106 | from the one deadline on, an unsettled call on whatever hop has a timer that settles it as too late and opens nothing |
| AvatarFetch.TimersAreLate | backend/src/avatar/avatar.fetch.ts:99-106 | and on no hop does that timer fire before the deadline |
| AvatarFetch.CallbacksComeAnyTime | backend/src/avatar/avatar.fetch.ts:124-187 | the runs leave none of it out: a failed request or a timeout of the socket can come at any time on any hop, any response to one that has had none, and any chunk, end or failure of a body that is being read |
| AvatarFetch.CauseExactly | backend/src/avatar/avatar.fetch.ts:108-187 | in every run, an open call is settled with an outcome exactly by the event of its last hop that the outcome comes from: a page's end, the two timers, a failure, a redirection refused or one too many, another status, a chunk above the cap |
| AvatarFetch.SuccessIsTheBody | backend/src/avatar/avatar.fetch.ts:155-168 | a successful result is the concatenation of the chunks delivered to the last hop before its end, within the cap |
| AvatarFetch.SuccessIsServed | backend/src/avatar/avatar.fetch.ts:124-168 | and that last hop was answered 200, and every one before it by a redirection to a location that was let in |
| AvatarFetch.FetchOnce.DoFinish | backend/src/avatar/avatar.fetch.ts:108-113 | only the first verdict counts |
| AvatarFetch.FetchOnce.OnTime | backend/src/avatar/avatar.fetch.ts:99-106 | deadline and socket timeout do the same step, after which the hop is settled, by it or before it |
| AvatarFetch.FetchOnce.OnError | backend/src/avatar/avatar.fetch.ts:169-187 | a failed request or body settles an open hop as a network failure |
| AvatarFetch.FetchOnce.OnResponse | backend/src/avatar/avatar.fetch.ts:124-153 | an open hop is followed or refused on 301, 302, 303, 307 and 308 with a location, read on 200, and otherwise rejected with its status; a hop settled before stays so, and a hop it settles has its request destroyed |
| AvatarFetch.FetchOnce.OnData | backend/src/avatar/avatar.fetch.ts:157-167 | every chunk is counted; within the cap it is kept, above it the hop is settled as too big and nothing of it kept |
| AvatarFetch.FetchOnce.OnEnd | backend/src/avatar/avatar.fetch.ts:168 | the step of the end of a body |
| HttpRange.AgreesWithSpec | backend/src/utils/range.util.ts:17-52 | for every spelling of a single range and every size, the result selects the bytes of section 2.1 of RFC 7233, and is null exactly when the range is invalid or selects none |
| HttpRange.OnlySpecsResolve | backend/src/utils/range.util.ts:17-31 | a header that yields a range spells one |
| HttpRange.PrintSpells | backend/src/utils/range.util.ts:26-31 | the printed form of a range spells it |
| HttpRange.TwoHalves | backend/src/utils/range.util.ts:17-52 | the first k bytes and the rest, asked for separately, make the file |

## Left out

- Payments.Confluent: a refund counts as accepted when some delivery of it, whose number no other first call bears between its two calls, was acknowledged without giving up, and the first payment delivery to name its intent did not fall between those two calls (`AcceptedAt`), because otherwise it is lost (`AnsweredLandsExactly`); a refund given up after six hours is not accepted.
- SoldWindows.SoldWindowsAreKept: the runs are those in which no expire, remove or sweep writes after a payment for the transfer was recorded since its look, the sweep of unfinished transfers takes none with a payment running, and no account is deleted with a transfer still sold, because otherwise the window is lost (`PaymentOvertakenByExpire`, `ReopenedTransferIsSwept`, `AccountDeleteKeepsExactly`); `ShareService.update` and `closeEndedCollections`, which write an expiration without asking for payments, the virus scan (`clamscan.service.ts:352-392`), which deletes the files of a transfer and marks it removed without asking either, and the `force` flag, which no caller passes, are outside the runs.
- Credentials.NoStaleCredential: claims nothing of sessions, devices and login tokens from OAuth or LDAP sign-in, which are minted outside the lock and carry a tag of their own.
- Credentials.Reachable: any waiting request may be the next to get the lock, a wider choice than the lock table of `CredentialLocks.dfy` leaves; account deletion, and a database failure between the password write and the end of its wipe, do not occur.
- Uploads.CeilingsHold: what is imported fits (`ImportKeepsExactly` is the exact condition); one request is one step, and requests cut at their awaits are in `UploadOverlap.dfy`; the virus scan, which only deletes, is a deletion.
- Uploads.AnyOrderIsResumable: one request is one step; `UploadCopies.OverlapIsResumable` is about requests cut at their awaits.
- UploadOverlaps.OverlapKeepsExactly: for a deposit, the tags of earlier files of its contribution have come; an owner's write into a collection, which the check measures against everybody's bytes, is `GuardCovers`.
- UploadOverlaps.CeilingsHoldUndisturbed: the look at the id and the guard of a contribution are one step, which begins the request; free space and quota are parameters of the step that checks them; the tag call after a chunk that is not the last, which finds no row unless another copy has finished the file, is not in the runs; an import or a deletion is one step.
- UploadCopies.OverlapIsResumable: no import draws the id of the file.
- SecretsMirror.OwnFileIsQuietExactly: no inner line of a value reads as a setting of a variable of the table (`Contained`), as otherwise it can set one (`InnerLineSetsAnother`), a blank included; `SecretsLines.FileReads` says what is read without that condition.
- Collections.RunIsSound: `ContributionService.complete`, which marks a contribution and rebuilds the archive, touches none of the rows of the runs and is not in them.
- Collections.NeverEarlyExactly: one life of one address; a call still suspended when the address is used again, and the owner's own edits, expiry and deletion of the container, are not in the runs.
- NasImports.PagedIsOnePass: the walk is a sequence, the same at every call; the recursive walk over directories and links is not part of this model.
- SecretsMirror.ConfigService.Update: it and the reload are each one step, with no other update at their awaits; the value is text, so of the validations only the empty share id length can be met; the environment fallback, `config.yaml`, the watch debounce and failures to write a file are not modelled.
- PublicAddress.IsPublicAddress: `net.isIPv6` is a parameter; octets that `Number` would read in a form other than decimal digits are taken as invalid, as `isIP` has refused them before.
- HttpRange.AgreesWithSpec: numbers are unbounded; in a double they round above the size of any file, where the result is the same.
- AvatarFetch.RunIsSound: whether the next location is admitted by `assertPublicUrl` is a parameter of the response.
- Access tokens, which are stateless and short-lived, and cryptography: a password stands for its hash, a code or a signature is right or not by parameter.
- Calendar arithmetic: ten years, retentions and windows are integers of one unit, the first a parameter.
- Lower and upper case outside ASCII, and object keys such as `__proto__`, in the parsers; stored limits that are not numbers.
- The storage quota as an invariant: expiry and edited limits move it; it is a parameter of each upload, like the free space.
- Crashes between steps, S3 storage, virus scans, thumbnails as files, mail, logs, controllers, request validation and the frontend, save the import loop.
