# A verified model of the budget

An envelope budget stores only two kinds of money rows: records on accounts, and amounts assigned to a category in a
month. Every balance, every "available" and "ready to assign" is a sum over them. The project models the operations that
write those rows, the sums that are read off them, and the algorithms around them, and proves what every run keeps.

| file | what it holds |
|---|---|
| `Common`, `Sums`, `Ledger`, `Figures`, `Store` | the tables, the aggregates as sums over finite maps and what each of them adds up, the database object and what an operation answers |
| `Accounts`, `Transactions`, `Transfers`, `Moves`, `Categories` | every write operation twice: a function giving the tables after it, and the steps over the database object proved equal to it |
| `Runs`, `Outcomes`, `Soundness`, `Conservation`, `Effects`, `Hiding` | the operations as one state machine: what each answers and leaves in the tables, its invariant, the equation its books obey, what each step moves, what undoes what, hidden envelopes |
| `Fingerprints`, `Mutations`, `Retries` | idempotency keys: request fingerprints, interleaved attempts with blocking inserts, the client that sends again |
| `Locks`, `LockedLedger` | row locks taken in id order with every step on its own, and their tie to the ledger |
| `TargetWindow`, `CategoryTargets`, `TargetProgress`, `GoalFigures` | goals: which one a month has, setting and closing over runs, what is asked for and still needed |
| `Feed` | the paged list of records, its day totals, the days on the screen, the other account of a transfer |
| `Decimals`, `Amounts`, `Expressions`, `Numerals` | amounts on the wire and as decimals, the reader of typed amounts, what a typed expression means, and which numbers can be written in it |
| `Orders` | shown and stored order, partial reorderings and the order they are written in |
| `BudgetCopy` | a tree un-joined from rows, renumbered, its live goals restarted |
| `RequestContext` | one budget lookup a request, and the mutation a request has open |
| `Calendar` | months as strings, and the instant a month starts at across a clock change |

## Main results

- **The books balance in every reachable state.** Open balances equal ready to assign plus all-time available over all
  categories (`Conservation.AlwaysConserved`); each step moves exactly the amounts stated for it (`Effects.StepEffect`),
  and the errors the code holds to be impossible are unreachable (`Soundness.NothingBreaks`).
- **Each operation is told by its tables alone** (`Outcomes`): it goes through if and only if its guards hold, answers the
  first that fails, leaves these rows and no others, and changes the figures of each category and month by just so much
  (`Outcomes.MonthEffect`).
- **A key is used once under every interleaving** (`Mutations.OnceAKey`), every answer is a committed one
  (`Mutations.AnswerIsCommitted`), and the ledger is the committed works in order (`Mutations.LedgerIsTheLog`).
- **A form sends one body a key** over every run of losses, refusals, retries and discards (`Retries.KeyHasOneBody`), so
  its saves are committed at most once (`Retries.SavedAtMostOnce`) and never answered with a conflict
  (`Retries.NeverConflicted`).
- **Archived accounts stay empty with locks as steps** (`Locks.ArchivedHoldsNothing`), hidden categories hold exactly what
  was inserted too late (`Locks.ClosedHoldsTheLate`), nobody deadlocks (`Locks.NoCycle`, `Locks.SomebodyMoves`), and the
  interleaved steps show the accounts of a run of whole commands (`LockedLedger.InterleavingIsARun`).
- **Raw statements run on the open mutation's own client** in every state of a request
  (`RequestContext.StatementsRunOnItsClient`).
- **The past of a goal is never rewritten** (`CategoryTargets.PastIsNeverRewritten`), and instalments are even
  (`TargetProgress.EvenInstalments`).
- **Paging is exact** (`Feed.PagingIsExact`) and every day shows its whole total (`Feed.FeedShowsWholeDays`).
- **A typed amount means what it says** (`Expressions.ReadsWhatIsMeant`), each product worked exactly over the reals and
  rounded once; a term is read if and only if it is a number as people write them (`Numerals.JustTypedTermsAreRead`).

## Where the code falls short

The model follows the code; each of these is a concrete run, next to the exact condition under which the promise holds.

- The message of a refused record says that "a hidden envelope takes no new money"
  (`apps/api/src/transactions/transactions.service.ts:38`), yet a record already in a hidden category can be edited
  (`apps/api/src/transactions/entry-rules.ts:52`) or removed, which leaves money, or a debt, in an envelope nobody sees:
  `Hiding.HiddenCanComeToHoldMoney`, and `Hiding.HiddenStayEmpty` for which steps do.
- A record reads its category without a lock (`apps/api/src/transactions/transactions.service.ts:359-367`), so one that
  reads before a hide and inserts after it leaves its amount in the hidden category: `Locks.HiddenCanHoldALateRecord`,
  and `Locks.ClosedHoldsTheLate` for how much is there.
- The key of a move is renewed so that it carries one body, yet Try again checks nothing but the body
  (`apps/web/src/components/budget-month.tsx:547-552`): pressed twice, the second reading of the month can take away the
  spinner of a later move, whose key then can be sent with another body: `Retries.ImpatientCanReuse`, and
  `Retries.SafeToSubmit` for when a save is safe.
- The budget is said to be resolved once per request (`apps/api/src/request-context/request-context.service.ts:72-77`),
  yet a lookup under way replaces one that was recorded meanwhile: `RequestContext.LookupOverwrites`, and
  `RequestContext.BudgetGivesWay` for when.

## How to read it

Tables are maps from ids to rows. Identifiers are numbers, so "the order of ids" is theirs. Moments, minted identifiers
and "today" are parameters of an operation; `Runs.Supplied` says what the database and the clock provide: identifiers not
yet in use, and moments of hiding that move on. A month is a number in every module but `Calendar`, which ties numbers
to the strings and their order. Amounts are mathematical integers.

Where the source changes state there is a class with methods whose `ensures` give the new state as a function of the
old; the lemmas are about those functions. A few recursive definitions are split over several functions, or recurse where
a quantifier would do, so that a proof unfolds them only where it means to; `Sums.Sum` and `Decimals.AllDigits` are two.

## Model

| member | source | states |
|---|---|---|
| Accounts.RefusalOfHeld | apps/api/src/accounts/open-accounts.ts:13-26 | The loop over the accounts asked for answers exactly the first refusal: unknown, or archived. |
| Accounts.Create | apps/api/src/accounts/accounts.service.ts:71-107 | Writes the account and its one opening record, dated today, and nothing else. |
| Accounts.Archive | apps/api/src/accounts/accounts.service.ts:148-183 | Archives an open account whose records sum to zero; refuses an unknown, archived or non-empty one and writes nothing. |
| Accounts.CorrectOpening | apps/api/src/accounts/accounts.service.ts:185-222 | Rewrites the amount of the opening record, only while nothing but the opening is recorded; a missing opening is the internal fault. |
| Accounts.Reconcile | apps/api/src/accounts/accounts.service.ts:224-273 | Writes one adjustment of the difference to the stated balance, and none when there is no difference. |
| Transactions.RefuseWrite | apps/api/src/transactions/transactions.service.ts:343-383 | Locks and checks the accounts, then the category, then the rules, and answers the first refusal in that order. |
| Transactions.Create | apps/api/src/transactions/transactions.service.ts:119-156 | Writes the record with the sign its kind gives it, or the first refusal and nothing. |
| Transactions.Update | apps/api/src/transactions/transactions.service.ts:158-205 | Rewrites an editable record; the category it already had is let through even when hidden. |
| Transactions.Remove | apps/api/src/transactions/transactions.service.ts:207-236 | Deletes an editable record of an open account, and no other row. |
| Transfers.FindPair | apps/api/src/transfers/transfers.service.ts:54-66 | Scanning the rows of a transfer finds the pair exactly when there are two, one below zero and one above. |
| Transfers.PairIsUnique | apps/api/src/transfers/transfers.service.ts:54-66 | The two legs found do not depend on the order the rows come in. |
| Transfers.FoundJustWhen | apps/api/src/transfers/transfers.service.ts:54-66 | A pair is found just when the rows are these two, the one below zero and the other above. |
| Transfers.InLegWriteOrder | apps/api/src/transfers/transfer-rules.ts:36-38 | The legs are written in ascending id order, each once. |
| Transfers.RefuseWrite | apps/api/src/transfers/transfers.service.ts:236-261 | Checks the accounts held, then the rules of a transfer, and answers the first refusal. |
| Transfers.Create | apps/api/src/transfers/transfers.service.ts:102-147 | Writes the two legs of a transfer, mirrored, or the first refusal and nothing. |
| Transfers.WriteLegs | apps/api/src/transfers/transfers.service.ts:165-200 | The loop over the legs in write order leaves both as drafted, whichever is written first. |
| Transfers.DropLegs | apps/api/src/transfers/transfers.service.ts:204-225 | The loop over the legs deletes both and no other row. |
| Transfers.LegsStayAPair | apps/api/src/transfers/transfers.service.ts:176-199 | The legs as rewritten carry the same transfer and are again a pair, outgoing and incoming as before, so the second look for the pair never fails. |
| Transfers.Update | apps/api/src/transfers/transfers.service.ts:149-202 | Rewrites both legs of a transfer, or refuses, or reports rows that are not a pair, before the write or after it. |
| Transfers.Remove | apps/api/src/transfers/transfers.service.ts:204-225 | Deletes both legs of a transfer and no other row. |
| Moves.InLockOrder | apps/api/src/moves/moves.service.ts:94-99 | The category sides in strictly ascending id order, each side of the move once, the pool not among them. |
| Moves.RefuseUnusableCategories | apps/api/src/moves/moves.service.ts:170-207 | The first side in lock order that is missing or hidden is what is refused. |
| Moves.NoRefusal | apps/api/src/moves/moves.service.ts:170-207 | Nothing is refused exactly when every side names a visible category. |
| Moves.LaidInAnyOrder | apps/api/src/moves/moves.service.ts:139-158 | Upserting the sides in lock order leaves what upserting the giver and then the taker leaves. |
| Moves.Upsert | apps/api/src/moves/moves.service.ts:139-158 | The row of a category and month is created with the delta or grows by it. |
| Moves.WriteSides | apps/api/src/moves/moves.service.ts:139-158 | The loop of upserts takes the amount off one row of the month and adds it to the other, creating what is missing. |
| Moves.Move | apps/api/src/moves/moves.service.ts:108-168 | Moves the amount between two envelopes of a month, or the first refusal and nothing. |
| Categories.RefuseWhatStillHoldsMoney | apps/api/src/categories/available.ts:29-63 | Hiding is refused exactly when one of the categories has a non-zero all-time available, and names the least such. |
| Categories.CreateGroup | apps/api/src/categories/category-groups.service.ts:52-72 | Writes one visible group and nothing else. |
| Categories.RefuseGroup | apps/api/src/categories/categories.service.ts:283-301 | A group is refused exactly when it is missing or hidden. |
| Categories.Create | apps/api/src/categories/categories.service.ts:68-102 | Writes one visible category into a visible group, or a refusal and nothing. |
| Categories.Hide | apps/api/src/categories/categories.service.ts:160-191 | Marks one visible category that holds nothing. |
| Categories.Unhide | apps/api/src/categories/categories.service.ts:193-208 | Clears the marker, unless the group is hidden. |
| Categories.Regroup | apps/api/src/categories/categories.service.ts:104-158 | Puts a category into another group, never into a hidden one, and refuses first a new default account that is unknown or archived. |
| Categories.Remark | apps/api/src/categories/category-groups.service.ts:94-159 | The loop over the rows gives exactly the named categories the marker and leaves every other as it was. |
| Categories.HideGroup | apps/api/src/categories/category-groups.service.ts:94-133 | Marks the group and every still visible category of it with one moment, only when all of them, hidden ones included, hold nothing. |
| Categories.UnhideGroup | apps/api/src/categories/category-groups.service.ts:135-159 | Clears the marker of the group and of exactly those categories that carry the same moment. |
| Store.SumOfTxns | apps/api/src/accounts/account-balance.query.ts:9-21 | Adding up the rows one at a time, in any order, gives the SUM the statement asks for. |
| Store.SumOfAssignments | apps/api/src/budget-view/budget-view.query.ts:68-80 | The same for the sums over assignments. |
| Figures.BalanceIsItsRecords | apps/api/src/accounts/account-balance.query.ts:9-21 | A balance is the sum of every record of the account. |
| Figures.ReadyToAssignIs | apps/api/src/budget-view/budget-view.query.ts:120-124 | Ready to assign is every record without a category less everything assigned in any month. |
| Figures.ActivityIsItsRecords | apps/api/src/budget-view/budget-view.query.ts:62-64 | The activity of a month is the sum of the records of the category dated in it. |
| Figures.AvailableIs | apps/api/src/budget-view/budget-view.query.ts:65-75 | What is available in a month is everything assigned and recorded in the category up to its end. |
| Figures.AvailableAllTimeIs | apps/api/src/budget-view/budget-view.query.ts:66-76 | The all-time available takes every month, those to come included. |
| Figures.AssignedIsTheRow | apps/api/src/budget-view/budget-view.query.ts:74 | What was assigned in a month is the one row of the category and month. |
| Outcomes.EarlierIsBefore | apps/api/src/transactions/entry-rules.ts:40-46 | Dates are compared as days are counted. |
| Outcomes.CreateAccountOutcome | apps/api/src/accounts/accounts.service.ts:71-107 | The tables after it: one open account and its opening record, every field given. |
| Outcomes.ArchiveOutcome | apps/api/src/accounts/accounts.service.ts:148-183 | Refused if unknown, then if archived, then if its records do not sum to zero, with the sum; else only its mark is set. |
| Outcomes.CorrectOpeningOutcome | apps/api/src/accounts/accounts.service.ts:185-222 | Refused if unknown, archived, or if a record that is not the app’s stands on it; else its opening takes the amount. |
| Outcomes.ReconcileOutcome | apps/api/src/accounts/accounts.service.ts:224-273 | Refused if unknown or archived; else one record of the difference, dated today, or none. |
| Outcomes.CreateRecordOutcome | apps/api/src/transactions/entry-rules.ts:39-53 | A record goes through if and only if its account is open, its day not before the account was opened nor after today, an expense names a category, and the category is known and shown; each refusal is that of the first guard that fails, and the row written is given field by field. |
| Outcomes.UpdateRecordOutcome | apps/api/src/transactions/transactions.service.ts:158-205 | The same for an edit, whose own category may be hidden and whose account until now has to be open too. |
| Outcomes.RemoveRecordOutcome | apps/api/src/transactions/transactions.service.ts:207-236 | Refused if unknown, of the app or a leg, or on an archived account; else just this row goes. |
| Outcomes.CreateTransferOutcome | apps/api/src/transfers/transfer-rules.ts:20-34 | Refused for unknown, then archived accounts, one account twice, a day to come, a day before either was opened, in this order; else two mirrored legs, field by field. |
| Outcomes.UpdateTransferOutcome | apps/api/src/transfers/transfers.service.ts:149-202 | The same guards, with the accounts until now open too; each leg takes its account, amount and the new day, and no other row changes. |
| Outcomes.RemoveTransferOutcome | apps/api/src/transfers/transfers.service.ts:204-225 | Refused if unknown or a leg’s account is archived; else just the rows of the transfer go. |
| Outcomes.MoveOutcome | apps/api/src/moves/moves.service.ts:108-207 | A move goes through if and only if it names two envelopes, each the pool or a category that is shown; of two bad sides the one of the smaller id is refused. |
| Outcomes.MoveInItsMonth | apps/api/src/moves/moves.service.ts:139-158 | For every category and month, what is assigned changes by the move’s amount on its two sides in its month, and nowhere else. |
| Outcomes.CreateOutcome | apps/api/src/categories/categories.service.ts:68-102 | A category is written shown and into a group that is shown; a group is written shown. |
| Outcomes.RegroupOutcome | apps/api/src/categories/categories.service.ts:104-158 | Refused for an unknown category, a default account unknown or archived, a new group missing or hidden, in this order; else only the group changes. |
| Outcomes.HideOutcome | apps/api/src/categories/categories.service.ts:160-191 | Refused if unknown, hidden, or holding money, with what it holds; else marked with the moment. |
| Outcomes.UnhideOutcome | apps/api/src/categories/categories.service.ts:193-208 | Refused if unknown or its group is missing or hidden; else its marker is cleared. |
| Outcomes.HideGroupOutcome | apps/api/src/categories/category-groups.service.ts:94-133 | Refused if unknown, hidden, or if anything in it, hidden or not, holds money, naming the first by id; else it and what is shown in it are marked with the moment. |
| Outcomes.UnhideGroupOutcome | apps/api/src/categories/category-groups.service.ts:135-159 | Clears the marker of the group and of what carries the same one in it. |
| Outcomes.MonthEffect | apps/api/src/budget-view/budget-view.query.ts:59-80 | Every operation that goes through changes the activity and the assignment of each category and month by exactly the amount stated. |
| Soundness.StepKeeps | apps/api/src/transfers/transfers.service.ts:117-233 | Every operation keeps the whole invariant: references hold, archived accounts are empty, transfers are mirrored pairs, every account has one opening, hidden groups hide all they hold. |
| Soundness.ReachableIsSound | apps/api/src/accounts/accounts.service.ts:71-107 | The invariant holds in every state any run of the operations can reach. |
| Soundness.NothingBreaks | apps/api/src/accounts/accounts.service.ts:204-212 | In no reachable state does an operation meet one of the errors the code holds to be impossible: no opening balance, not a pair. |
| Soundness.FoundPair | apps/api/src/transfers/transfers.service.ts:54-66 | A transfer in a sound state is found, and its legs carry opposite amounts on one day, in two accounts, without a category. |
| Conservation.BalancesAddUp | apps/api/src/accounts/account-balances.query.ts:14-48 | The total over the open accounts is the sum of every record, because archived ones are empty. |
| Conservation.Conserved | apps/api/src/budget-view/budget-view.query.ts:59-136 | What the open accounts hold is ready to assign plus the all-time available of every category, hidden ones included. |
| Conservation.AlwaysConserved | apps/api/src/budget-view/budget-view.query.ts:59-136 | That equation in every reachable state. |
| Effects.StepEffect | apps/api/src/budget-view/budget-view.query.ts:59-136 | Every operation that goes through changes each account and each envelope by exactly the amount stated for it and no other. |
| Effects.TotalMovesByRecordsOnly | apps/api/src/moves/moves.service.ts:139-158 | Moves, transfers, hides and archives leave the total of the open accounts; records, openings and reconciliations move it by their amount. |
| Effects.RemoveUndoesCreate | apps/api/src/transactions/transactions.service.ts:207-236 | Removing the record just created gives back the tables as they were. |
| Effects.RemoveUndoesTransfer | apps/api/src/transfers/transfers.service.ts:204-225 | Removing the transfer just created gives back the tables as they were. |
| Effects.ReconcilingTwiceWritesOnce | apps/api/src/accounts/accounts.service.ts:224-273 | After a reconciliation the balance is the one stated, and repeating it writes nothing. |
| Hiding.UnhideGivesBack | apps/api/src/categories/category-groups.service.ts:94-159 | Whatever runs between hiding a group and unhiding it, every category still in it gets back the marker it had before the hide, and no other changes. |
| Hiding.HiddenStayEmpty | apps/api/src/transactions/entry-rules.ts:39-53 | Hidden categories stay empty after a step if and only if the step is not the removal of a record in one, nor an edit of its amount or category, that the guards on records, accounts and drafts let through. |
| Hiding.HiddenCanComeToHoldMoney | apps/api/src/transactions/entry-rules.ts:52 | A reachable state, and a removal in it, after which a hidden category holds money. |
| Fingerprints.CanonicalKeepsMeaning | apps/api/src/mutations/mutation.service.ts:27-51 | Sorting the keys of a request at every depth changes nothing about what it means. |
| Fingerprints.SameMeaningSameForm | apps/api/src/mutations/mutation.service.ts:27-51 | Two canonical requests that mean the same are the same, so key order cannot tell them apart. |
| Fingerprints.FingerprintIsMeaning | apps/api/src/mutations/mutation.service.ts:53-57 | Two requests have one fingerprint exactly when they mean the same. |
| Mutations.OnceAKey | apps/api/src/mutations/mutation.service.ts:91-120 | Under every interleaving at most one attempt of a key is committed between two erasures. |
| Mutations.AnswerIsCommitted | apps/api/src/mutations/mutation.service.ts:107-144 | Whoever is answered is answered the stored result of a committed attempt with the same key and meaning. |
| Mutations.ConflictIsReal | apps/api/src/mutations/mutation.service.ts:133-141 | A conflict is answered only to a request that means something else than the one that took the key. |
| Mutations.SameKeySameAnswer | apps/api/src/mutations/mutation.service.ts:107-144 | All who are answered under one key are answered alike. |
| Mutations.FailureLeavesNothing | apps/api/src/mutations/mutation.service.ts:91-120 | An attempt that was not answered has committed nothing and holds no claim. |
| Mutations.LedgerIsTheLog | apps/api/src/mutations/mutation.service.ts:91-120 | The ledger is the fold of the committed works in commit order, and its books balance. |
| Mutations.RetryGoesThrough | apps/api/src/mutations/mutation.service.ts:91-105 | With the key free, a retry claims it, commits, and adds exactly its own work. |
| Mutations.RepeatIsReplayed | apps/api/src/mutations/mutation.service.ts:110-144 | A repeat of a committed request writes nothing and is answered the stored result, or a conflict if it means something else. |
| Mutations.InsertDecides | apps/api/src/mutations/mutation.service.ts:96-99 | An insert of a key clashes if it is claimed, waits exactly while another open transaction holds it, and holds it otherwise. |
| Mutations.LookUpDecides | apps/api/src/mutations/mutation.service.ts:107-144 | After a clash: failed if the key was erased since, answered if the first request means the same, a conflict if not. |
| Mutations.CommitDecides | apps/api/src/mutations/mutation.service.ts:94-105 | A commit writes claim, result and work together; other claims stay, or for an erasure at most stay. |
| Mutations.FailureDecides | apps/api/src/mutations/mutation.service.ts:107-110 | Every other end of an attempt leaves claims, log and ledger as they were. |
| Mutations.CommitKeepsClaims | apps/api/src/me/me.service.ts:30-43 | Whatever an erasure spares besides its own key, every claim is that of a committed entry, and every entry with no erasure committed after it has its claim. |
| Retries.Form.OpenMove | apps/web/src/components/budget-month.tsx:505-536 | A popover opens under a new key, and only with nothing under way, nothing to send again and no reading after a discard. |
| Retries.Form.CommitMove | apps/web/src/components/budget-month.tsx:475-503 | Sends nothing while something is under way or to be sent again; what a sound form sends goes out under a key no sending has carried. |
| Retries.Form.TryAgain | apps/web/src/components/budget-month.tsx:547-552 | Sends the very body that is kept, under its old key, and checks nothing else. |
| Retries.Form.OnSuccess | apps/web/src/components/budget-month.tsx:233-239 | Closes the popover and drops the body; the spinner stays until the month is read again. |
| Retries.Form.OnError | apps/web/src/components/budget-month.tsx:240-264 | Only a failure with no answer keeps the body; after any other a popover that stays open holds a key no sending has carried, and a sound form stays sound. |
| Retries.Form.Discarded | apps/web/src/components/budget-month.tsx:385-399 | Drops the popover and the body to send again, and blocks the form for the reading that follows if there was one. |
| Retries.PatientIsSound | apps/web/src/components/budget-month.tsx:187-264 | Over every run in which Try again is pressed only with nothing under way: one sending at a time, one body a key, all sendings of a key but its last lost, and a key in the popover is unsent or cannot be sent. |
| Retries.PatientNeverReuses | apps/web/src/components/budget-month.tsx:475-503 | In such a run every save that is submitted goes out under a key never sent before. |
| Retries.KeyHasOneBody | apps/web/src/components/budget-month.tsx:231-264 | In every run that never submits under a key already sent, whatever is lost, refused, tried again, even twice, or discarded, all sendings of one key carry one body. |
| Retries.SafeToSubmit | apps/web/src/components/budget-month.tsx:475-503 | The next save keeps that whatever it carries if and only if the key in a popover free to send was never sent. |
| Retries.ImpatientCanReuse | apps/web/src/components/budget-month.tsx:547-552 | A run, with Try again pressed twice, that ends with a popover free to send under a key already sent. |
| Retries.AnsweredKeyIsDone | apps/web/src/lib/save-failure.ts:38-40 | A save that came back with an answer, good or bad, is never sent again; later sendings have other keys. |
| Retries.FailureDecides | apps/web/src/lib/save-failure.ts:15-44 | What each failure means: no answer keeps body and key, a missing budget closes the popover, any other answer mints a new key; status 409 is a conflict. |
| Retries.SubmitDecides | apps/web/src/components/budget-month.tsx:475-536 | What opening and submitting do, and that neither does anything while the form is blocked. |
| Retries.AnswerDecides | apps/web/src/components/budget-month.tsx:233-239 | What trying again, an answer, the end of a reading and a discard do, field by field. |
| Retries.SavedAtMostOnce | apps/web/src/lib/save-failure.ts:38-40 | However often a save of such a form is sent, only its own work is committed under its key, and at most once between two erasures. |
| Retries.AnsweredWasSaved | apps/web/src/lib/save-failure.ts:38-40 | A save such a form was told is done is committed exactly once, with the work that was sent, as long as nothing was erased. |
| Retries.NeverConflicted | apps/api/src/mutations/mutation.service.ts:133-141 | No attempt under a key of such a form is ever told that the key belongs to a different request. |
| Locks.ClosedHoldsTheLate | apps/api/src/transactions/transactions.service.ts:343-383 | In every interleaving of the single steps a closed row holds exactly the sum of the records that looked at it before it was closed and inserted after. |
| Locks.ClosedHoldsNothing | apps/api/src/categories/available.ts:15-45 | So a hidden category no record was late for holds nothing, against moves, hides and group hides in any interleaving. |
| Locks.ArchivedHoldsNothing | apps/api/src/accounts/open-accounts.ts:28-68 | On accounts, where every write locks first, nothing is ever late, and no interleaving leaves money in an archived one. |
| Locks.HiddenCanHoldALateRecord | apps/api/src/transactions/transactions.service.ts:359-367 | The interleaving: a record reads its category unlocked, a hide locks, sums, marks and commits, the record inserts, and the hidden category holds its money. |
| Locks.ClosedIsFinal | apps/api/src/accounts/accounts.service.ts:148-183 | A closed row stays closed, and a step changes it if and only if it is the late insert of a record, by its amount. |
| Locks.JudgedIsStillSo | apps/api/src/accounts/open-accounts.ts:28-68 | What was judged under a lock, open and, before closing, empty, is so still when the process commits. |
| Locks.LookDecides | apps/api/src/transactions/transactions.service.ts:359-367 | A record is refused by a category missing, or hidden already, when it looks. |
| Locks.JudgeDecides | apps/api/src/accounts/open-accounts.ts:13-26 | Every other write is refused a row missing or closed, but for hiding a group around a hidden category. |
| Locks.CloseDecides | apps/api/src/categories/available.ts:52-63 | A close goes on exactly over rows that hold nothing. |
| Locks.CommitDecides | apps/api/src/accounts/accounts.service.ts:148-273 | What a commit leaves in each row: paid into, settled, closed, or as it was. |
| Locks.TakeDecides | apps/api/src/accounts/account-lock.query.ts:5-33 | A row is locked unless another holds it, and writers of records do not wait for one another; what is seen under the lock is what is there. |
| Locks.HoldersShare | apps/api/src/accounts/account-lock.query.ts:5-33 | Only writers of records hold a row together. |
| Locks.SettledExactly | apps/api/src/accounts/accounts.service.ts:224-273 | A reconciliation that commits leaves the stated balance, whatever else was in flight. |
| Locks.WaitsAscend | apps/api/src/accounts/account-lock.query.ts:5-33 | Whoever makes another wait is waiting, if at all, for a later row. |
| Locks.NoCycle | apps/api/src/accounts/account-lock.query.ts:26-32 | No chain of waits comes back to where it began. |
| Locks.SomebodyMoves | apps/api/src/categories/category-available.query.ts:16-30 | As long as a process runs, one of them can take its next step. |
| LockedLedger.CreateOpens | apps/api/src/accounts/accounts.service.ts:88-102 | Creating an account adds one open row that holds its opening, of whatever amount. |
| LockedLedger.JobIsProper | apps/api/src/accounts/open-accounts.ts:28-68 | A command locks each of its accounts once in ascending order and pays into no other. |
| LockedLedger.CommitGoesThrough | apps/api/src/accounts/open-accounts.ts:28-68 | A process that commits would not be refused for its accounts by the ledger as it is at that moment. |
| LockedLedger.CommitIsStep | apps/api/src/accounts/accounts.service.ts:148-183 | The commit of a process leaves the same accounts and balances as the whole command executed at once. |
| LockedLedger.InterleavingIsARun | apps/api/src/accounts/open-accounts.ts:28-68 | Every interleaving of archiving, reconciling, correcting, records and transfers shows at every moment the accounts of a run that executes whole commands in commit order. |
| LockedLedger.WritesPay | apps/api/src/accounts/open-accounts.ts:28-68 | A record, a transfer, a reconciliation or a corrected opening changes the balances of the accounts it locks and of no other. |
| LockedLedger.ArchiveCloses | apps/api/src/accounts/accounts.service.ts:148-183 | Archiving in the ledger is closing the one locked row, which holds nothing. |
| LockedLedger.MovePays | apps/api/src/moves/moves.service.ts:139-158 | A move changes what the categories it locks hold and no other. |
| LockedLedger.HideCloses | apps/api/src/categories/categories.service.ts:160-191 | Hiding a category is closing the one locked row. |
| LockedLedger.GroupHideCloses | apps/api/src/categories/category-groups.service.ts:94-133 | Hiding a group is closing the rows of all its categories. |
| TargetWindow.ActiveIsPick | apps/api/src/categories/target-window.ts:17-36 | The goal reduced to is one shown in the month, none started later, and there is none only when none is shown. |
| TargetWindow.LiveIsPick | apps/api/src/categories/target-window.ts:38-50 | The same for the goals a write may work on. |
| TargetWindow.DistinctOnIsActive | apps/api/src/budget-view/budget-view.query.ts:81-95 | With distinct starts the statement’s DISTINCT ON and the write rules pick the same goal, whatever order the rows come in. |
| CategoryTargets.Targets.SetTarget | apps/api/src/categories/category-targets.service.ts:95-157 | The four branches leave exactly the rows the rule gives, or a refusal and no change. |
| CategoryTargets.Targets.CloseTarget | apps/api/src/categories/category-targets.service.ts:159-186 | Ends the goal shown this month with this month, or refuses. |
| CategoryTargets.Targets.Update | apps/api/src/categories/category-targets.service.ts:110-142 | The loop over the rows changes exactly the rows with the id. |
| CategoryTargets.SetKeeps | apps/api/src/categories/category-targets.service.ts:95-157 | Setting keeps starts ascending and every window over by the next start, and leaves every earlier month as it was. |
| CategoryTargets.CloseKeeps | apps/api/src/categories/category-targets.service.ts:159-186 | So does closing. |
| CategoryTargets.AtMostOneLive | apps/api/src/categories/target-window.ts:38-50 | At most one goal of a category is live. |
| CategoryTargets.SetLeaves | apps/api/src/categories/category-targets.service.ts:76-157 | The rows a set leaves, or its refusal: the last goal edited in place, ended with the month before, or let be, and a new one behind it or not. |
| CategoryTargets.CloseLeaves | apps/api/src/categories/category-targets.service.ts:159-204 | The rows a close leaves, or its refusal: the last goal ended with this month if it is shown in it. |
| CategoryTargets.PastIsNeverRewritten | apps/api/src/categories/category-targets.service.ts:95-183 | Whatever is set and closed from a month on, every month before it keeps its goal and the goal’s kind. |
| CategoryTargets.ReadPicksTheActive | apps/api/src/budget-view/budget-view.query.ts:81-95 | In every state of a run the statement reads exactly the goal the rules call active. |
| CategoryTargets.SetIsShown | apps/api/src/categories/category-targets.service.ts:95-157 | A goal that was set is the one shown this month, as asked and open-ended. |
| CategoryTargets.CloseIsTheEnd | apps/api/src/categories/category-targets.service.ts:159-186 | A closed goal is still shown in its last month, and none is shown after. |
| TargetProgress.RollsForward | apps/api/src/budget-view/budget-view.query.ts:59-80 | Available is the month before’s available plus what was assigned and what happened this month. |
| TargetProgress.CarriesOver | apps/api/src/budget-view/target-progress.ts:35-36 | The carryover and the carry-in are the availables of the month before and of the month before the start. |
| GoalFigures.AccumulateShows | apps/api/src/budget-view/target-progress.ts:60-65 | Saving up: progress is what was available before the start plus what was assigned since, the rest remains, nothing is asked of the month. |
| GoalFigures.ContributeShows | apps/api/src/budget-view/target-progress.ts:51-58 | A fixed amount each month: the month is asked for it, and what is assigned counts. |
| GoalFigures.RefillShows | apps/api/src/budget-view/target-progress.ts:39-49 | Filling up: the month is asked for what the month before left missing. |
| GoalFigures.ByDateShows | apps/api/src/budget-view/target-progress.ts:60-78 | Saving by a date: what was missing before the month is divided by the months to the date, and needed is that less what was laid. |
| TargetProgress.SpendingLeavesTheGoal | apps/api/src/budget-view/target-progress.ts:30-79 | For every kind, writing or rewriting a record dated in a month changes nothing a goal shows for that month. |
| TargetProgress.RemovingLeavesTheGoal | apps/api/src/budget-view/target-progress.ts:30-79 | Nor does removing one. |
| TargetProgress.NeededIsExact | apps/api/src/budget-view/target-progress.ts:39-78 | Laying any amount leaves what the month asks for and lowers what is needed by as much, down to zero exactly when it suffices. |
| TargetProgress.NeededCloses | apps/api/src/budget-view/target-progress.ts:39-78 | Laying what is needed leaves nothing remaining, for a goal by a date in its due month. |
| TargetProgress.NeededIsRemaining | apps/api/src/budget-view/target-progress.ts:39-48 | For a goal refilled to an amount, what is needed is what remains if and only if no money net was taken back this month or what came before is within the amount. |
| TargetProgress.PoolMoveLays | apps/api/src/moves/moves.service.ts:139-158 | A move out of the pool lays exactly its amount on the category and month. |
| TargetProgress.AlwaysDivides | apps/api/src/budget-view/target-progress.ts:67-72 | No state of a run of goals holds one by a date without a due month, so that error cannot be raised. |
| TargetProgress.EvenInstalments | apps/api/src/budget-view/target-progress.ts:60-78 | Followed month by month, the asks are the quotient, and one more in as many of the last months as the remainder counts, of what was left to spread. |
| TargetProgress.SharesAreEven | apps/api/src/budget-view/target-progress.ts:74-76 | Such shares never shrink, differ by one at most, and add up to the whole amount. |
| TargetProgress.LastInstalmentMeetsTheGoal | apps/api/src/budget-view/target-progress.ts:60-78 | Laying what the due month needs meets the goal. |
| TargetProgress.DividedIsQuotient | apps/api/src/budget-view/target-progress.ts:74-76 | The repeated subtraction the model divides with is integer division. |
| Feed.PagingIsExact | apps/api/src/transactions/transactions.service.ts:238-263 | Pages followed from cursor to cursor end, and put end to end are the filtered list, newest first, no record twice and none left out. |
| Feed.PagesAreFull | apps/api/src/transactions/transactions.service.ts:243-262 | Every page but the last is full, and none is empty but the only page of an empty list. |
| Feed.RestOfTheList | apps/api/src/transactions/transactions.service.ts:400-409 | The records older than a cursor are the rest of the list behind it. |
| Feed.FeedLists | apps/api/src/transactions/transactions.service.ts:238-306 | Read to the end the pages list just the records asked for, filter by filter, the latest day, moment and id first. |
| Feed.TotalsAreWhole | apps/api/src/transactions/transactions.service.ts:320-341 | Although they are summed over the page’s own range of days, the totals are those of whole days of the query. |
| Feed.DayTotalIs | apps/api/src/transactions/transactions.service.ts:320-341 | A day’s total is the sum of the records of that day that are asked for. |
| Feed.FeedDays | apps/web/src/lib/transaction-feed.ts:28-52 | The loop groups the records into runs of one date in their order, each with the first total given for it, zero without one. |
| Feed.DaysAreNamed | apps/web/src/lib/transaction-feed.ts:16-26 | Today and the day before are named, no other day is. |
| Feed.FeedShowsWholeDays | apps/web/src/lib/transaction-feed.ts:28-52 | However many pages are read, each date is shown once, latest first, with the total of its whole day. |
| Feed.FeedHoldsWholeDays | apps/web/src/lib/transaction-feed.ts:28-52 | Read to the end, a day holds every record of its date the query asks for, and only those. |
| Feed.CounterpartIsTheOther | apps/api/src/transactions/transactions.service.ts:66-76 | In a sound state a transfer leg names the account of the other leg; a record that is no leg names none. |
| Decimals.MoneyIsReadBack | packages/types/src/money.ts:3-28 | Every amount is read back from the string it is serialised as. |
| Decimals.MoneyIsCanonical | packages/types/src/money.ts:19-28 | Every string that is accepted is the one its amount is serialised as. |
| Numerals.MoneyIsWritten | packages/types/src/money.ts:3-5 | An amount on the wire is its digits without a nought in front, behind a hyphen if it is below zero. |
| Decimals.StorableIsOf64Bits | packages/types/src/money.ts:7-13 | What can be stored is just what a signed number of sixty-four bits holds. |
| Decimals.StorableFits | packages/types/src/money.ts:7-17 | Every storable amount fits twenty characters, and the smallest takes all of them. |
| Decimals.DecimalIsReadBack | packages/types/src/money.ts:38-66 | Every amount is read back from its decimal, for any number of minor digits. |
| Decimals.DecimalIsWorth | packages/types/src/money.ts:51-66 | A decimal is worth its digits without the point, times ten for every minor digit it does not use. |
| Numerals.DecimalIsWritten | packages/types/src/money.ts:38-49 | A decimal has just its minor digits behind the point, and no point where there are none. |
| Numerals.JustDecimalsAreParsed | packages/types/src/money.ts:51-66 | A decimal is parsed if and only if it is digits, behind a hyphen or not, and behind a point one or more digits but not too many. |
| Amounts.ReadProduct | apps/web/src/lib/money.ts:90-125 | The loop over the factors gives what working the chain as one ratio and rounding once gives, or its fault. |
| Amounts.ReadAmount | apps/web/src/lib/money.ts:159-194 | The loop over the pieces gives the signed sum of what they read, the first fault, or the refusal of a negative one. |
| Numerals.BlankIsListed | apps/web/src/lib/money.ts:43-47 | The blanks are just the twenty-five characters of white space. |
| Numerals.SignsAreListed | apps/web/src/lib/money.ts:53-55 | The digits, the signs, the two minuses and the signs of operation, one by one. |
| Numerals.ValueIsNumeral | packages/types/src/money.ts:51-66 | Digits are worth their place values, read from the front or from the back. |
| Numerals.WholesAreSpelled | apps/web/src/lib/money.ts:43-47 | What is taken for a whole number is just digits in a row, or one to three digits and behind each separator three more. |
| Numerals.ReadsNumeral | apps/web/src/lib/money.ts:127-157 | A number alone, signed or not, is read as its digits in minor units, or refused for too many of them or for being negative. |
| Numerals.PlainPointIsTaken | apps/web/src/lib/money.ts:49-51 | Wherever the locale does not group with it, a plain point reads as the locale’s own decimal mark. |
| Numerals.JustTypedTermsAreRead | apps/web/src/lib/money.ts:127-157 | A term is read if and only if it is a spelled whole, or none, and behind a point no more digits than there are. |
| Numerals.JustTypedFactorsAreRead | apps/web/src/lib/money.ts:57-77 | A factor is read if and only if it is spelled so, with any number of digits behind the point and not nothing at all. |
| Numerals.NothingToWorkOn | apps/web/src/lib/money.ts:90-94 | A product that begins with a sign of operation is refused. |
| Numerals.NothingTyped | apps/web/src/lib/money.ts:165-168 | Blanks alone read as nothing typed yet. |
| Numerals.UnfinishedSum | apps/web/src/lib/money.ts:127-131 | A sign at the end of a sum adds nothing and marks it as unfinished. |
| Expressions.ReadsProduct | apps/web/src/lib/money.ts:57-157 | A printed product is read as its exact real value in minor units, rounded once; with too many minor digits or a zero divisor it is that fault. |
| Expressions.WorksExactly | apps/web/src/lib/money.ts:102-122 | The integer ratio kept by the loop is the exact real value at every step, and is undefined exactly where that is. |
| Expressions.RoundsAway | apps/web/src/lib/money.ts:79-88 | The integer rounding is rounding of the real quotient, half away from zero. |
| Expressions.ReadsWhatIsMeant | apps/web/src/lib/money.ts:159-194 | Reading any signed sum of products printed in the locale’s marks, blanks allowed, gives the sum of its products each rounded once, or the first fault; negative only where allowed. |
| Expressions.OffByHalves | apps/web/src/lib/money.ts:79-125 | A sum that is read is off its exact value by half a minor unit a product at most. |
| Expressions.TypedIsReadBack | apps/web/src/lib/money.ts:208-248 | What an amount is offered as for editing is read back as that amount, or refused for being negative. |
| Numerals.TypedIsWritten | apps/web/src/lib/money.ts:240 | An amount is offered for editing as its decimal with the locale’s own mark. |
| Orders.ReorderedMovesOne | apps/web/src/lib/category-order.ts:1-13 | The dragged id stands where it was dropped, the others keep their order, nothing is lost, and dragging it back undoes it. |
| Orders.StoreOrder | apps/web/src/lib/category-order.ts:61-89 | The loop with its two counters fills each place with the next of its own kind, or reports a list that names something else. |
| Orders.ShownOpenFirst | apps/web/src/lib/category-order.ts:52-59 | What is shown is what is stored, the open ones before the paid, each kind in its stored order. |
| Orders.DroppedIsTaken | apps/web/src/lib/category-order.ts:1-89 | A dropped list is taken just when it is a permutation of what is stored, and a drag just when both its ends are in the list. |
| Orders.StoredShowsAsShown | apps/web/src/lib/category-order.ts:52-89 | The order written is a permutation of what is stored, paid ones keep their places, and it is shown as it was dropped. |
| Orders.ShownComesBack | apps/web/src/lib/category-order.ts:52-89 | The dropped list comes back exactly if and only if it puts the open ones first. |
| Orders.StoringUnmovedChangesNothing | apps/web/src/lib/category-order.ts:61-89 | Storing an unchanged display changes nothing. |
| Orders.RearrangedLosesNone | apps/web/src/lib/category-order.ts:15-50 | The view rearranged before the answer loses and doubles none: it takes a full permutation as it is and ignores an incomplete one. |
| Orders.WholeOrderIsWhole | apps/api/src/categories/write-order.ts:19-27 | The whole order is a permutation of the rows held that begins with the named ones as asked. |
| Orders.UnnamedKeepTheirOrder | apps/api/src/categories/write-order.ts:19-27 | Of two rows not named the one of the smaller place, or of the same place and read earlier, stands earlier in the whole order. |
| Orders.SortedIsStable | apps/api/src/categories/write-order.ts:19-27 | Rows of one place stay in the order they were read in. |
| Orders.WritesAreDense | apps/api/src/categories/write-order.ts:29-33 | The writes name the ids in strictly ascending order, and the places 0 to n-1 once each. |
| Orders.ReorderingIsTaken | apps/api/src/categories/categories.service.ts:228-245 | A reordering is taken just when every name is held and none is given twice. |
| Orders.Rows.Reorder | apps/api/src/categories/categories.service.ts:228-256 | The loop of writes leaves every named and unnamed row its place, or refuses a name given twice or not held. |
| Orders.ReorderingPlacesAll | apps/api/src/categories/categories.service.ts:233-248 | After a reordering the place of each row is its place in the order, and no other row moved. |
| BudgetCopy.Gather | apps/api/src/budgets/budget-copy.ts:96-126 | The loop over the joined rows builds groups and categories in first-seen order with their goals. |
| BudgetCopy.GatheringUndoesTheJoin | apps/api/src/budgets/budget-structure.query.ts:53-72 | Gathering what the join answers gives the tree back in order, empty groups and goalless categories included. |
| BudgetCopy.CopyIsTheTemplate | apps/api/src/budgets/budget-copy.ts:128-157 | The copy has every group and category in place, numbered without a gap, each with exactly its live goal, or none when goals stay behind. |
| BudgetCopy.CopiedGoalStartsAHistory | apps/api/src/budgets/budget-copy.ts:132-143 | A goal restarted in the copy is a sound history of its own, shown from its first month. |
| RequestContext.Context.BudgetOnce | apps/api/src/request-context/request-context.service.ts:86-128 | Hands out the known budget, the lookup in flight, or a new one it makes the current. |
| RequestContext.Context.SetBudgetId | apps/api/src/request-context/request-context.service.ts:63-80 | Records the budget, and refuses a second, different one. |
| RequestContext.Context.Resolved | apps/api/src/request-context/request-context.service.ts:103-115 | An answer is recorded and given only by the lookup that is still current. |
| RequestContext.Context.Rejected | apps/api/src/request-context/request-context.service.ts:116-122 | A failed lookup gives way only if it is the current one. |
| RequestContext.Context.EnterMutation | apps/api/src/request-context/request-context.service.ts:130-141 | Sets the marker and the call’s own flag, and notes whether this call is the one that set the marker. |
| RequestContext.Context.UseBudgetSource | apps/api/src/request-context/request-context.service.ts:163-173 | From within the work of a running call, records its client in place of any before it. |
| RequestContext.Context.LeaveMutation | apps/api/src/request-context/request-context.service.ts:130-157 | A failure forgets budget and lookup; the call’s own flag goes, and the opener clears the marker and the client. |
| RequestContext.Context.IsInMutation | apps/api/src/request-context/request-context.service.ts:179-181 | Answers the flag of the scope it is asked in: set in a call whose work runs, unset in one that left and outside all calls. |
| RequestContext.Context.MayRead | apps/api/src/raw-sql/scoped-raw.repository.ts:26-39 | A read is let through on the open mutation’s client, and outside one only without a client. |
| RequestContext.Context.MayWrite | apps/api/src/raw-sql/scoped-raw.repository.ts:41-52 | A write is let through only within a mutation, on its client. |
| RequestContext.AskersShare | apps/api/src/request-context/request-context.service.ts:95-101 | Whoever asks while a lookup is pending is handed it, and a second is begun only when none is current. |
| RequestContext.SettledOnce | apps/api/src/request-context/request-context.service.ts:103-128 | A lookup settles once, so all who share it are answered alike. |
| RequestContext.SharersGetWhatWasFound | apps/api/src/request-context/request-context.service.ts:95-115 | Whoever was handed a lookup is answered what it found while it was the current one. |
| RequestContext.ResolveAnswers | apps/api/src/request-context/request-context.service.ts:102-115 | The current lookup answers what it finds and records it, or makes room for another; no other lookup is touched. |
| RequestContext.RejectAnswers | apps/api/src/request-context/request-context.service.ts:116-122 | A lookup that fails fails for its sharers and makes room for another only if it was the current one. |
| RequestContext.AskDecides | apps/api/src/request-context/request-context.service.ts:95-128 | Whoever asks is handed the known budget, else the current lookup, else a new one that becomes the current. |
| RequestContext.RecordDecides | apps/api/src/request-context/request-context.service.ts:72-79 | A budget is recorded where none is known or the same is, and a different one changes nothing. |
| RequestContext.LeaveDecides | apps/api/src/request-context/request-context.service.ts:143-156 | What a call that leaves takes with it: budget and lookup if it failed, marker and client if it opened them, nothing else. |
| RequestContext.StaleLookupRecordsNothing | apps/api/src/request-context/request-context.service.ts:103-115 | A lookup begun before a failed mutation records nothing and answers none. |
| RequestContext.BudgetIsRecent | apps/api/src/request-context/request-context.service.ts:130-157 | The budget known after a failed mutation was recorded, or found by a lookup begun, after it. |
| RequestContext.ClosedByItsOpener | apps/api/src/request-context/request-context.service.ts:139-156 | While the marker is set one running call is its opener, and it goes exactly when that call leaves. |
| RequestContext.StatementsRunOnItsClient | apps/api/src/raw-sql/scoped-raw.repository.ts:54-64 | With a mutation open, the first or a later one, every raw statement let through runs on a client that very mutation handed over after it was entered, with the marker set all the time since. |
| RequestContext.StatementsDecide | apps/api/src/raw-sql/scoped-raw.repository.ts:26-64 | Outside a mutation a read takes no client and a write is refused; within one each takes the client there is and no other. |
| RequestContext.NestedCallsLeak | apps/api/src/mutations/mutation.service.ts:82-88 | Without the refusal of a mutation in a mutation a statement can be let through on the client of another call. |
| RequestContext.ClientIsItsOwn | apps/api/src/request-context/request-context.service.ts:150-156 | In every state with the marker set its opener is running and handed over the client there is. |
| RequestContext.ClosedHasNoClient | apps/api/src/request-context/request-context.service.ts:150-156 | With no marker set no client is recorded. |
| RequestContext.InMutationWhileItsWorkRuns | apps/api/src/request-context/request-context.service.ts:138-151 | The flag of a call is set exactly from its entering to its leaving, whatever else opens and closes. |
| RequestContext.BudgetGivesWay | apps/api/src/request-context/request-context.service.ts:103-115 | A known budget is replaced by another if and only if the current lookup, still under way, finds the other; it is forgotten if and only if a mutation fails. |
| RequestContext.LookupOverwrites | apps/api/src/request-context/request-context.service.ts:72-79 | A run in which a recorded budget is overwritten by a lookup that was under way. |
| RequestContext.OneCallAtATime | apps/api/src/mutations/mutation.service.ts:82-88 | Where a mutation is entered only with none open, every running call is the opener. |
| Calendar.MonthIsSpelled | packages/types/src/calendar.ts:7 | A month is four digits that do not begin with a nought, a hyphen and two digits from one to twelve, and is worth just these. |
| Calendar.MonthsCompareAsStrings | packages/types/src/calendar.ts:93-99 | Months compare as strings exactly as they do in time. |
| Calendar.NextIsOneLater | packages/types/src/calendar.ts:127-135 | The next month is one later, and fails exactly for the last month that can be written. |
| Calendar.PreviousIsOneEarlier | packages/types/src/calendar.ts:137-145 | The previous month is one earlier, and fails exactly for the first. |
| Calendar.NextAndPrevious | packages/types/src/calendar.ts:127-145 | Going on and coming back ends where it began. |
| Calendar.MonthsAreCounted | packages/types/src/calendar.ts:178-186 | The months of a goal are counted alike in strings and in indices, and never fewer than one. |
| Calendar.MonthStartsAtMidnight | packages/types/src/calendar.ts:164-176 | With one clock change around, the month starts at the earliest instant reading midnight, and where midnight is skipped at an instant from the skip on, past midnight. |

## Left out

- Controllers, DTO decoration, OpenAPI, authentication, React components, caches, translation and number formatting; of
  the DTO rules only what they guarantee is kept (positive amounts, a due month exactly for goals by a date, page sizes
  from one).
- Scoping of rows to a user and the choice of the active budget: one user and one active budget are fixed throughout,
  and creating, renaming and activating budgets is not modelled.
- Writing a copied budget: the copy of the tree is modelled, the inserts for accounts, assets and liabilities are not.
- The SQL engine: aggregates are sums over maps, `DISTINCT ON` and `ORDER BY` are their specifications, row locks are
  abstract, a first row found without an order is the one with the least id.
- 64-bit overflow of stored sums; the range appears only in `Decimals.StorableIsOf64Bits` and `StorableFits`.
- SHA-256 and `JSON.stringify`: taken as injective, so the canonical form itself is the fingerprint.
- Trimming and refusing an empty idempotency key, and the refusal of a mutation inside another, beyond what
  `RequestContext.EntersAlone` and the lemmas under it say.
- Locks.ClosedHoldsTheLate: covers creating records and transfers, reconciling, correcting an opening, moves, archiving
  and hiding; editing and removing records read their row before they lock, so they are whole steps in `Runs` and not
  part of the lock protocol, nor is unhiding, which opens a row again. Accounts and categories are two histories: that a
  record locks its account before its category is not in either.
- LockedLedger.InterleavingIsARun: dates, categories and identifiers are judged at the commit (`OtherGuards`); for the
  category of a record the code judges earlier, with the consequence `Locks.HiddenCanHoldALateRecord` shows.
- Mutations.LedgerIsTheLog: the work of an attempt takes effect when it commits, so the interleaving of two works is the
  matter of `Locks`, not of this module.
- Retries.KeyHasOneBody: the form is the one that moves money; other forms keep their key by the same rule but are not
  modelled, and nor are the amounts, sides and texts a popover needs before it can be sent.
- Retries.SavedAtMostOnce: a request delayed by the network beyond the client's last retry is an attempt like any other;
  that it may still commit after the client was refused is not excluded.
- CategoryTargets.PastIsNeverRewritten: says which goal and which kind a past month has; editing a goal of the same kind
  changes its amount for the months it already covered, as the code does.
- TargetProgress.EvenInstalments: starts from a month that has not laid more than it asks for and with nothing assigned
  in later months.
- Feed.PagingIsExact: for a table that does not change while it is paged; the base64 coding of a cursor is not modelled,
  a cursor is the date, moment and id it carries.
- Feed.FeedDays: the day before today is a parameter, not computed.
- Expressions.ReadsWhatIsMeant: for marks that are not digits, blanks, signs or operators, a group mark of one character
  or none.
- Calendar.MonthStartsAtMidnight: the offset of a zone is any function below a day; reading it from a time zone database
  is not modelled, nor are calendar dates and their validation.
- Orders: the position a new or moved category is given, which may repeat another's.
- Renames, looks, paid marks, payee lists, net worth totals, default category sets, ring percentages: plain
  assignments and lists of one function each, which touch no money row and have no state over several calls. Of a
  category's default account only the refusal in `Categories.Regroup` is kept.
