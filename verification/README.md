# Athena's examples and bridge, modelled and proved

This project models the parts of the Athena repository whose correctness rests on more than one function at a
time, and proves what they promise. Six groups of modules, each following its source files:

- `Ledgerbox*`: the studio's books. Bank lines are applied to invoices, payments are recorded, letters are drafted
  and sent, and most acts can be taken back at any later time. The tables are values in `LedgerboxBooks`, a class of
  tables that statements rewrite in `LedgerboxActions`; reconciliation, the chase question, money text, periods and
  the summary have a module each. Every run starts from books the seed draws, row by row (`LedgerboxSeed`), and
  keeps the money accounted for (`LedgerboxInvariants`). `LedgerboxOutcomes` says exactly when each act is done and
  all that it changes, `LedgerboxVerdict` when a chase is blocked and by which credit, and `LedgerboxNaming` and
  `LedgerboxSnag` of which books some run comes to a match that aborts.
- `Hirelane*`: the hiring board. Stages move, slots are held and booked, and the undo of an old move can be asked
  through the later moves that stand in its way. `HirelaneOutcomes` says exactly when each act is done and what it does.
- `Journey*` and `BridgeBudget`: the gate. Approval cards bound to one action, the pipeline every call goes through,
  the record of calls, the facts that cite it, and the checkpoint that saves and restores all three.
  `JourneyOutcomes` tells what a run leaves behind by its events alone.
- `BridgeFence`: the untrusted fence.
- `BridgeRelay`: the request protocol between the relay and the page, and in `BridgeOutcomes` what its replies say.
- `VoiceLimiter`: the look-ahead limiter, over the reals.

`Options`, `Lists`, `Tables` and `Texts` hold what the others share. Money is whole cents, time is an integer of
milliseconds, a table with a primary key is a map, and a repeated key is a write that aborts and leaves everything
as it was. Each action is a function on values, about which the theorems are proved, and a method that rewrites the
tables, proved to compute that function.

`dafny verify dfyconfig.toml` checks everything.

## What the proofs found

- **An undo of a filing is not always exact.** A list that names one invoice twice, by id and by number, logs the
  category its first reference wrote. The rows come back exactly when every repeated invoice already had the new
  category (`CategorizeThenUndo`, and `RepeatedReferenceIsNotRestored` for a concrete list).
- **A match can abort, and it is known exactly when.** A match names its payment row after the bank line. An unmatch
  may delete another line's row, and an undo put it back, under a name a later match then meets. Some run from fresh
  books comes to this if and only if the books have a snag (`AbortsExactlyAtSnags`): a line on an invoice, another
  credit of its day and amount that the invoice has room for, and more matches of that fact than payments that sort
  before the matches' names. `SnagDefeatsAMatch` gives the run. Of the seed's payments only the two instalments sort
  behind those names, so a seed in which no credit shares an instalment's day and amount with another line has no snag
  (`SeedNameIsLate`, `LoneIsSnagFree`); one that does can be drawn (`SnagCanBeDrawn`).
- **Without a snag, a blocked chase names a credit that can be applied, after every run** (`SeededCreditApplies`), and
  then exactly the stated shortfall is owed.
- **"The same arguments always describe the same way" holds at the top level only.** `describe` sorts the keys of
  the call, not those of an object inside it (`NestedOrderCounts`, `SameArgumentsDescribedTwice`). The code is
  modelled as it is; its comment (`examples/journey/src/approvals.ts:33`) promises more.
- **A description does not say where the origin ends.** It tells origin and tool as one path, which two splits can
  share (`DescribeBindsPath`, `SlashIsEithers`); for slugs, and for URLs with plain tool names, only one split is
  possible (`DescribeBinds`).
- **A card answered again after it was spent makes a checkpoint that cannot be restored.** `RestoreGivesBack` gives
  the exact condition, `LateDeclineHappens` the run; runs that answer only pending cards are safe.
- **The fence's own opening marker leaves its arrows behind.** The exact markers of the nonce are swept before the
  pattern, which would have taken `>>>` with them: `OwnOpeningIsCutOut` says what follows is neutralised on its own.
  No marker is left either way (`NeutralisedIsFree`).
- **A call refused for a reason outside the closed list leaves no row.** Only an admission or a transport can name
  one (`GateReasonsAreRecorded`, `OneRowEach`).

## Model

| member | source | states |
|---|---|---|
| LedgerboxSeed.SeededIsFresh | examples/ledgerbox/lib/seed.ts:106-341 | whatever rows are drawn, in any order, each under a new key and each payment within what its invoice still owes, with its line and perhaps their match, the books satisfy the invariant every run keeps, and no payment bears a line's name yet |
| LedgerboxSeed.FatePaysWithin | examples/ledgerbox/lib/seed.ts:207-232 | a fate's payment, rounded to whole units, is never past the invoice's total, and is all of it when settled; a void invoice gets none |
| LedgerboxSeed.TotalIsWholeUnits | examples/ledgerbox/lib/seed.ts:151-168 | an invoice's total, summed over its items, is a whole number of units |
| LedgerboxSeed.FateIsLegal | examples/ledgerbox/lib/seed.ts:179-232 | so the payment a fate draws on a new invoice is one the invoice has room for |
| LedgerboxSeed.InstalmentsAreLegal | examples/ledgerbox/lib/seed.ts:305-340 | both instalments fit their retainer, and come to four fifths of it |
| LedgerboxSeed.StandingCounts | examples/ledgerbox/lib/seed.ts:178-204 | when each matched line was given its own payment, no fact has more matches than payments |
| LedgerboxInvariants.StepKeepsSound | examples/ledgerbox/app/actions.ts:170-684 | no act and no undo, at any time and whatever it answers, breaks the invariant: one invoice per bank line, payments within each invoice's amount, a void holding none, and for every invoice, day and amount at least as many payments as matches |
| LedgerboxInvariants.RunsAreSafe | examples/ledgerbox/app/actions.ts:239-427 | after any run from a sound state a line is on one invoice at most, an invoice's payments lie between nothing and its amount (nothing on a void), and every match can be unmatched |
| LedgerboxInvariants.MatchHasItsPayment | examples/ledgerbox/app/actions.ts:116-133 | in a sound state the payment a match stands for exists and has the line's day and amount, whether it is found by name or as the first with those facts |
| LedgerboxInvariants.UnmatchKeepsSound | examples/ledgerbox/app/actions.ts:319-372 | an unmatch keeps the invariant and never answers that no payment was found |
| LedgerboxUndo.MatchThenUndo | examples/ledgerbox/app/actions.ts:759-788 | a match followed at once by its undo is never refused and gives back the same invoices, matches, payments and letters |
| LedgerboxUndo.UnmatchThenUndo | examples/ledgerbox/app/actions.ts:789-827 | an unmatch followed at once by its undo is never refused and restores the very rows it deleted |
| LedgerboxUndo.CategorizeThenUndo | examples/ledgerbox/app/actions.ts:734-758 | a filing's undo is never refused at once, and gives the same rows back if and only if every invoice named twice had the new category already |
| LedgerboxUndo.RestoreIsExact | examples/ledgerbox/app/actions.ts:187-192 | for every list of references, putting the logged categories back is exact if and only if its repeats are harmless |
| LedgerboxUndo.RepeatedReferenceIsNotRestored | examples/ledgerbox/app/actions.ts:187-192 | the concrete list, one invoice by id and by number, whose undo leaves another category than it found |
| LedgerboxUndo.RunPreserves | examples/ledgerbox/app/actions.ts:828-841 | in every run the log only grows and a letter once sent is neither altered nor deleted, by any act or undo |
| LedgerboxUndo.UndoneStaysUndone | examples/demo-kit/src/activity/index.ts:140-165 | a row taken back is refused as already undone after any later run |
| LedgerboxUndo.SendSendsTodaysLetter | examples/ledgerbox/app/actions.ts:604-658 | a send sends one draft, the newest and the one named if one is, whose words and address are the letter composed from the books at that moment, and leaves the invoice no unsent draft and no other letter changed |
| LedgerboxUndo.RedraftSendsNothing | examples/ledgerbox/app/actions.ts:551-585 | a stale draft is swapped for today's letter and nothing is sent; every other letter stays |
| LedgerboxUndo.DoubleClickPaysOnce | examples/ledgerbox/app/actions.ts:375-427 | a hand-recorded payment repeated within ten seconds is refused, and no table changes |
| LedgerboxNaming.PickIsOwnOrBare | examples/ledgerbox/app/actions.ts:116-133 | in a run from books without a snag, the payment an unmatch finds is its own line's named row, or a row named after no line for a match that was there from the start |
| LedgerboxNaming.StepKeepsKept | examples/ledgerbox/app/actions.ts:239-427 | no act and no undo in such a run lets a row outlive the match it is named after, or lifts or restores a row of another line's name |
| LedgerboxNaming.RunsNeverAbortAMatch | examples/ledgerbox/app/actions.ts:279-292 | after any run from fresh books without a snag a payment bears a line's name only while that line is on an invoice, so no match aborts |
| LedgerboxSnag.SnagDefeatsAMatch | examples/ledgerbox/app/actions.ts:116-133 | from fresh books with a snag the run given comes to a line in the pool, incoming and owed, whose match aborts |
| LedgerboxSnag.AbortsExactlyAtSnags | examples/ledgerbox/app/actions.ts:239-372 | of fresh books, no run comes to an aborted match if and only if they have no snag |
| LedgerboxSnag.SeededAbortsExactlyAtSnags | examples/ledgerbox/lib/seed.ts:106-341 | so of whatever the seed draws |
| LedgerboxSnag.LoneIsSnagFree | examples/ledgerbox/lib/seed.ts:323-340 | there is no snag when no credit shares the day and amount of a payment that sorts late with another line |
| LedgerboxSnag.SeedNameIsLate | examples/ledgerbox/lib/seed.ts:179-204 | of the names the seed gives payments only the instalments' sort late |
| LedgerboxSnag.SnagCanBeDrawn | examples/ledgerbox/lib/seed.ts:106-119 | a snag is legal to draw: an instalment, and one more line added with its day and amount |
| LedgerboxSnag.DetourReady | examples/ledgerbox/app/actions.ts:319-372 | two unmatches of like payments lead to a sound state whose undo restores a row under the other line's name |
| LedgerboxSnag.NamedRowBlocksItsLine | examples/ledgerbox/app/actions.ts:279-292 | after that undo the insert of the named line's match meets its own name and aborts |
| LedgerboxSettle.BlockedCreditFits | examples/ledgerbox/lib/chase.ts:89-110 | a block names an unapplied incoming line within 3% of the balance, or short by at most 5000 cents and 5%, and states exactly what is missing |
| LedgerboxSettle.BlockedCreditApplies | examples/ledgerbox/app/actions.ts:239-316 | after any run from fresh books without a snag, applying the credit a block names goes through, and then exactly the stated shortfall is owed |
| LedgerboxSettle.SeededCreditApplies | examples/ledgerbox/app/actions.ts:239-316 | and so after any run from any books the seed draws that have none |
| LedgerboxVerdict.BlockedExactly | examples/ledgerbox/lib/chase.ts:51-64 | a chase is blocked if and only if some unapplied incoming line scores at least 85 against the invoice and at least 12 more than against every other: exact, or short by any amount that still scores so |
| LedgerboxVerdict.BlockedNamesTheBest | examples/ledgerbox/lib/chase.ts:51-78 | the credit named is one of those, the best scoring and of equals the first on the statement, with its own amount, day and memo and exactly what it leaves owed |
| LedgerboxVerdict.WarnedExactly | examples/ledgerbox/lib/chase.ts:89-110 | a chase nothing blocks is warned of if and only if some unapplied incoming line scores at least 85 against the invoice, within 12 of its best, with another invoice within 12 of it; and such a line is named |
| LedgerboxOutcomes.PaidExactly | examples/ledgerbox/app/actions.ts:378-418 | a hand payment is recorded if and only if the invoice is there, neither draft nor void, owes at least the amount, the amount is above zero, none like it was recorded by hand in the last ten seconds, and its id is free |
| LedgerboxOutcomes.PaidLands | examples/ledgerbox/app/actions.ts:410-427 | then the balance falls by exactly the amount, every other invoice reads as before, and one payment and one log row are all that is new |
| LedgerboxOutcomes.MatchedExactly | examples/ledgerbox/app/actions.ts:239-292 | a credit is applied if and only if the invoice is billed, the line is an incoming one on no invoice, and it is not more than is owed, however much less; and it aborts instead exactly when the payment's id is taken |
| LedgerboxOutcomes.MatchLands | examples/ledgerbox/app/actions.ts:279-303 | then the balance falls by the line's amount, the payment bears the line's day, every other invoice reads as before, and the log can take it back |
| LedgerboxOutcomes.UnmatchedExactly | examples/ledgerbox/app/actions.ts:319-348 | in sound books an unmatch is done if and only if the line is on that invoice |
| LedgerboxOutcomes.UnmatchLifts | examples/ledgerbox/app/actions.ts:349-372 | then the line's amount is owed again, the line is in the pool, one payment of its facts is gone, and every other invoice reads as before |
| LedgerboxOutcomes.VoidedExactly | examples/ledgerbox/app/actions.ts:661-672 | an invoice is voided if and only if it is there, not void yet, and holds no payment |
| LedgerboxOutcomes.VoidLands | examples/ledgerbox/app/actions.ts:672-683 | then it is void and owes nothing, keeps the rest of its row, and nothing else changes |
| LedgerboxOutcomes.FiledExactly | examples/ledgerbox/app/actions.ts:170-219 | a filing is done if and only if one of the first hundred references names an invoice; those named get the category and nothing else changes |
| LedgerboxOutcomes.DraftedExactly | examples/ledgerbox/app/actions.ts:468-502 | a reminder is drafted if and only if the invoice is sent, owes money, and no credit on the statement settles it alone; then one unsent letter, today's, is new |
| LedgerboxOutcomes.DraftThenUndo | examples/ledgerbox/app/actions.ts:828-841 | taking that draft back at once removes it and leaves every table as it was |
| LedgerboxOutcomes.SentExactly | examples/ledgerbox/app/actions.ts:604-658 | a letter is sent if and only if the invoice may be chased now, the letter is the newest draft and the one named if one is, and its words are still today's; it is drafted anew instead if and only if they are not and the new id is free |
| LedgerboxOutcomes.UndoneExactly | examples/ledgerbox/app/actions.ts:734-848 | a row of the log is taken back, at any later time, if and only if it is reversible, not taken back yet, and what it wrote still stands; then only the tables and rows it wrote are written back; and it throws exactly when a lifted payment would meet its own id or lacks its invoice or line |
| LedgerboxActions.Ledgerbox.MatchAction | examples/ledgerbox/app/actions.ts:239-316 | rewrites matches, payments and log exactly as the match of the books says, and answers with its refusal otherwise |
| LedgerboxActions.Ledgerbox.UnmatchAction | examples/ledgerbox/app/actions.ts:319-372 | deletes the match and the payment it stands for and logs both rows, or refuses and writes nothing |
| LedgerboxActions.Ledgerbox.MarkPaidAction | examples/ledgerbox/app/actions.ts:378-427 | rewrites payments and log exactly as the payment of the books says, whose doing and whose effect `PaidExactly` and `PaidLands` state |
| LedgerboxActions.Ledgerbox.VoidInvoiceAction | examples/ledgerbox/app/actions.ts:661-684 | voids an invoice holding no payment, and refuses any other |
| LedgerboxActions.Ledgerbox.CategorizeAction | examples/ledgerbox/app/actions.ts:170-219 | files the first hundred references in order, logging each category just before it is rewritten, and logs no row for no write |
| LedgerboxActions.Ledgerbox.DraftReminderAction | examples/ledgerbox/app/actions.ts:468-520 | drafts today's letter unless the row or the statement gives a reason against it |
| LedgerboxActions.Ledgerbox.SendReminderAction | examples/ledgerbox/app/actions.ts:604-658 | sends the newest draft when its words are still today's, deletes the invoice's others, and redrafts a stale one |
| LedgerboxActions.Ledgerbox.UndoAction | examples/ledgerbox/app/actions.ts:734-864 | puts the tables back and marks the row, or refuses or throws having changed nothing |
| LedgerboxActions.Ledgerbox.FindPayment | examples/ledgerbox/app/actions.ts:116-133 | the payment named after the line when it is this invoice's, else the first id with its invoice, day and amount |
| LedgerboxActions.Ledgerbox.UnappliedLines | examples/ledgerbox/lib/db.ts:83-88 | the lines no match names, in statement order |
| LedgerboxActions.Ledgerbox.StatementHoldsIt | examples/ledgerbox/app/actions.ts:449-452 | builds the table and answers this invoice with the books' verdict, which `BlockedExactly` and `WarnedExactly` tell by the scores alone |
| LedgerboxReconcile.Reconcile | examples/ledgerbox/lib/reconcile.ts:66-99 | the loops and sorts of the two-sided table give the credits, the credit side, and for every invoice its offers not claimed elsewhere, best first with ties in order |
| LedgerboxReconcile.OfferedIsPrefix | examples/ledgerbox/lib/reconcile.ts:54-64 | the offered pairs of a credit are a prefix of its sorted fits |
| LedgerboxReconcile.AmbiguousMeansContested | examples/ledgerbox/lib/reconcile.ts:54-64 | a credit is ambiguous exactly when two or more of its pairs are contested; otherwise its best stands alone |
| LedgerboxReconcile.InvoiceSideHolds | examples/ledgerbox/lib/reconcile.ts:80-99 | an invoice's side holds exactly its pairs not claimed elsewhere, in descending score |
| LedgerboxReconcile.SidesAgree | examples/ledgerbox/lib/reconcile.ts:66-99 | offers counted down the invoices are as many as offers counted down the credits |
| LedgerboxReconcile.LineSuggestions | examples/ledgerbox/lib/db.ts:396-403 | for every credit, its first three pairs and every offered one |
| LedgerboxReconcile.CutHidesNoOffer | examples/ledgerbox/lib/db.ts:396-403 | the cut keeps the order, takes three when there are three and more only for offered pairs, and never hides one of those |
| LedgerboxChase.GroupByTop | examples/ledgerbox/lib/db.ts:162-172 | the one pass groups each credit under the invoice of its top offer, in credit order |
| LedgerboxChase.SettlingCredits | examples/ledgerbox/lib/db.ts:162-176 | the index holds, for every invoice, the first settling credit of its group in descending top score, and nothing else |
| LedgerboxChase.IndexIsPerInvoice | examples/ledgerbox/lib/db.ts:152-176 | for distinct invoices and lines the one-pass index answers every invoice exactly as the per-invoice question does |
| LedgerboxChase.BlockNamesACredit | examples/ledgerbox/lib/chase.ts:89-110 | a block names an incoming pool line that scores strong against this very invoice |
| LedgerboxMatch.StrongMeansTheAmountFits | examples/ledgerbox/lib/match.ts:44-134 | a strong score cannot be reached without the amount signal, so the shortfall is bounded and stated exactly |
| LedgerboxMatch.StrongExactly | examples/ledgerbox/lib/match.ts:44-134 | which credits score strong, by what a reader sees: how far the amount falls short, whether the memo quotes the number, the name or a word of it, and how near the due date it posted |
| LedgerboxMatch.OfferedExactly | examples/ledgerbox/lib/match.ts:104-134 | which credits are offered at all, told the same way, and where the three confidences divide |
| LedgerboxMatch.TokensExactly | examples/ledgerbox/lib/match.ts:20-26 | the words looked for are the longest stretches of letters and digits of a name, of four or more |
| LedgerboxTypes.RowSays | examples/ledgerbox/lib/db.ts:63-118 | an invoice's row by its stored status, what is owed and paid and the whole days past its due date: which of the seven states it is in, and how many days it is overdue, disputed ones included |
| LedgerboxReminder.SubjectStatesTheBalance | examples/ledgerbox/lib/reminder.ts:66-69 | two subjects of one invoice and day count are equal only for equal balances |
| LedgerboxFormat.FormatThenParse | examples/ledgerbox/lib/format.ts:24-71 | every printed amount, negative and grouped ones included, is read back as itself |
| LedgerboxFormat.FormatInjective | examples/ledgerbox/lib/format.ts:24-27 | two amounts print alike only when equal |
| LedgerboxFormat.AcceptsExactlyAmounts | examples/ledgerbox/lib/format.ts:34-71 | a text is accepted if and only if, cleaned, it is a sign, whole units grouped only in threes and at most two decimals, and its amount is what those digits denote |
| LedgerboxFormat.MarkNeedsGroupOfThree | examples/ledgerbox/lib/format.ts:36-42 | in accepted whole units a grouping mark stands only before exactly three digits |
| LedgerboxFormat.OneDecimalIsTenths | examples/ledgerbox/lib/format.ts:42-71 | an amount with one decimal reads as the same amount with a nought behind it |
| LedgerboxFormat.SplitIsUnique | examples/ledgerbox/lib/format.ts:42-71 | an amount's text splits into sign, units and decimals in one way |
| LedgerboxPeriods.QuarterIsItsMonths | examples/ledgerbox/lib/filter-period.ts:10-14 | for any contiguous months a date is in the quarter exactly when it is in one of them, and in no two |
| LedgerboxPeriods.MonthOrder | examples/ledgerbox/lib/constants.ts:68-73 | months compare as text exactly as they follow in time |
| LedgerboxPeriods.StepsByOne | examples/ledgerbox/lib/constants.ts:75-92 | the month after is the one whose index is one more, over the turn of a year |
| LedgerboxSummary.InvoicedAddsUp | examples/ledgerbox/lib/db.ts:295-319 | for every period, invoiced equals collected plus outstanding |
| LedgerboxSummary.TableAddsUpToOutstanding | examples/ledgerbox/lib/export.ts:50-69 | in every sound state the shown balances and the footer's hidden ones add up to Outstanding, and the shown are the largest |
| LedgerboxSummary.QuarterIsTheSumOfItsMonths | examples/ledgerbox/lib/db.ts:295-319 | for any contiguous months, all nine of the quarter's figures, counts, money and unapplied credits, are the sums of its months' |
| HirelaneActs.ListedExactlyWhenBookable | examples/hirelane/lib/acts.ts:119-134 | every listed slot may be booked for the person, one is listed exactly when some slot may be booked, and all are unless more than twelve are free |
| HirelaneSeed.HistoryKeepsChain | examples/hirelane/lib/db.ts:333-378 | whatever trail of stages is seeded for an applicant, its events chain and end at the stage the applicant is left in |
| HirelaneSeed.PlantedAtStage | examples/hirelane/lib/db.ts:333-346 | the trail written for a stage leaves the applicant at that stage |
| HirelaneSeed.SeededBoardIsSound | examples/hirelane/lib/db.ts:333-457 | whatever applicants, trails and slots are seeded, in any order, slots open or booked for someone at Interview, the board satisfies the invariant every run keeps |
| HirelaneInvariants.StepKeepsSound | examples/hirelane/app/actions.ts:234-523 | no act and no undo breaks the board: stage events chain to the current stage, live moves stand and what came after them is live, live holds' slots are still their applicant's and disjoint, three held each |
| HirelaneInvariants.AttemptKeepsSound | examples/demo-kit/src/activity/index.ts:171-210 | an undo asked through its blockers keeps the board sound at every depth |
| HirelaneUndo.RunsKeepFinal | examples/hirelane/app/actions.ts:275-296 | in every run an offer or a rejection is never left and a booked slot never changes |
| HirelaneUndo.RunsKeepHolds | examples/hirelane/app/actions.ts:306-338 | after every run a live hold's slot is held for or booked by its own applicant, is in no other live hold, and nobody holds more than three |
| HirelaneUndo.UndoHoldReleasesItsOwn | examples/hirelane/app/actions.ts:470-485 | undoing a live hold is never refused, opens exactly its own slots still held, leaves every other slot, and is partial exactly when one was booked |
| HirelaneUndo.ProposeThenUndo | examples/hirelane/app/actions.ts:306-338 | a hold followed at once by its undo gives every slot back |
| HirelaneUndo.UndoMoveAlone | examples/hirelane/app/actions.ts:438-467 | a live move's undo goes through exactly when it is the latest event and nothing is decided; a decision is named as the reason, and refused for a later move it names where that led and its own live row |
| HirelaneUndo.MoveThenUndo | examples/hirelane/app/actions.ts:253-272 | a move followed at once by its undo gives the stage and the events back |
| HirelaneUndo.UndoThrough | examples/demo-kit/src/activity/index.ts:158-221 | asked through, a live move's undo succeeds if and only if nothing is decided and at most fifteen later moves stand in the way; then the move and all after it are gone, otherwise nothing has changed |
| HirelaneUndo.DossierOffersWhatServerAccepts | examples/hirelane/lib/acts.ts:194-207 | the dossier offers scheduling, proposing and deciding exactly when the server would accept them, lists only slots it would book, and offers a move at the first two stages only, to the next, which is accepted |
| HirelaneOutcomes.DecidedExactly | examples/hirelane/app/actions.ts:275-282 | a decision is made if and only if the applicant is there, undecided, and it is an offer or a rejection |
| HirelaneOutcomes.DecisionLands | examples/hirelane/app/actions.ts:283-295 | then the stage recorded is the one asked for, one event more leads there from the old stage and is the latest, the log holds no way back, and nothing else changes |
| HirelaneOutcomes.MovedExactly | examples/hirelane/app/actions.ts:253-258 | a move is made if and only if the applicant is there, undecided, and it is to screening or interview |
| HirelaneOutcomes.MoveLands | examples/hirelane/app/actions.ts:259-271 | then the same holds of the stage and the event, and the log can take it back to the stage it came from |
| HirelaneOutcomes.RejectedExactly | examples/hirelane/app/actions.ts:394-415 | a rejection is sent if and only if the applicant is there, undecided, and it has one of the three wordings |
| HirelaneOutcomes.RejectionLands | examples/hirelane/app/actions.ts:422-435 | then the applicant stands rejected, by one latest event, with no way back |
| HirelaneOutcomes.HeardExactly | examples/hirelane/app/actions.ts:93-96 | an act is done for the two known actors as asked and for no other |
| HirelaneOutcomes.ProposedExactly | examples/hirelane/lib/acts.ts:144-152 | slots are proposed if and only if the applicant is at interview, fewer than three are held for them, and one is open |
| HirelaneOutcomes.ProposeLands | examples/hirelane/app/actions.ts:312-336 | then the first open slots of the calendar are held for them, as many as bring their holds to three or as there are, and no other slot changes |
| HirelaneOutcomes.ListedAreFirst | examples/hirelane/lib/acts.ts:129-133 | the slots listed are all those held for the applicant and then the first twelve open ones of the calendar |
| HirelaneOutcomes.ScheduledExactly | examples/hirelane/app/actions.ts:350-371 | an interview is booked if and only if the applicant is at interview and the slot is not booked and held for nobody else |
| HirelaneOutcomes.ScheduleLands | examples/hirelane/app/actions.ts:380-390 | then that slot is booked for them and nothing else changes |
| HirelaneOutcomes.UnaskableExactly | examples/demo-kit/src/activity/index.ts:171-190 | a row that is not there, carries no way back, or was taken back is refused for that, and nothing is written |
| HirelaneActions.Hirelane.ProposeSlotsAction | examples/hirelane/app/actions.ts:306-338 | holds the first free slots up to three in all and logs their ids, or refuses with the dossier's reason |
| HirelaneActions.Hirelane.SendSchedulingAction | examples/hirelane/app/actions.ts:350-391 | books a slot that is free or the person's own, at Interview only |
| HirelaneActions.Hirelane.MoveStageAction | examples/hirelane/app/actions.ts:253-272 | for a known actor, moves an undecided applicant within the process, appends the event and logs the way back; otherwise changes nothing and says why |
| HirelaneActions.Hirelane.DecideStageAction | examples/hirelane/app/actions.ts:275-296 | for a known actor, decides as the board's function says, whose doing and whose effect `DecidedExactly` and `DecisionLands` state |
| HirelaneActions.Hirelane.SendRejectionAction | examples/hirelane/app/actions.ts:394-435 | for a known actor and one of the three wordings, rejects an undecided applicant with no way back; each refusal in the program's order |
| HirelaneActions.Hirelane.ReleaseSlots | examples/hirelane/app/actions.ts:470-485 | opens each slot not booked since and counts the others |
| HirelaneActions.Hirelane.LatestEvent | examples/hirelane/app/actions.ts:449-452 | the greatest event id of the applicant |
| HirelaneActions.Hirelane.FindBlocker | examples/hirelane/app/actions.ts:454-460 | the newest live row that logged the event |
| HirelaneActions.Hirelane.UndoAction | examples/demo-kit/src/activity/index.ts:158-221 | every write of the walk stands or none does, and the rows undone before the one asked for are counted |
| HirelaneActions.AttemptEndsWithItsRow | examples/demo-kit/src/activity/index.ts:206-219 | the row asked for is the last one undone |
| JourneyDescribe.DescribeBinds | examples/journey/src/approvals.ts:34-40 | two calls have one description if and only if origin, tool and arguments are the same, for names that split one way |
| JourneyDescribe.DescribeBindsPath | examples/journey/src/approvals.ts:34-40 | for any names without a bracket, two calls have one description if and only if origin and tool make the same path and the arguments are the same |
| JourneyDescribe.SlashIsEithers | examples/journey/src/approvals.ts:34-40 | two different origins, each with its tool, that make one path and so one description |
| JourneyDescribe.InsertionOrderIsForgotten | examples/journey/src/approvals.ts:34-40 | the order the keys were inserted in never matters |
| JourneyDescribe.NestedOrderCounts | examples/journey/src/approvals.ts:34-40 | a nested object's fields in another order are another description |
| JourneyDescribe.SameArgumentsDescribedTwice | examples/journey/src/approvals.ts:33-40 | the concrete pair of calls with the same arguments and two descriptions |
| JourneyGate.RefusedCitationSpendsNothing | examples/journey/src/approvals.ts:118-133 | a call stopped at its arguments or its card leaves every card as it was |
| JourneyRuns.NextKeepsSound | examples/journey/src/gate-pipeline.ts:118-180 | asking, answering, entering, leaving and learning, interleaved in any way, keep cards, passes, calls, rows and facts consistent |
| JourneyRuns.SpentOnce | examples/journey/src/approvals.ts:118-133 | in every run a card lets at most one call past, and no gated call reaches its transport without a granted, unspent card described as it is |
| JourneyRuns.OkRowWasGranted | examples/journey/src/gate-pipeline.ts:168-177 | every gated row marked ok cites a card granted for exactly that path and those arguments, and for that origin and tool where a path splits one way |
| JourneyRuns.OneRowEach | examples/journey/src/gate-pipeline.ts:120-136 | a call has exactly one row once it has ended for a reason in the closed list and none otherwise; how that reason follows from the transport's answer is `RowTellsTheAnswer` |
| JourneyRuns.GateReasonsAreRecorded | examples/journey/src/ledger.ts:40-47 | every refusal of the gate itself leaves a row; an admission's leaves one exactly when its reason is in the closed list |
| JourneyOutcomes.RowTellsTheAnswer | examples/journey/src/gate-pipeline.ts:160-177 | in every run a row is ok if and only if its call left with an output; one that left otherwise is refused for the reason the transport stated, or unknown when it stated none or threw; and every row names its call |
| JourneyOutcomes.AnswerLeavesItsRow | examples/journey/src/gate-pipeline.ts:120-136 | every answer of a transport leaves exactly one row, unless it fails for a reason outside the closed list, which leaves none |
| JourneyOutcomes.AnswersOnce | examples/journey/src/gate-pipeline.ts:160-166 | a transport answers once |
| JourneyOutcomes.PassesExactly | examples/journey/src/approvals.ts:118-133 | a gated call spends its card if and only if its arguments fit and the card cited was asked for as described, answered last with a grant, and passed on by no call before |
| JourneyOutcomes.WaitsExactly | examples/journey/src/gate-pipeline.ts:138-160 | a call reaches its transport if and only if arguments, card, allow-list and admission all let it through |
| JourneyOutcomes.TurnedForTheFirstCheck | examples/journey/src/gate-pipeline.ts:138-158 | any other call ends at once for the reason of the first check it fails |
| JourneyOutcomes.RefusedByItsCard | examples/journey/src/approvals.ts:118-133 | the reason a card is refused for: none cited or not answered, unknown, declined, for another action, or spent |
| JourneyCheckpoint.RestoreGivesBack | examples/journey/src/checkpoint.ts:83-140 | a reachable state captured and restored comes back equal if and only if no spent card has stopped being granted, and is refused otherwise |
| JourneyCheckpoint.CheckpointRoundTrip | examples/journey/src/checkpoint.ts:127-140 | every run that answers cards only while pending can be saved and put back as it was |
| JourneyCheckpoint.LateDeclineIsRefused | examples/journey/src/approvals.ts:104-106 | declining a spent card makes the next checkpoint one that restore refuses |
| JourneyCheckpoint.LateDeclineHappens | examples/journey/src/approvals.ts:70-75 | for any card such a run exists |
| JourneyCheckpoint.RestoredIsLawful | examples/journey/src/checkpoint.ts:122-140 | whatever a checkpoint says, what restores is numbered, in the closed list, spent only when granted, cited only where rows are, and is all the checkpoint said |
| JourneyHolders.Approvals.RequestCard | examples/journey/src/approvals.ts:56-60 | adds a fresh pending card bound to the description |
| JourneyHolders.Approvals.AnswerCard | examples/journey/src/approvals.ts:70-75 | rewrites the status of that card object alone, or finds none |
| JourneyHolders.Approvals.ProveCard | examples/journey/src/approvals.ts:118-133 | checks in order and spends the one card, or changes none |
| JourneyHolders.Approvals.Restore | examples/journey/src/approvals.ts:95-110 | refuses a table in use, and otherwise succeeds exactly when every card could be this table's |
| JourneyHolders.Ledger.WriteRow | examples/journey/src/ledger.ts:40-47 | appends a numbered row, or refuses its reason and appends nothing |
| JourneyHolders.Ledger.Restore | examples/journey/src/ledger.ts:61-67 | puts rows back one by one, each checked as a new row is, in their own numbering or not at all |
| JourneyHolders.Brain.WriteFact | examples/journey/src/brain.ts:29-39 | no citation, no fact |
| JourneyHolders.Brain.Restore | examples/journey/src/brain.ts:50-56 | puts facts back as new facts are written, with ids derived anew |
| JourneyHolders.Journey.EnterGate | examples/journey/src/gate-pipeline.ts:118-158 | arguments, card, allow-list and budget in that order, one row for a refusal, and the budget claimed only by a call let out |
| JourneyHolders.Journey.LeaveGate | examples/journey/src/gate-pipeline.ts:160-177 | records the transport's answer as the gate's second half says, which `RowTellsTheAnswer` and `AnswerLeavesItsRow` tell by the answers themselves |
| JourneyHolders.Journey.RestoreAll | examples/journey/src/checkpoint.ts:127-137 | into empty holders, succeeds exactly when the checkpoint is restorable, with its state |
| BridgeBudget.WindowHolds | packages/athena-bridge/gate.js:328-367 | in a window the first calls of an origin up to the limit are let through and no other, whatever other origins do |
| BridgeBudget.Budget.TakeOne | packages/athena-bridge/gate.js:351-360 | claims one call, or refuses and claims none |
| BridgeBudget.Budget.Remaining | packages/athena-bridge/gate.js:341-344 | what is left of the window, above zero exactly while one more call is let through |
| BridgeFence.FenceHasOnePair | packages/athena-bridge/gate.js:278-282 | for every text, slug and hexadecimal nonce of eight digits or more, an opening marker of the label stands only at the start and a closing one only at the end, whatever nonces the text has seen |
| BridgeFence.NeutralisedIsFree | packages/athena-bridge/gate.js:257-265 | no marker of the label, of any nonce, is left in a neutralised text |
| BridgeFence.NeutralisedHasNoNonce | packages/athena-bridge/gate.js:260-263 | nor is either exact marker of the nonce, hexadecimal or not |
| BridgeFence.NeutraliseIsIdempotent | packages/athena-bridge/gate.js:257-265 | neutralising twice is neutralising once |
| BridgeFence.MarkerIsMatched | packages/athena-bridge/gate.js:239-242 | the marker pattern matches every marker of the label wherever it stands |
| BridgeFence.MatchIsAMarker | packages/athena-bridge/gate.js:239-242 | and whatever it matches begins with one |
| BridgeFence.MatchIsSpelled | packages/athena-bridge/gate.js:239-242 | a match is one whole marker, opening (with or without its arrows) or closing, and no longer one stands there |
| BridgeFence.SpelledIsMatchedWhole | packages/athena-bridge/gate.js:239-242 | every whole marker that what follows does not lengthen is matched to its end and no further |
| BridgeFence.MarkerIsCutOut | packages/athena-bridge/gate.js:257-265 | a marker is cut out and nothing else is: what stands before it, if no marker begins there, is kept, and what follows is neutralised as if alone |
| BridgeFence.OwnOpeningIsCutOut | packages/athena-bridge/gate.js:260-263 | so is the opening marker of the fence's own nonce, hexadecimal or not, without the arrows behind it |
| BridgeFence.OwnClosingIsCutOut | packages/athena-bridge/gate.js:260-263 | and its closing marker |
| BridgeFence.CleanIsUnchanged | packages/athena-bridge/gate.js:257-265 | a text with no marker is not changed |
| BridgeFence.BodyReadsBack | packages/athena-bridge/gate.js:278-282 | a reader who cuts at the first closing marker gets the trimmed, neutralised text back, for every text; what neutralising keeps of it is `MarkerIsCutOut` |
| Texts.TrimKeepsTheMiddle | packages/athena-bridge/gate.js:278-282 | trimming takes nothing but white space off the ends, and what is left neither begins nor ends with any |
| BridgeFence.CleanTextComesBack | packages/athena-bridge/gate.js:278-282 | and a trimmed text with no marker comes back as it was |
| BridgeRelay.NextKeepsSound | packages/athena-bridge/inject.js:67-166 | page timer, relay timer, tool settlement and message delivery, in any order, keep ids, settlements, answers and posts consistent |
| BridgeRelay.SettlesOnce | examples/journey/src/relay.ts:100-124 | every request is pending, with its timer to settle it, or has settled exactly once: by timeout, or with the answer the page decided for that very id |
| BridgeRelay.IdsAreOnes | examples/journey/src/relay.ts:112-119 | no two requests share an id |
| BridgeRelay.OneReplyEach | packages/athena-bridge/inject.js:77-81 | the page posts one reply per request, the answer it decided, under the request's id |
| BridgeRelay.RankFalls | packages/athena-bridge/inject.js:96-151 | no event of the protocol sets a request back, and every event of its own brings it nearer its reply |
| BridgeRelay.NeverStuck | packages/athena-bridge/inject.js:114-151 | a request whose reply is not out always has an event of its own enabled, without the help of its tool |
| BridgeRelay.ReplyCanFollow | packages/athena-bridge/inject.js:67-151 | so after any run every request sent gets its reply within four further events, though its tool never settles |
| BridgeRelay.LateAtMostOnce | packages/athena-bridge/inject.js:142-166 | a late event is posted at most once, names its request, and only for a call answered timeout; a call with no id has none |
| BridgeRelay.DeadlineIsClamped | packages/athena-bridge/inject.js:452-455 | the deadline lies between one millisecond and the ceiling, under the relay's timer, and is what was asked for exactly when that is in range |
| BridgeOutcomes.RepliesSayTheFirstWord | packages/athena-bridge/inject.js:96-151 | under every interleaving a reply says the first word there was on its request: what was decided before the tool ran, the tool's own output or error under a reason a page may give, or that it did not answer in time |
| BridgeOutcomes.LateSaysTheTool | packages/athena-bridge/inject.js:142-166 | a tool that ends after its call was cut off is heard once, in its own words, if and only if the call had an id and the output can be put into text; no other late event is ever posted |
| BridgeRelay.RelayHalf.OnMessage | examples/journey/src/relay.ts:100-111 | a reply settles the id it names if still awaited; an event is kept; anything else is nothing |
| VoiceLimiter.ClipChangesNothing | spikes/voice-ether/ether.py:175-182 | for every window and signal the length is kept, the gain is above zero and never above what the sample needs, and the clip changes nothing |
| VoiceLimiter.QuietSignalIsUntouched | spikes/voice-ether/ether.py:175-182 | a signal within the ceiling comes out as it went in |
| VoiceLimiter.WindowIsSummed | spikes/voice-ether/ether.py:181-182 | the difference of prefix sums is the sum of the window |
| VoiceLimiter.NeedIsTheMost | spikes/voice-ether/ether.py:177 | what a sample needs is the largest gain up to one that keeps it within the ceiling, and it brings a loud one exactly there |
| VoiceLimiter.GainIsTheMean | spikes/voice-ether/ether.py:178-182 | the gain of a sample is the mean, over the windows that hold it, of the least each window needs |
| VoiceLimiter.GainIsNeeded | spikes/voice-ether/ether.py:178-182 | it is never less than the loudest sample around needs, and with a window of one sample exactly what its own needs |
| VoiceLimiter.QuietAroundIsUntouched | spikes/voice-ether/ether.py:178-182 | a sample with nothing loud within a window before or after it comes out as it went in |

## Left out

- Ledgerbox: evidence sentences and refusal wording are not composed; a match takes its evidence as given, and a refusal is its reason.
- Ledgerbox: references are ids; resolving an invoice number to an id, the checks that an argument is in a closed list, and the exports table are not modelled; of the seed, the order and the sizes of its random draws are not.
- FatePaysWithin: a share is an exact number of hundredths, where the program multiplies by a binary fraction before it rounds.
- Ledgerbox: `parseDollars` is exact; the texts the program refuses only because of binary rounding are accepted here.
- Ledgerbox: the memo and name signals fold case for ASCII letters only, and grouping marks, spaces and currency signs are the common ones rather than every Unicode one.
- Ledgerbox: the compact money form, dates, and the two renderings of the summary's text are not modelled; its figures and its capped table are.
- FormatThenParse: the printed form is that of the en-US locale the program fixes, not of every locale the formatter knows.
- Hirelane: notes, scores, messages and the wording of mail are not modelled; a send is the row it books or rejects and its log line.
- Journey: the argument check against a published schema and the allow-list are verdicts handed to the gate; the fenced text a call returns is modelled in `BridgeFence`, not in the gate.
- Journey: the mail and notes fakes, the checkpoint's file, fingerprint and format, and which acts a resumed run plays are not modelled.
- RequestCard: card ids are handed in; runs assume each is fresh, as a random id is.
- DescribeBinds: a number is the text it prints as, so 0 and -0 are one argument, as they are to JSON; keys are compared by code point, which agrees with the program for identifier-shaped names.
- OkRowWasGranted: nothing is claimed of an origin or tool that holds an opening bracket.
- CheckCard: the gate's first half is split from its second at the awaited transport; the caller's promise is not modelled.
- BridgeFence: drawing a fresh nonce is a value handed in; a label that is no slug is refused rather than thrown.
- BridgeRelay: a tool's schema check, the list of tools and the page's description are answers decided for a request; other scripts of the page writing on the same wire are not modelled.
- DeadlineIsClamped: timers fire in any order here, so nothing is claimed of which comes first.
- VoiceLimiter: the other filters of the file, and floating point, are not modelled.
- Process and browser handling, pages, layouts, manifests, hands and the benchmark scripts are not modelled.
