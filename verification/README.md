# Accounting core: a verified model

A Dafny model of an accounting module written in Rust, with proofs. It covers

- the reconciliation graph: clamped links between posted journal lines, exchange true-ups,
  cash-basis tax flips, full groups, side-effecting unlinks, and reverse-then-reconcile;
- the trial-balance tree, the statements, the closing entry, and the close protocol of a fiscal
  period;
- the posting service and the journal workflow, with retries, races and stopped voids;
- the EMV merchant QR payload and its checksum;
- bank-statement matching;
- chart-of-accounts validation and derivation.

`dafny verify dfyconfig.toml` checks the whole project.

## How it is laid out

| modules | what they hold |
|---|---|
| `ReconcileGraph` | the graph as a value, and every verb as a function on it: `Link`, `UnlinkOne`, `UnlinkPair` and their parts |
| `ReconcileService` | the class `Tables`: the service as it works, with loops over mutable tables; each verb is proved to do what its function says, and to put the tables back when it fails |
| `ReconcileInvariants`, `ReconcileVerbs`, `ReconcileSteps`, `ReconcileGrowth`, `ReconcileEnds`, `ReconcileReversals` | the invariants and why each verb keeps them |
| `ReconcileRuns`, `ReconcileLedger`, `ReconcileDocuments`, `ReconcileTrace` | statements about every state any run of verbs can reach |
| `ReconcileUndo`, `ReconcileRepair`, `ReconcileReversed` | what an unlink undoes, and what a sequence of unlinks leaves |
| `ReconcileOutcomes`, `ReconcileExact`, `ReconcileDivergence`, `ReconcileLineage` | what links end with, what they add to the row, when a settled chain stays ungrouped, and which derived edges outlive their root |
| `ReconcileUngrouped`, `ReconcileLeftover`, `ReconcileMispaired`, `ReconcileBothReversed`, `ReconcileShared`, `ReconcileOrphan`, `ReconcileCrossed`, `ReconcileFxShared`, with `ReconcileExamples` | runs that show what fails: where the repository's comments or intentions do, and what each assumption below is for |
| `TrialBalanceTree`, `TrialBalanceBuild`, `TrialBalanceReport`, `Statements` | reports over one ledger |
| `PeriodClose`, `CloseProtocol` | the closing entry, and the protocol around it |
| `PostingBooks`, `PostingRuns`, `GlPosting` | posting, workflow, and runs with races and stops |
| `EmvQr`, `Tlv`, `Crc16`, `Text`, `ByteValues` | the QR payload |
| `BankMatching`; `ChartDataset`, `ChartInstall` | matching; charts |
| `Rounding`, `Wrappers` | rounding half away from zero; options and results |

Code that changes things step by step is modelled by methods and classes (`Tables`,
`FiscalPeriod`, `PostingTables`, and the loops of the reports, the payload, the matching and the
charts). Each is proved equal to a function, and the theorems are about that function.

## What the model assumes

- Amounts are whole cents and exchange rates six-decimal integers, so `Decimal` arithmetic is
  exact and `round2` is rounding half away from zero.
- Ids are positions in tables or come from counters. Where the code orders by id, ascending ids
  stand for the order of the identifiers.
- Each verb is one atomic step, except in the close protocol, in late commits and in voids that
  stop half-way. A verb that fails leaves its tables as they were.
- The deferred-tax lookup answers with at most one row per source line, on lines the graph holds,
  with the deferral equal to the line's face, and with no real account that is a transition
  account of another row on the opposite side. `LegsMatchIff` shows that the last clause is
  exactly what matching legs by account and side needs, and `CrossingOverApplies` what happens
  without it.
- For the agreement of open items with the ledger: the exchange account is not reconcilable
  (`TrueUpKeepsAgreementIff` is why), a
  deferral names a line of its own transition account and side, and a line that a link touches, or
  that is deferred for one it touches, has on its own account no reversal line of its source on its
  own side. `SwappedReversalsAgree` replaces the last clause by what producers do: a source is posted
  once per kind, a reversal swaps its document's lines, and a deferred line's document has only that
  line's side on its account.
- A posting under an idempotency key already used is refused. No verb of the reconciliation service
  ever makes one (`LinkNamesItsRefusal`, `UnlinkClosureSucceeds`), so it makes no difference that the
  posting port would give back the earlier posting.
- Documents are posted with clean lines, a positive face and a positive rate.
- Statements about one state of the graph ask for what every reachable state has
  (`ReachableIsSourced`): its invariants, and that a line which is not the machinery's names a
  document.
- Producers use their own posting keys, or none; the keys that posting a journal and voiding it
  use are reserved.
- Reopening a period gives strictly increasing stamps, and nothing but the closing entry posts to
  profit and loss between its sum and its post.
- The account directory has no parent cycles where the report tree is built; its accounts may have
  parents that are not listed. The walk that rolls sums up is modelled with its step budget, cycles
  included, and `CyclesNotReached` says that the report never shows an account on a cycle.
- The statements list the detail accounts that are not deleted; the ledger may hold rows on others.
  Posting finds the accounts that are not deleted and refuses any that is not a detail account.
- Unicode lower-casing, decomposition of accents beyond one plain letter, and the currency table
  are parameters.

## What the proofs found

- "Divergent stamps are unreachable" (`reconcile_write_service.rs:719-720`) fails once something
  has been unlinked. `DivergenceIsReachable` is a concrete sequence, `DivergenceNeedsUnlink` shows
  that unlinks are needed, and `LinkGroupsIff` is the exact condition, in terms of the stamps
  present before the link.
- The pairing pass after a link and the regrouping pass after a removal never do anything
  (`PairingAfterLinkIsIdle`, `RegroupIsIdle`). The comment at `reconcile_write_service.rs:946-949`
  says that fully settled components are flagged again there; they are not, and lines that keep a
  stamp keep it because only the flags of the deleted edges' own lines are cleared.
- Deferred tax can stay open on a settled invoice. The flips count what the payment applied, not what
  an exchange true-up settles, so against `reconcile_write_service.rs:514-523` they do not always add
  up to the face at full settlement: with face 11000 at rate 11, payment 10000 at rate 10 and tax 1100,
  100 of tax stays open (`TaxStaysOpen`), and no later link on the settled line can move it
  (`SettledLinksNothing`). `RetiredInFullIff` is the exact condition.
- The counterpart lookup goes by source, account and kind and ignores sides
  (`reconcile_graph_repository.rs:572-595`). When a source has two journals of one kind, an unlink can
  pair a debit with a debit, and open items stop agreeing with the books (`AgreementFails`).
  `PairKeepsAgreementIff` is the exact condition.
- The close reads the reopen stamp before it claims the period. When a whole close and a reopen
  fall in between, the post reuses the earlier cycle's key and adds nothing (`StaleReadReusesKey`).
  `KeyIsCurrentIff` says when the key is the running cycle's, and `CollapsesIff` when a post collapses:
  exactly when somebody posted under the key after it was read.
- A close that stops after its claim leaves the period closing under every later run
  (`StoppedCloseIsStuck`); a closing period can leave that status if and only if its claim is held
  (`StaysClosingIff`).
- A profit-and-loss account on its wrong side gives a negative closing line, which the posting
  rules refuse (`RefusedAmountsIff`; `ReturnsAreRefused` is such a period).
- The close counts rows on deleted or header accounts and the statements do not
  (`period_close_repository.rs:62-75`, `reporting_repository.rs:60-72`). The two net incomes agree if
  and only if those rows net to zero (`CloseMovesReportedIncomeIff`), and always when the posting rules
  accept the closing entry (`AcceptedCloseMovesReportedIncome`). When all such
  rows together do not net to zero, the balance sheet of a balanced ledger does not balance
  (`StatementsAgree`).
- Unlinking all edges of a reversed line does not always end with one new edge, since every touched
  line may pair: two of them in `PaymentPairsToo`. The line itself always ends with one edge, to its
  reversal (`OneEdgeIsLeft`). And the order of unlinks matters when two touched lines call for one
  counterpart (`OrderMatters`); `OrderDoesNotMatter` and `UnlinkEachLeaves` say when it does not.
- An unlink takes the edges derived from its root but not those derived from these, and a root edge
  copies its credit line's source (`reconcile_write_service.rs:252`, `876-890`). So after a link whose
  credit line a flip posted, unlinking the flip's root deletes that link's root edge, reverses its
  journals, and leaves its derived edges (`RootIsOutlived`). `UnlinkKeepsRootsIff`, `LinkKeepsRootsIff`
  and `LinkKeepsShallowIff` are the exact conditions, and `RootsStayLive` the runs without it.
- A close does not zero profit and loss when retained earnings is itself a profit-and-loss account
  and there is net income to move (`CloseZeroesIff`; `CloseIntoRevenueKeepsIt` is such a close).
- Dataset validation enters a code before it looks up the parent, so a self-parent is accepted and
  the later `expect` fails (`SelfParentIsAccepted`, `DeriveRows`).
- The comment at `reporting_service.rs:196-198` says headers without activity still appear. The code
  prunes them (`IdleHeaderIsPruned`): a node appears if and only if its chain ends at a root and an
  account with an amount stands on it or below it (`ShownIff`).

## Model

| member | source | states |
|---|---|---|
| `ReconcileRuns.EveryReachableState` | src/application/service/reconcile_write_service.rs:186-979 | In every state any mix of postings, voids, links and unlinks can reach: edge amounts are positive, every residual lies between 0 and the line's face, a stamped line is settled and keeps a live edge of its group, the stored groups are exactly those live edges carry (so a dissolved group is referred to by nothing), and a generated journal has been reversed exactly when its root edge is gone |
| `ReconcileRuns.StampedComponents` | src/application/service/reconcile_write_service.rs:690-742 | While nothing has been unlinked, the whole component of a stamped line is settled and carries that one stamp |
| `ReconcileRuns.DivergenceNeedsUnlink` | src/application/service/reconcile_write_service.rs:714-734 | While nothing has been unlinked, a link groups exactly when its component is settled; the arm for divergent stamps is not taken |
| `ReconcileUngrouped.DivergenceIsReachable` | src/application/service/reconcile_write_service.rs:719-732 | The comment that divergent stamps are unreachable is false: a concrete sequence of postings, links and unlinks ends in a state whose next link settles its whole chain and makes no group |
| `ReconcileDivergence.LinkGroupsIff` | src/application/service/reconcile_write_service.rs:714-734 | The exact condition: a link groups the chain it completes if and only if that chain is settled and the lines connected to its two ends beforehand carry at most one stamp |
| `ReconcileDivergence.LinkJoins` | src/application/service/reconcile_write_service.rs:214-384 | Among the lines that already existed, a link with its true-up and flips joins the components of its two lines and no others |
| `ReconcileDivergence.CompleteGroupsIff` | src/application/service/reconcile_write_service.rs:690-742 | Completion groups a chain if and only if every line in it is settled and at most one stamp occurs |
| `ReconcileRuns.OpenItemsAgree` | src/application/service/reconcile_write_service.rs:186-979 | After every run in which the lines that links touch have their reversals on the other side of the account, open debit residuals less open credit residuals equal, on every account, booked debits less credits; in one currency, the general ledger's balance |
| `ReconcileDocuments.SwappedReversalsAgree` | src/application/service/reconcile_write_service.rs:186-979 | The same agreement from what producers do, document by document: each source posted once per kind, a reversal of swapped lines, and tax deferred only where a document has one side. Documents with both sides on an account are allowed |
| `ReconcileLedger.PairKeepsAgreementIff` | src/infrastructure/persistence/reconcile_graph_repository.rs:572-595 | Pairing a line with its reversal keeps the agreement if and only if the counterpart found, whose side is never looked at, is on the other side |
| `ReconcileMispaired.AgreementFails` | src/application/service/reconcile_write_service.rs:747-807 | It can be on the same side: a concrete run of postings, a link and an unlink ends in a state where open items and books disagree |
| `ReconcileFxShared.TrueUpKeepsAgreementIff` | src/application/service/reconcile_write_service.rs:403-460 | A true-up keeps the agreement if and only if the exchange account is not the pair's own account, whose first line in the journal it would otherwise take |
| `ReconcileFxShared.AgreementFails` | src/application/service/reconcile_write_service.rs:403-460 | It can be: with a reconciled account as the exchange account, a reachable state in which open items and books disagree |
| `ReconcileEnds.LinkEdgesWithin` | src/application/service/reconcile_write_service.rs:214-384 | A link puts edges only on its two lines, on the lines deferred for their documents, and on lines it posts itself |
| `ReconcileLedger.EdgeKeepsAgreementIff` | src/application/service/reconcile_write_service.rs:214-237 | One more edge keeps that agreement if and only if its lines are on one account and on opposite sides of it |
| `ReconcileLedger.BookedIsLedger` | src/domain/reconcile_graph.rs:60-92 | In books kept in one currency the faces of the lines add up, with their signs, to the ledger rows |
| `ReconcileTrace.LedgerLeavesNoTrace` | src/application/service/reconcile_write_service.rs:905-1049 | After any run the ledger is worth exactly the documents plus the generated journals whose root edge is still there: every adjustment taken back cancels on every account |
| `ReconcileTrace.RemovalKeepsTraceless` | src/application/service/reconcile_write_service.rs:915-966 | Reversing what a closure generated and then deleting the closure takes exactly that worth out of the ledger |
| `ReconcileUndo.UnlinkUndoesLink` | src/application/service/reconcile_write_service.rs:861-979 | Unlinking the edge a link has just made, where no touched line has a posted reversal, succeeds and restores the edges and every residual of before, with the true-up and the flips gone too |
| `ReconcileUndo.UnlinkClearsLedger` | src/application/service/reconcile_write_service.rs:984-1049 | and every account's ledger balance is what it was before the link |
| `ReconcileReversed.UnlinkAllPairsReversal` | src/application/service/reconcile_write_service.rs:747-807 | For a line whose source has one posted, wholly open reversal line of the same face on its account: unlinking, in any order, edges that take all there is on the line and touch no other line of that source on that account leaves the other edges, one new edge of the full face between the line and its reversal, and otherwise only new edges between another touched line and that line's own counterpart, for the smaller face |
| `ReconcileReversed.OneEdgeIsLeft` | src/application/service/reconcile_write_service.rs:747-807 | So exactly one edge is left on the line and on its reversal, the same one, and both are settled |
| `ReconcileReversed.UnlinkAllPairsNothingElse` | src/application/service/reconcile_write_service.rs:747-807 | and it is the only new edge when nothing else that was touched has a counterpart |
| `ReconcileBothReversed.PaymentPairsToo` | src/application/service/reconcile_write_service.rs:747-807 | Otherwise it need not be: in a reachable state whose order and payment are both reversed, unlinking their one edge leaves two, each line paired with its own reversal |
| `ReconcileReversed.UnlinkEachLeaves` | src/application/service/reconcile_write_service.rs:974-977 | What unlinking a set of edges one by one leaves of every line: when the touched lines call for different counterparts, a line whose counterpart is as open as it is gets paired with it for the smaller face, and any other keeps what the remaining edges apply |
| `ReconcileReversed.OrderDoesNotMatter` | src/application/service/reconcile_write_service.rs:974-977 | So two orders of the same unlinks end with equal residuals on every line, when the touched lines call for different counterparts and a touched counterpart calls back |
| `ReconcileShared.FirstFreedWins` | src/application/service/reconcile_write_service.rs:747-807 | Of two touched lines that call for one counterpart, the one freed first is paired with it and the other stays open |
| `ReconcileShared.OrderMatters` | src/application/service/reconcile_write_service.rs:974-977 | so without that condition the order matters: a reachable state in which one order settles a tax line and the other leaves all of it open |
| `ReconcileOutcomes.FullSettlementRetires` | src/application/service/reconcile_write_service.rs:513-549 | Whatever links and unlinks came before, a link that applies all that was left of a receivable or payable leaves every tax line deferred on its document at zero: the flips add up to what was left |
| `ReconcileOutcomes.LinkRetires` | src/application/service/reconcile_write_service.rs:513-549 | After a whole link, on either side of it, the retired part of a deferral is the larger of what was retired before the link and the rounded share of what has been applied, and never above its face |
| `ReconcileOutcomes.RetiredInFullIff` | src/application/service/reconcile_write_service.rs:513-549 | A link leaves nothing open of a deferral if and only if nothing was open before, or the share applied, without what a true-up settles, rounds to the face |
| `ReconcileLeftover.TaxStaysOpen` | src/application/service/reconcile_write_service.rs:513-549 | The comment that the flips complete with the settlement is false after a true-up: in a reachable state a link settles the invoice and leaves 100 of its 1,100 of tax open |
| `ReconcileOutcomes.SettledLinksNothing` | src/application/service/reconcile_write_service.rs:215-235 | A link on a settled line applies nothing and changes nothing, so what such a settlement left open stays open |
| `ReconcileVerbs.FlipsAreExact` | src/application/service/reconcile_write_service.rs:513-549 | One side's flips take every deferral to the larger of what was retired before them and the rounded share |
| `ReconcileVerbs.LegsMatchIff` | src/application/service/reconcile_write_service.rs:618-644 | Every flip is paired with its own transition leg if and only if no earlier deferral's real account is a later one's transition account on the opposite side |
| `ReconcileCrossed.CrossingOverApplies` | src/application/service/reconcile_write_service.rs:618-644 | When that fails a link can apply more to a line of its flip journal than it holds: a reachable state, with deferrals that meet every other clause of the lookup's contract |
| `ReconcileVerbs.FlipLinesSound` | src/application/service/reconcile_write_service.rs:563-598 | The flip journal, which goes around the posting rules, is clean and balanced by construction |
| `ReconcileVerbs.FxPairSound` | src/application/service/reconcile_write_service.rs:76-120 | The exchange journal is clean and balanced, and its control line carries the signed difference on the pair's account |
| `ReconcileVerbs.ToleranceIsEquality` | src/application/service/reconcile_write_service.rs:282-298 | At cent scale the half-cent tolerance accepts exactly the predicted difference |
| `ReconcileOutcomes.ExchangeSettlesAll` | src/application/service/reconcile_write_service.rs:268-351 | A link that finds an exchange difference leaves both lines and the exchange journal's line at zero residual |
| `ReconcileExact.PlainLink` | src/application/service/reconcile_write_service.rs:214-262 | Without a rate difference and without deferred tax a link adds its root edge and nothing else |
| `ReconcileExact.FlippedLink` | src/application/service/reconcile_write_service.rs:540-682 | With one deferred line owed something it adds exactly the root edge, one journal of the real and the transition leg, and the edge between the transition leg and the deferred line |
| `ReconcileExact.TruedUpLink` | src/application/service/reconcile_write_service.rs:268-351 | With an exchange difference it adds exactly the root edge, the journal of the exchange line and its mirror, and the edge that settles the difference |
| `ReconcileOutcomes.LinkNamesItsRefusal` | src/application/service/reconcile_write_service.rs:186-397 | On any reachable state a link never ends in an internal error: it succeeds or names its refusal, and it names a missing exchange account or a closed period only when there is none configured or the link's date is closed |
| `ReconcileOutcomes.UnlinkFailsIff` | src/application/service/reconcile_write_service.rs:861-890 | Unlinking succeeds for every live edge; only an unknown id is refused, as line not found |
| `ReconcileSteps.PairingAfterLinkIsIdle` | src/application/service/reconcile_write_service.rs:386-390 | The pairing pass after a link changes nothing: both lines have just been applied to |
| `ReconcileSteps.RegroupIsIdle` | src/application/service/reconcile_write_service.rs:968-972 | The regrouping pass after a removal never groups: each endpoint of a deleted edge is open again |
| `ReconcileReversals.UnlinkClosureSucceeds` | src/application/service/reconcile_write_service.rs:905-979 | Removing any closure of a reachable state succeeds and keeps every invariant; a reversal key is never met twice |
| `ReconcileRepair.NextUnlink` | src/application/service/reconcile_write_service.rs:909-979 | One unlink after others: it succeeds, adds pairing edges only, on lines the remaining edges leave open and no two on one line, and leaves no touched document line open together with its counterpart |
| `ReconcileLineage.UnlinkKeepsRootsIff` | src/application/service/reconcile_write_service.rs:876-890 | An unlink leaves every derived edge its root if and only if no edge derived from the unlinked one has an edge derived from it |
| `ReconcileLineage.LinkKeepsRootsIff` | src/application/service/reconcile_write_service.rs:236-262 | A link, which copies its credit line's source, leaves every derived edge its root if and only if that source is no edge, or one that is still there |
| `ReconcileLineage.LinkKeepsShallowIff` | src/application/service/reconcile_write_service.rs:236-262 | A link makes an edge derived from a derived one if and only if an edge posted its credit line, and the link has side effects or that edge is itself derived |
| `ReconcileLineage.RootsStayLive` | src/application/service/reconcile_write_service.rs:186-979 | While no link's credit line is one that an edge posted, every derived edge's root is live in every reachable state |
| `ReconcileOrphan.RootIsOutlived` | src/application/service/reconcile_write_service.rs:876-890 | Without that: a reachable state in which every derived edge has its root and unlinking one edge leaves one without |
| `ReconcileInvariants.ComponentLeast` | src/application/service/reconcile_write_service.rs:696-699 | The component is contained in every set of lines that holds the seeds and that no edge leaves |
| `ReconcileInvariants.ComponentCloses` | src/application/service/reconcile_write_service.rs:696-699 | The component holds the seeds and no edge leaves it |
| `ReconcileSteps.ValidPair` | src/domain/services/reconcile_rules.rs:39-90 | What passes the pair rules: two distinct lines of one account, a debit and a credit, and an amount that is the smallest of the request and the two residuals |
| `Rounding.RoundIsNearest` | src/application/service/reconcile_write_service.rs:58-64 | The rounded quotient is the nearest integer, ties away from zero |
| `Rounding.RoundIsUnique` | src/application/service/reconcile_write_service.rs:58-64 | and no other integer is |
| `ReconcileSteps.ResolveCounts` | src/application/service/reconcile_write_service.rs:196-208 | A locator resolves to a line if and only if it alone fits; not found if and only if none does; ambiguous with n if and only if n lines fit and n is at least two |
| `ReconcileService.Tables.ReconcilePairOn` | src/application/service/reconcile_write_service.rs:186-397 | The link verb as it works on the tables: on success they hold the linked graph and the outcome reported, on refusal they are as before; the invariants survive |
| `ReconcileService.Tables.InsertRoot` | src/application/service/reconcile_write_service.rs:214-374 | Root edge, true-up and both sides' flips, in that order, with the residuals from before the insert; what was there stays, the first new edge is the root asked for, and all else new belongs to it |
| `ReconcileService.Tables.TrueUpOn` | src/application/service/reconcile_write_service.rs:268-351 | The exchange branch: nothing on equal rates; a total only when one side is at zero and the other holds exactly it, and then one journal and one edge more |
| `ReconcileService.Tables.PostExchangeMove` | src/application/service/reconcile_write_service.rs:403-460 | Unconfigured account and closed period refused in that order with nothing changed; otherwise one journal of two lines, recorded on the root edge, and an edge derived from the root that takes the whole difference off the side that kept it |
| `ReconcileService.Tables.PostCashBasisMove` | src/application/service/reconcile_write_service.rs:477-685 | One side's flips: nothing owed changes nothing, a closed date refuses, and otherwise each flip adds two lines and one derived edge and all else stays |
| `ReconcileService.Tables.CollectFlips` | src/application/service/reconcile_write_service.rs:540-549 | The loop collects the flips owed, dropping the ones that round to nothing or less |
| `ReconcileService.Tables.FlipLegs` | src/application/service/reconcile_write_service.rs:563-598 | The loop pushes, per flip, the real leg and the mirrored transition leg |
| `ReconcileService.Tables.PairFlipLegs` | src/application/service/reconcile_write_service.rs:618-682 | The loop over flips with its set of used legs does what matching all the legs first and then inserting all the edges does, failures included |
| `ReconcileService.Tables.CompleteGroupFor` | src/application/service/reconcile_write_service.rs:690-742 | Completion in place: a new group, the one stamp already there, or none |
| `ReconcileService.Tables.PairReversalCounterparts` | src/application/service/reconcile_write_service.rs:747-807 | The pairing loop over the affected lines |
| `ReconcileService.Tables.UnlinkPartials` | src/application/service/reconcile_write_service.rs:909-979 | Reverse, delete, clear, dissolve, regroup, pair, in that order, for the closure in whatever order it was collected |
| `ReconcileService.Tables.DeletePartials` | src/application/service/reconcile_write_service.rs:940-966 | Deleting by id, clearing flags and dissolving the emptied groups one by one removes exactly the closure and the groups nothing carries any more |
| `ReconcileService.Tables.ClosureOf` | src/application/service/reconcile_write_service.rs:838-857 | The loop with its list of seen ids collects exactly the roots and what was derived from them |
| `ReconcileService.Tables.UnreconcileOn` | src/application/service/reconcile_write_service.rs:861-890 | Unlink by id: line not found for an unknown id and unchanged tables, otherwise always done |
| `ReconcileService.Tables.UnreconcilePairOn` | src/application/service/reconcile_write_service.rs:816-858 | Unlink every edge between two located lines; none is a success that changes nothing |
| `ReconcileService.Tables.ReverseGeneratedJournal` | src/application/service/reconcile_write_service.rs:984-1049 | The swapped journal is posted once under the journal's own key; an unknown or empty journal is skipped |
| `ReconcileService.PairedNext` | src/application/service/reconcile_write_service.rs:624-682 | Matching and inserting one flip at a time does what matching them all first does |
| `TrialBalanceTree.RollUp` | src/application/service/reporting_service.rs:206-236 | Detail sums first, then each account's amount once per ancestor its walk visits; the order of accounts makes no difference, and a parent cycle only bounds the walk |
| `TrialBalanceTree.PushUp` | src/application/service/reporting_service.rs:218-235 | One walk adds its amount once to every ancestor visited and to nothing else; it stops at a root, at a parent that is not listed, or out of budget |
| `TrialBalanceTree.DetailSums` | src/application/service/reporting_service.rs:206-211 | The sums of the detail lines account by account |
| `TrialBalanceBuild.ReachIsChain` | src/application/service/reporting_service.rs:218-235 | Without parent cycles the step budget never cuts a walk short: an amount reaches its account and every listed ancestor |
| `TrialBalanceBuild.HoldsOwnAndChildren` | src/application/service/reporting_service.rs:206-236 | Every account ends up with its own amounts plus what its children hold |
| `TrialBalanceBuild.PushedIsSubtreeSum` | src/application/service/reporting_service.rs:206-236 | Pushing sums up the ancestor chains computes the recursive subtree sum of every listed account |
| `TrialBalanceBuild.RootsHoldTotals` | src/application/service/reporting_service.rs:199-236 | The roots hold the amounts of the accounts whose chain ends at a root, and no others |
| `TrialBalanceBuild.AllRooted` | src/application/service/reporting_service.rs:199-236 | which are the flat totals when every account with a line has such a chain |
| `TrialBalanceBuild.CyclesNotReached` | src/application/service/reporting_service.rs:237-287 | An account on a parent cycle is not on any way down from a root, so the report never shows it |
| `TrialBalanceReport.SortOrders` | src/application/service/reporting_service.rs:257-260 | Sorting keeps the accounts and orders them by number |
| `TrialBalanceReport.ChildrenInOrder` | src/application/service/reporting_service.rs:246-278 | A node's children in the report are its own children, by number, each with an amount or with children |
| `TrialBalanceReport.NodeBalances` | src/application/service/reporting_service.rs:263-277 | Pruning loses no amount: a node's sums are its own amounts plus those of its kept children |
| `TrialBalanceReport.ForestHoldsTotals` | src/application/service/reporting_service.rs:278-287 | The kept roots together hold the amounts of the accounts whose chain ends at a root, which are the flat totals when all do |
| `TrialBalanceReport.KeptIff` | src/application/service/reporting_service.rs:263-277 | A node is kept if and only if an account whose rolled-up amounts are not both zero stands on it or below it |
| `TrialBalanceReport.ShownIff` | src/application/service/reporting_service.rs:237-287 | A node appears in the report if and only if its chain ends at a root and such an account stands on it or below it |
| `TrialBalanceReport.KeptIffMoved` | src/application/service/reporting_service.rs:206-277 | After the roll-up, over lines that are not negative: a node is kept if and only if a detail line with an amount is on it or below it |
| `TrialBalanceReport.ShownIffMoved` | src/application/service/reporting_service.rs:206-287 | and it is in the report if and only if moreover its chain ends at a root |
| `TrialBalanceReport.IdleHeaderIsPruned` | src/application/service/reporting_service.rs:196-198 | The comment that headers with zero activity still appear is false: one that does not, in a chart of two roots |
| `TrialBalanceReport.ActivityIsShown` | src/application/service/reporting_service.rs:263-287 | Every account whose rolled-up amounts are not both zero and whose own chain ends at a root appears in the report, whatever the rest of the directory is like |
| `Statements.ComputeTrialBalance` | src/application/service/reporting_service.rs:289-333 | One line per account with a net amount; balanced exactly when the accounts' nets add up to zero |
| `Statements.ComputeBalanceSheet` | src/application/service/reporting_service.rs:335-365 | Each heading is the net of its kinds on its normal side, and the sheet balances exactly when all nets add up to zero |
| `Statements.ComputeIncomeStatement` | src/application/service/reporting_service.rs:367-405 | Each heading is the net of its kind on its normal side, and net income is minus the net of all profit-and-loss accounts |
| `Statements.SumsBalanceIff` | src/infrastructure/persistence/reporting_repository.rs:53-77 | Over a balanced ledger the account sums net to zero if and only if the rows on accounts the query filters out do |
| `Statements.GroupingKeepsTotal` | src/infrastructure/persistence/reporting_repository.rs:53-77 | Grouping rows by account keeps the total of debits less credits, but for the rows on accounts that are not listed |
| `Statements.StatementsAgree` | src/application/service/reporting_service.rs:289-365 | Balance sheet and trial balance balance if and only if ledger debits less credits are those of the unlisted rows; when these net to zero, if and only if the ledger balances |
| `PeriodClose.PostClosingEntry` | src/application/service/period_close_service.rs:223-270 | The loop builds the closing entry and the net income it carries to retained earnings |
| `PeriodClose.EntryBalances` | src/application/service/period_close_service.rs:223-270 | The entry balances, has no line or at least two, and on each account undoes the period's amount, with the net income on retained earnings |
| `PeriodClose.RefusedAmountsIff` | src/application/service/period_close_service.rs:229-241 | The posting rules refuse the entry for its amounts if and only if some account stands on its wrong side, and never for its size or its balance |
| `PeriodClose.ReturnsAreRefused` | src/application/service/period_close_service.rs:229-241 | A refused close exists: a period whose only sale is a return, although its journal was accepted |
| `PeriodClose.CloseZeroesIff` | src/application/service/period_close_service.rs:217-304 | After the close every profit-and-loss account of the period is at zero if and only if retained earnings is not itself one of them or there is no net income |
| `PeriodClose.CloseIntoRevenueKeepsIt` | src/application/service/period_close_service.rs:217-304 | A close that leaves profit and loss exists: with retained earnings set to the revenue account, the entry is accepted and that account stays as it was |
| `PeriodClose.RetainedTakesNetIncome` | src/application/service/period_close_service.rs:257-270 | Retained earnings takes exactly the net income |
| `PeriodClose.CloseMovesReportedIncomeIff` | src/infrastructure/persistence/period_close_repository.rs:62-75 | What the close moves, which counts accounts the income statement filters out, is the net income reported for the period if and only if the period's profit-and-loss rows on such accounts net to zero |
| `PeriodClose.AcceptedCloseMovesReportedIncome` | src/application/service/period_close_service.rs:246-304 | If the posting rules accept the closing entry the two are equal: an account that moved and is not listed would have been refused |
| `PeriodClose.StatementsAfterClose` | src/application/service/period_close_service.rs:211-304 | After the close the period's income statement is empty, and the current earnings on a balance sheet over all rows to the date are what earlier periods left unclosed |
| `PeriodClose.CloseKeepsSheetBalance` | src/application/service/period_close_service.rs:211-304 | An accepted closing entry leaves the difference between the two sides of that balance sheet as it was, earlier periods included |
| `CloseProtocol.OneEntryPerCycle` | src/application/service/period_close_service.rs:119-155 | Under any interleaving of closers, aborts, locks and reopens each close cycle gets at most one entry and no key is used twice |
| `CloseProtocol.LockedIsFinal` | src/application/service/period_close_service.rs:157-188 | Nothing ever leaves locked |
| `CloseProtocol.ClaimHolds` | src/infrastructure/persistence/period_close_repository.rs:93-138 | While one closer holds the claim nothing anybody else does moves the period |
| `CloseProtocol.AbortRestores` | src/application/service/period_close_service.rs:134-150 | Whatever happens around it, a claimed close that fails to post gives the period back in exactly its prior status with no entry added |
| `CloseProtocol.FinishSucceeds` | src/application/service/period_close_service.rs:143-155 | Finishing a close whose entry was posted finds the period still closing |
| `CloseProtocol.StaysClosingIff` | src/application/service/period_close_service.rs:125-155 | A closing period stays closing under every later run if and only if nobody holds its claim any more |
| `CloseProtocol.StoppedCloseIsStuck` | src/application/service/period_close_service.rs:134-150 | A close that stops after its claim, or after its post, leaves the period closing for good |
| `CloseProtocol.KeyIsCurrentIff` | src/application/service/period_close_service.rs:125-135 | The key a closer will post under is the running cycle's if and only if nobody reopened the period between its read and its claim |
| `CloseProtocol.CurrentKeyIsUnused` | src/application/service/period_close_service.rs:281-294 | Posting under the running cycle's key finds it unused and adds the cycle's entry; a key already used is always an earlier cycle's |
| `CloseProtocol.CollapsesIff` | src/application/service/period_close_service.rs:281-294 | A claimed closer's accepted post adds nothing if and only if somebody posted an entry under the key it had read, after it read it; otherwise it adds its own |
| `CloseProtocol.StaleReadReusesKey` | src/application/service/period_close_service.rs:281-294 | The condition is needed: an interleaving in which a stale read makes the close collapse onto the earlier cycle's entry |
| `CloseProtocol.FiscalPeriod.ClosePeriodAs` | src/application/service/period_close_service.rs:119-155 | An uninterrupted close is one closer's sequence of protocol steps, with its result |
| `CloseProtocol.FiscalPeriod.BeginClose` | src/infrastructure/persistence/period_close_repository.rs:96-115 | The conditional update claims the period from open or adjusting only and reports the status it left |
| `CloseProtocol.FiscalPeriod.LockPeriod` | src/application/service/period_close_service.rs:157-173 | Closed to locked with a stated reason, refused otherwise |
| `CloseProtocol.FiscalPeriod.ReopenPeriod` | src/application/service/period_close_service.rs:175-188 | Closed to open with a stated reason, which starts a new cycle; refused otherwise |
| `Crc16.Compute` | src/domain/emv_qr.rs:264-278 | The nested loops over 16-bit words compute the polynomial register of the whole message |
| `Crc16.EightRounds` | src/domain/emv_qr.rs:267-275 | Eight passes of the inner loop are eight rounds of the register |
| `Crc16.RoundInjective` | src/domain/emv_qr.rs:267-275 | No two register states are brought together by a round |
| `Crc16.FeedLinear` | src/domain/emv_qr.rs:264-278 | The checksum register is linear: the difference of two messages determines the difference of their checksums |
| `Crc16.BurstDetected` | src/domain/emv_qr.rs:264-278 | Messages that differ only within 16 consecutive bits get different checksums |
| `Crc16.AdjacentBytesDetected` | src/domain/emv_qr.rs:264-278 | Equal-length messages that differ in one byte or in two adjacent bytes get different checksums |
| `Crc16.CheckValue` | src/domain/emv_qr.rs:404-412 | The digits one to nine have checksum 29B1 |
| `Tlv.ParsePrinted` | src/domain/emv_qr.rs:257-260 | Parsing what was printed gives back the fields, for all fields with two-character ids and values of at most 99 characters |
| `Tlv.PrintParsed` | src/domain/emv_qr.rs:257-260 | Whatever parses is the print of what it parses to |
| `EmvQr.FoldAlphanum` | src/domain/emv_qr.rs:208-216 | The folding loop maps, drops and trims as the per-character rule says |
| `EmvQr.FoldSettles` | src/domain/emv_qr.rs:208-216 | Folded text is printable ASCII without padding, and folding it again changes nothing |
| `EmvQr.AmountTextMeans` | src/domain/emv_qr.rs:282-292 | The text of an amount reads back as that amount: digits, a point, two digits |
| `EmvQr.AmountFitsIff` | src/domain/emv_qr.rs:282-292 | It fits the thirteen characters if and only if the amount has at most ten digits before the point |
| `EmvQr.AccountFits` | src/domain/emv_qr.rs:328-345 | Tag 26 takes at most 72 characters and prints clean fields |
| `EmvQr.ObjectsFit` | src/domain/emv_qr.rs:304-377 | Every object of an accepted request has a two-character id and a value its two-digit length can carry |
| `EmvQr.SealedParses` | src/domain/emv_qr.rs:360-384 | A sealed payload parses back to exactly its objects followed by tag 63, whose value is the checksum of everything before it |
| `EmvQr.TemplatesParse` | src/domain/emv_qr.rs:363-377 | The nested templates parse back too: tag 26 to the merchant account, tag 62 to the reference |
| `EmvQr.BuildPayload` | src/domain/emv_qr.rs:298-384 | Refuses exactly when a check fails, naming the first one; otherwise appends the objects of the request in order and seals the text |
| `EmvQr.AlterationDetected` | src/domain/emv_qr.rs:379-384 | Changing one character, or two adjacent ones, before the checksum breaks the seal |
| `BankMatching.GreedyMatchesCommon` | src/application/service/bank_reconciliation_service.rs:134-193 | The greedy pass pairs equal amounts without reuse, and of every amount as many as the scarcer side has |
| `BankMatching.GreedyIsMaximum` | src/application/service/bank_reconciliation_service.rs:134-193 | No amount-respecting pairing matches more |
| `BankMatching.BalancedIff` | src/application/service/bank_reconciliation_service.rs:134-193 | Nothing stays open on either side if and only if both sides have the same amounts, counted |
| `BankMatching.ReferencesAgreeIff` | src/application/service/bank_reconciliation_service.rs:140-165 | With no blank reference on the statement, every line is matched with an entry of its own reference if and only if the book holds the statement's references and amounts, counted |
| `BankMatching.MatchLines` | src/application/service/bank_reconciliation_service.rs:134-193 | The loop flags the book entries in place and returns the greedy pairs, the leftovers and the statement total |
| `BankMatching.Reconcile` | src/application/service/bank_reconciliation_service.rs:145-193 | Pairs, leftovers on both sides in order, the balanced flag if and only if the amounts agree, and the difference of the closing balances |
| `PostingRuns.DebitsEqualCredits` | src/application/service/posting_service.rs:103-291 | After every run of posts, approvals, voids, retries and stops the ledger's debits equal its credits |
| `PostingRuns.OnePostPerKey` | src/application/service/posting_service.rs:120-178 | At most one post under a key in every run: one posting of a journal, one void of it |
| `PostingRuns.RepeatHasNoEffect` | src/application/service/posting_service.rs:120-150 | A request that succeeded and is repeated later, whatever came between, changes nothing and gives back its post |
| `PostingRuns.VoidedNetsToZero` | src/application/service/journal_workflow_service.rs:213-270 | A voided journal and its one reversal cancel on every account |
| `PostingRuns.CommitReadSafe` | src/application/service/posting_service.rs:182-291 | A second posting of a journal whose status was read earlier keeps the books sound: the key of the first decides |
| `GlPosting.ReversalNetsToZero` | src/application/service/posting_service.rs:376-393 | A journal and its reversal cancel on every account, and the reversal is as clean and balanced as the journal |
| `PostingBooks.PostingTables.PostOne` | src/application/service/posting_service.rs:103-178 | Posting in place: a repeated request gives back a post that matches it and changes nothing, a refusal adds no post, journal or row, and otherwise one posted journal with its rows and one post are added, a reversal's with the swapped lines |
| `PostingBooks.PostingTables.PostJournalNow` | src/application/service/posting_service.rs:182-291 | Posts an approved journal, that one alone, under its own key; a posted one gives back its post, any other is refused with no row added |
| `PostingBooks.PostingTables.SubmitAs` | src/application/service/journal_workflow_service.rs:136-152 | Submit takes a draft to pending approval and records who submitted it; any other status is refused |
| `PostingBooks.PostingTables.ApproveAs` | src/application/service/journal_workflow_service.rs:154-190 | Approval refuses an author's own journal unless allowed and anything not pending; success posts that journal alone, a refusal by the posting rules leaves it approved with no ledger row |
| `PostingBooks.PostingTables.RejectOne` | src/application/service/journal_workflow_service.rs:192-211 | Reject takes a draft or pending journal to rejected and writes no ledger row; any other status is refused |
| `PostingBooks.PostingTables.VoidOne` | src/application/service/journal_workflow_service.rs:213-270 | Void posts the reversal and only then stamps the posted journal, that one alone; a refused void leaves posts, journals and rows as they were |
| `ChartDataset.Validate` | src/domain/chart_dataset.rs:109-165 | Accepts exactly the datasets meeting all rules, and otherwise names the first bad row or the first missing subtype |
| `ChartInstall.DeriveRows` | src/application/service/chart_install_service.rs:140-181 | On a validated dataset the parent lookup fails exactly when some account is its own parent; otherwise each row has the level, path and header flag of its place in the tree |
| `ChartInstall.RootPathIs` | src/application/service/chart_install_service.rs:140-181 | Without self-parents every account has a path from a root, each step from parent to child |
| `ChartInstall.RootPathUnique` | src/application/service/chart_install_service.rs:140-181 | and only one |
| `ChartInstall.ParentRowFirst` | src/application/service/chart_install_service.rs:140-181 | A row's parent row comes before it, is a header, is one level up, and its path is the prefix |
| `ChartInstall.SelfParentIsAccepted` | src/domain/chart_dataset.rs:131-152 | Any account of an accepted dataset can be made its own parent and the dataset is still accepted |

## Left out

- Database access, SQL text, row locks, org scope and tenancy: a verb is one atomic step on in-memory tables.
- Generated code: entities, builders, DTOs, CRUD services, events, seeders and module wiring.
- HTTP status and error-string tables, logging and event sinks.
- `Decimal` overflow, 28-digit division and formatting beyond two decimals.
- Identifier generation and hashing: fresh ids, and an injective function for the deterministic chart ids.
- Draft journal lines in the reconciliation graph: only posted or voided journals put lines there.
- Journal line descriptions, cost centres, projects, departments, branches and posting metadata.
- The matching-group and party-residual reads, aged buckets, the partner ledger and general-ledger sections: single-pass reads next to the invariants.
- Budget control: its answer is a parameter of posting.
- Check printing and tax-tag repair: their logic is inside single SQL statements.
- The accent and currency tables of the QR code as data.
- ReconcileOutcomes.LinkRetires: stated of the edges a link inserts; grouping afterwards changes no residual, by `ReconcileLeftover.LinkKeepsResiduals`. A deferral listed for both linked documents, or lying on a linked line itself, is not covered.
- ReconcileReversed.UnlinkAllPairsReversal: for unlinked edges that touch no other line of the line's source on its account; such a line could take the reversal first, as `ReconcileShared.FirstFreedWins` shows.
- ReconcileReversed.OrderDoesNotMatter: for touched lines that call for different counterparts, of which those touched call back; `ReconcileShared.OrderMatters` shows why.
- ReconcileUndo.UnlinkUndoesLink: group stamps are not part of it; lines elsewhere in the chain that the link grouped keep their stamp after the unlink, as in the code.
- ReconcileRuns.OpenItemsAgree: for runs in which the lines a link touches have no reversal line on their own side, since `ReconcileMispaired.AgreementFails` shows one without; the equality with the ledger itself is for lines whose face equals their amount; for a foreign-currency line it is with the booked face.
- ReconcileOutcomes.FullSettlementRetires: a side that a true-up of the same link settles is not covered, since the code fails there; `ReconcileOutcomes.RetiredInFullIff` covers both.
- PeriodClose.StatementsAfterClose: for a retained-earnings account that is not itself a profit-and-loss account; `PeriodClose.CloseIntoRevenueKeepsIt` shows what happens otherwise.
