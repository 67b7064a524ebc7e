# Verified model of the admin panel's and importer's core logic

This project models, in Dafny, the parts of the repository whose correctness rests on state, order
or inverse functions, and proves what they promise over all inputs, all runs or all databases.

- **Campaign rules** (`CampaignRules`, `CampaignRoundTrip`, `CampaignForms`, `CampaignStored`,
  `CampaignReading`, `CampaignErrorPaths`): the printer from the form to a definition, the parser back,
  and the function that sends an error path to a field or a row. The catalogue is a parameter; the
  shipped one is an instance of it. What each field takes from any stored value, and where in the
  printed definition it stands, is stated apart from printer and parser. The round trip is a projection onto a normal form; the exact condition under which a definition
  survives it is proved, from the form's side and from the stored definition's, and that a second round
  trip always is the identity.
- **Confirmation proofs** (`ConfirmationProof`, `ConfirmationRuns`, `ConfirmationServer`,
  `ConfirmGate`): minting, verifying and spending against an expiring ledger, over whole runs; the
  greedy matching of tokens to keys; and the gate in the page end to end with the action.
- **Unsaved changes** (`DirtyForm`, `StickyActionBar`): writing submitted entries back into a form as
  the inverse of reading them, and the bar as a state machine over fields, baseline, submission and
  browser history, whose traversals are queued and delivered later.
- **Category waves** (`CategoryWave`, `CategoryImport`, `CategoryConvergence`, `CategoryFailures`,
  `ProviderEnrollment`): the up-front check, the three-pass importer over the tables it writes with the
  constraints that can refuse a write, where a refused import stops, and the opening of draft services.
- **Fixture allocators** (`FixtureAllocators`): districts claimed by any number of processes through
  exclusive creates, and phone numbers from private blocks.
- **Redirect landing** (`RouterRecorder`, `RouterEvents`): the trace the in-page recorder builds, the
  verdict read from it, and both in terms of the events that happened in the page.
- **Two readers** (`CreditAmount`, `SessionCookie`): a manual credit amount, and the API's session
  cookie.

`Text` holds the string operations these share (trim, split, join, decimal text), `JavaScriptNumbers`
what Number and String make of whole numbers, `Options` a value that may be absent, `Sequences` lists
without repeats and what an appending loop computes. Code that updates state in place is
a class with methods, each proved equal to a function of the old state; the promises are lemmas about
those functions. `dafny verify dfyconfig.toml` checks everything.

## Where the code and its description differ

The model follows the code. These are the places where that matters:

- The importer's own comment says shape errors are found before the first row is written. The
  up-front check does not look for a condition source listed twice, a routed option listed twice or a
  price that is not positive; the database refuses those half-way through the passes
  (`CategoryConvergence.CheckIsNotEnough`, `CategoryConvergence.ImportSucceedsExactly`).
- The importer remembers question ids under the category's slug, two colons and the question's key.
  Two questions can share that name when a slug holds a colon; one of them then keeps whatever
  conditions and rules it had (`CategoryConvergence.ConvergesExactly`,
  `CategoryConvergence.ClashingWaveFails`).
- The guard's cleanup is said to be taken back silently. The flag that silences it is one boolean, and
  the first move that lands takes it. With moves still pending when the guard is dropped, the cleanup is
  heard, or asked about, exactly when one of them lands inside the history and the cleanup itself does
  too (`StickyActionBar.CleanupNoticedExactly`): Back
  pressed just before the form is cleared leaves the page (`StickyActionBar.BackThenClearLeaves`), and so
  does a second cleanup (`StickyActionBar.SecondCleanupIsHeard`,
  `StickyActionBar.SecondCleanupIsAskedAbout`). With nothing pending it is silent
  (`StickyActionBar.CleanupIsSilent`). In any run, with edits and saves in between, a traversal that lands
  is silent exactly when a guard entry was taken back since the last one that landed
  (`StickyActionBar.TraversalIsSilentExactly`).
- A save that is lost is said to leave the form dirty because it differs. A file cannot be put back, so
  a lost save of nothing but a file leaves the bar dirty with nothing to save
  (`StickyActionBar.LostFileStaysDirty`). After a lost save the form differs exactly when some control
  that can be written back differs between what was sent and what was restored
  (`StickyActionBar.DirtyAfterLostSave`, `DirtyForm.SnapshotTellsExactly`).
- A number field is said never to coerce. A whole number whose double is 10^21 or more is printed with
  an exponent when it is read back, and is a text from then on (`CampaignRoundTrip.NumberRoundTrip`,
  `CampaignRoundTrip.BigNumberChanges`).
- A stored condition of an unknown type is meant to become an empty row; a type named like a property
  every object inherits is kept, because `in` finds it (`CampaignStored.InheritedTypeIsKept`). Every row
  read is empty or of a catalogued type exactly when no stored condition has such a type
  (`CampaignStored.KindsAreListedExactly`).
- Re-sent confirmation tokens are refused for a key only if the first submission used up every unexpired
  proof minted for it; a decision that names one key twice leaves one over (`ConfirmGate.Resubmission`,
  `ConfirmGate.RepeatedKeyIsAcceptedTwice`). The type of a decision allows that, but no caller builds
  one: the longest lists hold distinct keys
  (apps/admin/app/system-health/notification-settings/last-critical-step.tsx:44,
  apps/admin/app/categories/category-changes.ts:147-155).
- Single use of a proof depends on the clock. A proof is accepted again exactly when a verification in
  between reached the ledger with the clock at or past its expiry and the clock then went back
  (`ConfirmationRuns.ReplayedExactly`, `ConfirmationRuns.ClockRollbackReplays`); with a clock that never
  goes back it is not (`ConfirmationRuns.SingleUse`).
- The cookie parser is said to answer null to anything it cannot make sense of. A value that
  percent-decoding refuses throws instead (`SessionCookie.ParseOfRender`; `a=%` is one,
  `SessionCookie.LonePercentThrows`), also in a neighbouring cookie that stands before the session cookie
  (`SessionCookie.UnreadableNeighbourDecides`).
- The landing judge looks at the redirecting action that was sent last, not answered last: a redirect
  that arrives late for an earlier action reopens nothing (`RouterRecorder.LandingLastsExactly`,
  `RouterRecorder.LateRedirectIsOverlooked`).

## Assumptions

- Decoding a base64url JSON payload inverts encoding it, neither part of a token contains a dot or is
  empty, and only minted tokens carry a valid signature (section 5 of RFC 4648 and RFC 2104 are not
  modelled). Minted nonces are distinct. Single use needs neither of the last two.
- A form's same-named controls are of one kind, with distinct values for check boxes, radio buttons
  and options; at most one radio button of a name is on; a single select always has an option chosen.
- A table row is named by its unique key (a category's slug, a question's category and key), which
  the importer never changes, instead of its generated id.

## Model

| member | source | states |
|---|---|---|
| `CampaignRules.ConditionArguments` | apps/admin/lib/campaign-rules.ts:334-352 | each argument of the row's condition type is printed from what was typed, by its kind, and nothing else is printed |
| `CampaignRules.CollectConditions` | apps/admin/lib/campaign-rules.ts:377-395 | the one-pass loop with its placeholder yields the rows in order with every "any" row in one group at the place of the first of them |
| `CampaignRules.BuildDefinition` | apps/admin/lib/campaign-rules.ts:377-424 | the printed definition is the specification's, every section included |
| `CampaignRules.RootListSnoc` | apps/admin/lib/campaign-rules.ts:381-395 | what one more row does to the root list: a condition at its end, a new group, or a change inside the group only |
| `CampaignRules.RowBuilder.NewConditionRow` | apps/admin/lib/campaign-rules.ts:301-305 | an empty "all" row whose id is numbered one above every earlier one |
| `CampaignRules.RowBuilder.RowFromCondition` | apps/admin/lib/campaign-rules.ts:441-457 | a stored condition is read as a row of the given group, or throws exactly when an argument read as a text has none; a type that is neither in the catalogue nor a name every object inherits becomes an empty row |
| `CampaignRules.RowBuilder.FormFromDefinition` | apps/admin/lib/campaign-rules.ts:460-510 | any JSON value is read as the specified form, ids aside, all row ids new and distinct; it throws exactly when some value it reads as a text is an object with a toString of its own, or an array holding one |
| `CampaignRules.RowIdInjective` | apps/admin/lib/campaign-rules.ts:304-304 | two row ids with different sequence numbers differ whatever the clock said |
| `JavaScriptNumbers.DoubleStays` | apps/admin/lib/campaign-rules.ts:315-315 | rounding a whole number to a double a second time changes nothing |
| `JavaScriptNumbers.DoubleIsNearest` | apps/admin/lib/campaign-rules.ts:315-315 | no double is nearer to a whole number than the one it is read as, and of two equally near ones that is the one with the even mantissa |
| `JavaScriptNumbers.ShortestReads` | apps/admin/lib/campaign-rules.ts:431-433 | what String prints of a double reads as that double again |
| `JavaScriptNumbers.ShortestIsShortest` | apps/admin/lib/campaign-rules.ts:431-433 | no decimal that reads as the double has more trailing zeros than the one printed |
| `JavaScriptNumbers.ExponentReads` | apps/admin/lib/campaign-rules.ts:431-433 | with an exponent a number is printed as its first digit, the others down to the last that is not zero after a point, and how many digits follow the first |
| `JavaScriptNumbers.SafeIsPrintedPlainly` | apps/admin/lib/campaign-rules.ts:431-433 | a number in the safe range is printed digit by digit |
| `CampaignRoundTrip.NumberRoundTrip` | apps/admin/lib/campaign-rules.ts:312-316 | a number field prints the same after being read back exactly when it does not hold a whole number whose double is 10^21 or more |
| `CampaignRoundTrip.SafeNumberIsStable` | apps/admin/lib/campaign-rules.ts:312-316 | in the safe range the number typed is the number printed and the number shown again |
| `CampaignRoundTrip.BigNumberChanges` | apps/admin/lib/campaign-rules.ts:312-316 | 10^21 typed into a number field comes back as a text and prints differently |
| `CampaignRoundTrip.InstantRoundTrip` | apps/admin/lib/campaign-rules.ts:319-323 | an instant field survives exactly when it is not a text that begins with a minute and goes on differently from the printed form |
| `CampaignRoundTrip.ListRoundTrip` | apps/admin/lib/campaign-rules.ts:325-332 | splitting a comma list after joining it is the identity exactly on lists of trimmed, non-empty, comma-free items |
| `CampaignRoundTrip.TypedListIsClean` | apps/admin/lib/campaign-rules.ts:325-332 | whatever text is typed, the list read from it is trimmed, non-empty and comma-free |
| `CampaignRoundTrip.ArgumentRoundTrip` | apps/admin/lib/campaign-rules.ts:336-350 | an argument prints the same after a round trip exactly when it is stable for its kind |
| `CampaignRoundTrip.ConditionRoundTrip` | apps/admin/lib/campaign-rules.ts:334-352 | a condition survives the round trip exactly when each of its arguments does |
| `CampaignRoundTrip.RegroupedKeepsRows` | apps/admin/lib/campaign-rules.ts:377-395 | regrouping neither loses nor invents a row and keeps the order inside both groups |
| `CampaignRoundTrip.RowsComeBack` | apps/admin/lib/campaign-rules.ts:441-481 | the rows read from a printed form are its rows regrouped, each normalised, ids aside |
| `CampaignRoundTrip.RootListRoundTrip` | apps/admin/lib/campaign-rules.ts:377-395 | the condition list prints the same after a round trip exactly when every row is stable |
| `CampaignForms.ReadsBackNormalised` | apps/admin/lib/campaign-rules.ts:460-510 | a well-typed form printed and read back is its normal form, every field accounted for |
| `CampaignForms.DefinitionRoundTrip` | apps/admin/lib/campaign-rules.ts:377-510 | printing, reading and printing again gives the first definition exactly when every number field, both window fields and every row argument are stable |
| `CampaignForms.SecondRoundTripIsIdentity` | apps/admin/lib/campaign-rules.ts:377-510 | whatever was typed, a form that has been read back once prints a definition that stays as it is |
| `CampaignForms.ShippedCatalogOk` | packages/shared/campaign-rules.json:1-121 | the shipped catalogue meets what the round trip asks of a catalogue |
| `CampaignForms.ShippedRowsStable` | packages/shared/campaign-rules.json:1-121 | with the shipped catalogue only a number from 10^21 on, or a slug list handed over as an array of unclean items, makes a row unstable |
| `CampaignForms.ShippedRoundTrip` | packages/shared/campaign-rules.json:1-121 | with the shipped catalogue, exactly which definitions survive being read back and printed again |
| `CampaignStored.KindsAreListedExactly` | apps/admin/lib/campaign-rules.ts:441-447 | every row read is empty or of a catalogued type exactly when no stored condition, alternatives included, has an inherited name outside the catalogue for a type |
| `CampaignStored.InheritedTypeIsKept` | apps/admin/lib/campaign-rules.ts:443-443 | a stored condition of type toString becomes a row of that type |
| `CampaignStored.StoredCondition` | apps/admin/lib/campaign-rules.ts:334-457 | a stored condition read and printed again is itself exactly when it has just its type's arguments, each as the form prints it |
| `CampaignStored.StoredRoot` | apps/admin/lib/campaign-rules.ts:377-481 | a stored condition list read and printed again is itself exactly when its conditions are as printed and at most one entry is a group, not empty and nothing but its alternatives |
| `CampaignStored.StoredSurvivesExactly` | apps/admin/lib/campaign-rules.ts:377-510 | exactly which stored definitions are read without throwing and printed again unchanged: a condition on the definition's own sections, names and values |
| `CampaignStored.InstantIsCut` | apps/admin/lib/campaign-rules.ts:319-439 | a window start stored with seconds or an offset is printed again cut to its minute, so the definition changes |
| `CampaignStored.DefinitionIsReadable` | apps/admin/lib/campaign-rules.ts:377-510 | no form prints a definition whose reading throws |
| `CampaignStored.StableFormsPrintIt` | apps/admin/lib/campaign-rules.ts:377-510 | the definition a form prints is of the surviving shape exactly when the form is stable |
| `CampaignReading.PlainTexts` | apps/admin/lib/campaign-rules.ts:431-433 | String of null, a text or a truth value is the word, the text or the word |
| `CampaignReading.ArrayText` | apps/admin/lib/campaign-rules.ts:431-433 | String of an array joins the texts of its items with commas, null items empty |
| `CampaignReading.ChoicesAreRead` | apps/admin/lib/campaign-rules.ts:461-508 | for any stored value, each choice of the form is the stored one exactly when that is a text on offer, and the default exactly otherwise |
| `CampaignReading.NumbersAreRead` | apps/admin/lib/campaign-rules.ts:482-504 | for any stored value, each number field is the text of what is stored under its own name, empty when nothing is |
| `CampaignReading.WindowIsRead` | apps/admin/lib/campaign-rules.ts:435-439 | for any stored value, a window field is the minute the stored text begins with, the whole of any other text, and empty for anything else |
| `CampaignReading.FactsAreRead` | apps/admin/lib/campaign-rules.ts:467-470 | for any stored value, the facts are the stored ones the catalogue knows, in their order |
| `CampaignReading.RowsAreRead` | apps/admin/lib/campaign-rules.ts:441-481 | wherever an entry stands in the stored list, its rows stand in its place: one per alternative of a group, each with its group, its known type and that type's arguments |
| `CampaignReading.NothingStored` | apps/admin/lib/campaign-rules.ts:460-510 | an absent section leaves its fields empty, an absent choice the default: what a definition that is no object gives, field by field |
| `CampaignReading.NoChannelIsAll` | apps/admin/lib/campaign-rules.ts:505-508 | a definition saved before channels existed reads as channel ALL |
| `CampaignReading.ObjectText` | apps/admin/lib/campaign-rules.ts:431-433 | String of an object is one text for all objects, and throws exactly for one with a toString of its own |
| `CampaignReading.ThrowsExactly` | apps/admin/lib/campaign-rules.ts:431-510 | reading throws exactly when a value stored for a number, a fact or an argument of a condition has no text, at any depth |
| `CampaignReading.WholeIsPrinted` | apps/admin/lib/campaign-rules.ts:312-316 | a safe whole number, with leading zeros and white space around it, is printed as that number, negative or not |
| `CampaignReading.OtherIsPrinted` | apps/admin/lib/campaign-rules.ts:312-316 | an empty number or instant field prints null, and a text with any other character prints itself trimmed |
| `CampaignReading.WallTimeIsPrinted` | apps/admin/lib/campaign-rules.ts:319-323 | a wall time is printed as that minute in UTC, any other text as itself |
| `CampaignReading.MinuteIsWritten` | apps/admin/lib/campaign-rules.ts:319-323 | a text with the separators of YYYY-MM-DDTHH:mm in their places is a minute exactly when everything between them is digits |
| `CampaignReading.EveryMinuteIs` | apps/admin/lib/campaign-rules.ts:319-323 | every minute is written that way |
| `CampaignReading.TypedListIsRead` | apps/admin/lib/campaign-rules.ts:325-332 | the items of a typed list are the trimmed texts between its commas, empty ones left out |
| `CampaignReading.ArgumentsArePrinted` | apps/admin/lib/campaign-rules.ts:334-352 | a condition holds its type and under each argument's name what was typed there, by kind; the only value of a one-value choice stands in for nothing typed |
| `CampaignReading.NewFormPrints` | apps/admin/lib/campaign-rules.ts:280-424 | a new form prints one redemption per provider, thirty days, the defaults, and no other number, instant or row |
| `CampaignErrorPaths.RowAt` | apps/admin/lib/campaign-rules.ts:557-577 | the layout loop and the look-up find the row at a pair of indices, or none |
| `CampaignErrorPaths.PathHoldsCondition` | apps/admin/lib/campaign-rules.ts:377-395 | the path of a row holds that row's condition in the printed definition |
| `CampaignErrorPaths.PathResolves` | apps/admin/lib/campaign-rules.ts:557-577 | the path of a row resolves to exactly that row |
| `CampaignErrorPaths.PathsDistinct` | apps/admin/lib/campaign-rules.ts:527-577 | distinct rows have distinct paths |
| `CampaignErrorPaths.ResolvedPathIsPrinted` | apps/admin/lib/campaign-rules.ts:557-577 | a path that resolves is some row's path: any index pair outside the layout resolves to none |
| `CampaignErrorPaths.PathTextReads` | apps/admin/lib/campaign-rules.ts:542-547 | the pattern reads back the indices and the argument of any path written for a condition |
| `CampaignErrorPaths.ErrorLandsOnRow` | apps/admin/lib/campaign-rules.ts:527-555 | an error at a row's path, or at an argument of it, lands on that row and that argument |
| `CampaignErrorPaths.ErrorOutsideRows` | apps/admin/lib/campaign-rules.ts:527-555 | an error at any other place of the condition list lands on the list |
| `CampaignErrorPaths.ErrorLandsOnField` | apps/admin/lib/campaign-rules.ts:527-555 | an error at the path where the printed definition holds a form field, looked up step by step, lands on that field |
| `CampaignErrorPaths.PathHoldsNothing` | apps/admin/lib/campaign-rules.ts:397-424 | the printed definition holds nothing at the path of a field the form does not print: the facts under another trigger, the policy without a credit benefit |
| `CampaignErrorPaths.ErrorInFacts` | apps/admin/lib/campaign-rules.ts:529-529 | an error anywhere in the eligibility section lands on the facts |
| `CampaignErrorPaths.ErrorInPolicy` | apps/admin/lib/campaign-rules.ts:534-536 | an error in the credit policy that is at neither of its choices lands on the policy |
| `CampaignErrorPaths.ErrorElsewhere` | apps/admin/lib/campaign-rules.ts:527-555 | an error at no field's place and no condition's lands on the condition list if its path begins so, and on the form otherwise |
| `CampaignErrorPaths.ErrorAtGroup` | apps/admin/lib/campaign-rules.ts:542-552 | an error at a group as a whole lands on the list |
| `CampaignErrorPaths.ErrorWithoutIndex` | apps/admin/lib/campaign-rules.ts:542-553 | without a number between the brackets the error lands on the list |
| `CampaignErrorPaths.ErrorBesideArgument` | apps/admin/lib/campaign-rules.ts:542-550 | what follows a row's path and is no argument's name is ignored: the error lands on the row |
| `ConfirmationProof.ProofStore.PruneLedger` | apps/admin/lib/confirmation-proof.ts:152-156 | exactly the entries that have expired are deleted |
| `ConfirmationProof.ProofStore.VerifyAndSpend` | apps/admin/lib/confirmation-proof.ts:104-150 | the verdict is the first check that fails, and the ledger changes only when the ledger is reached |
| `ConfirmationProof.RefusalDoesNotInterfere` | apps/admin/lib/confirmation-proof.ts:99-156 | after a refusal every other token is accepted or refused as before, now and later; a ledger that was reached holds only unexpired nonces |
| `ConfirmationProof.AcceptanceSpendsOneNonce` | apps/admin/lib/confirmation-proof.ts:140-149 | an acceptance turns tokens of its own nonce into replays until it expires and changes no other verdict |
| `ConfirmationProof.MintedIsGood` | apps/admin/lib/confirmation-proof.ts:82-97 | a minted token passes every check in its own session, for its own key, before its expiry, and fails on scope or expiry otherwise |
| `ConfirmationProof.GoodIsSigned` | apps/admin/lib/confirmation-proof.ts:113-144 | a token that passes carries a signed part that decodes to an unexpired payload of its key and session |
| `ConfirmationProof.MintedAnywhere` | apps/admin/lib/confirmation-proof.ts:104-150 | the verdict on a minted token presented with any key and session at any time: the reason is the first check it fails |
| `ConfirmationProof.UnsignedIsRefused` | apps/admin/lib/confirmation-proof.ts:113-121 | no token is missing; one part, or an empty one, is malformed; a second part that does not sign the first is refused for its signature; a signed first part that holds no payload is malformed |
| `ConfirmationProof.ThreePartsAreRefused` | apps/admin/lib/confirmation-proof.ts:113-116 | a token of more than two parts is malformed, signed or not |
| `ConfirmationRuns.RememberedExactly` | apps/admin/lib/confirmation-proof.ts:144-156 | with any clock, a spent nonce is in the ledger exactly until a verification that reaches the ledger sees the clock at or past its expiry |
| `ConfirmationRuns.AcceptedAgainExactly` | apps/admin/lib/confirmation-proof.ts:140-156 | with any clock, a spent nonce is accepted again exactly when a verification since, or this one, reached the ledger with the clock at or past the spent expiry |
| `ConfirmationRuns.ReplayedExactly` | apps/admin/lib/confirmation-proof.ts:140-156 | with any clock, the same proof is accepted again exactly when a verification in between reached the ledger with the clock at or past its expiry |
| `ConfirmationRuns.SingleUse` | apps/admin/lib/confirmation-proof.ts:104-156 | with a clock that never goes back, no run accepts a token or a payload twice, whatever is interleaved |
| `ConfirmationRuns.ClockRollbackReplays` | apps/admin/lib/confirmation-proof.ts:144-156 | with a clock that goes back, some run accepts one minted token twice |
| `ConfirmationRuns.AcceptedInTime` | apps/admin/lib/confirmation-proof.ts:82-150 | an accepted token was minted earlier for the same key and session fingerprint, less than one lifetime ago |
| `ConfirmationRuns.Conservation` | apps/admin/lib/confirmation-proof.ts:82-150 | in every run the acceptances for a key and session never outnumber the proofs minted for them |
| `ConfirmationRuns.LedgerStaysSmall` | apps/admin/lib/confirmation-proof.ts:146-156 | after a verification that reaches the ledger, every nonce in it is of a proof minted less than one lifetime ago |
| `ConfirmationServer.ConfirmationGuard.Issue` | apps/admin/lib/confirmation-proof-server.ts:52-56 | no token exactly when there is no session; the token passes for its own key in its own session until one lifetime later, and for no other key, time or session fingerprint |
| `ConfirmationServer.ConfirmationGuard.SpendFirst` | apps/admin/lib/confirmation-proof-server.ts:97-103 | the tokens are tried in turn until one verifies; its index and the ledger are those of the specification |
| `ConfirmationServer.ConfirmationGuard.HasConfirmationProofs` | apps/admin/lib/confirmation-proof-server.ts:91-108 | the loop over distinct keys with its splice returns and leaves what the key-by-key matching does |
| `ConfirmationServer.TryEachFinds` | apps/admin/lib/confirmation-proof-server.ts:97-103 | trying each token spends the first good one of the key and nothing else |
| `ConfirmationServer.MatchingIsExact` | apps/admin/lib/confirmation-proof-server.ts:91-108 | the greedy matching succeeds if and only if every key has a good unspent token; it spends the first good token of each key before the first uncovered one, and nothing else |
| `ConfirmationServer.OneSpentPerKey` | apps/admin/lib/confirmation-proof-server.ts:91-108 | exactly one nonce is spent per covered key |
| `ConfirmationServer.DistinctKeepsOrder` | apps/admin/lib/confirmation-proof-server.ts:94-94 | the distinct keys stand in the order in which they are first asked for |
| `ConfirmationServer.SpendsInOrder` | apps/admin/lib/confirmation-proof-server.ts:91-108 | of the caller's own list: success exactly when every key has a good token; either way the nonces spent are exactly those of the first good tokens of the keys asked for before the first uncovered one |
| `ConfirmGate.Gate.Confirm` | apps/admin/components/confirm-gate.tsx:94-102 | a press while a confirmation is under way starts nothing; otherwise one proof per key is asked for |
| `ConfirmGate.Gate.Settle` | apps/admin/components/confirm-gate.tsx:106-125 | all proofs or none: one submission with one carrier per proof, the shadowed button's entry included, or an error and no submission; the carriers are gone afterwards and the gate is free |
| `ConfirmGate.SubmissionCarriesTokens` | apps/admin/components/confirm-gate.tsx:115-118 | the action reads exactly the minted tokens, in order, from such a submission, whatever entry the shadowed button adds |
| `ConfirmGate.GateOpensAction` | apps/admin/components/confirm-gate.tsx:94-126 | at any time the minted tokens satisfy the action for a list of keys exactly when each key has an unexpired proof among them |
| `ConfirmGate.SettledSubmissionOpens` | apps/admin/components/confirm-gate.tsx:106-125 | from the answers of the mints through the submitted form to the action: it is satisfied exactly for the lists of keys with an unexpired proof |
| `ConfirmGate.SubmissionKeepsForm` | apps/admin/components/confirm-gate.tsx:106-125 | a submission holds the form's own entries and the pressed button's, unchanged and in order, besides the proofs |
| `ConfirmGate.OneMintMissing` | apps/admin/components/confirm-gate.tsx:106-112 | one proof not minted, of however many: no submission, and the dialog says so |
| `ConfirmGate.SpentByFirst` | apps/admin/lib/confirmation-proof-server.ts:91-108 | after the first submission a proof is spent exactly when it is the first unexpired one of a key that was asked for |
| `ConfirmGate.Resubmission` | apps/admin/lib/confirmation-proof-server.ts:91-108 | sent again later, the tokens satisfy exactly the lists whose every key has an unexpired proof the first submission did not spend |
| `ConfirmGate.RequestsRemember` | apps/admin/lib/confirmation-proof-server.ts:91-108 | whatever other submissions are checked meanwhile, a spent nonce stays spent until it expires |
| `ConfirmGate.NoSecondSubmission` | apps/admin/components/confirm-gate.tsx:94-126 | with distinct keys and a clock that never goes back, a non-empty list already satisfied is refused when the tokens are sent again, whatever else is submitted in between and whether or not they have expired |
| `ConfirmGate.RepeatedKeyIsAcceptedTwice` | apps/admin/components/confirm-gate.tsx:102-118 | a confirmation that names one key twice has its tokens accepted twice |
| `DirtyForm.SnapshotEntries` | apps/admin/lib/dirty-form.ts:73-86 | the loop keeps the name and text of every entry but React's own, a file by its name and size |
| `DirtyForm.Form.ApplyEntries` | apps/admin/lib/dirty-form.ts:47-70 | the visit of the elements with its counters per name sets them as specified |
| `DirtyForm.TextAtRank` | apps/admin/lib/dirty-form.ts:64-68 | the text a value-taking control submitted is the one found at its rank among its name's values |
| `DirtyForm.NothingSentClears` | apps/admin/lib/dirty-form.ts:47-70 | writing back entries that hold no text for a control clears it, whatever it held: empty, off, nothing picked |
| `DirtyForm.SubmittedByItself` | apps/admin/lib/dirty-form.ts:60-63 | a tick or option value is among its name's values exactly when that very control submitted it |
| `DirtyForm.FieldComesBack` | apps/admin/lib/dirty-form.ts:47-70 | writing back what was read gives each writable control its state |
| `DirtyForm.SnapshotTellsField` | apps/admin/lib/dirty-form.ts:72-86 | states with equal snapshots agree on every writable control whose name no file box shares |
| `DirtyForm.SnapshotTellsExactly` | apps/admin/lib/dirty-form.ts:1-10 | two states whose files show the same have different snapshots exactly when they differ in a control that can be written back |
| `DirtyForm.WriteBackInvertsRead` | apps/admin/lib/dirty-form.ts:40-70 | writing entries read in one state into any other state restores every writable control and leaves the others |
| `DirtyForm.WriteBackSubmitsTheSame` | apps/admin/lib/dirty-form.ts:40-86 | without files, the form's snapshot after a write-back is that of the state read |
| `DirtyForm.WriteBackSubmitsEntries` | apps/admin/lib/dirty-form.ts:25-70 | without files and React's own fields it then submits exactly the entries read, in order |
| `StickyActionBar.StickyBar.constructor` | apps/admin/components/sticky-action-bar.tsx:66-76 | the bar starts clean, with the page's first snapshot as its baseline |
| `StickyActionBar.StickyBar.SetGuardTo` | apps/admin/components/sticky-action-bar.tsx:78-90 | the guard entry is pushed once, or taken back silently if it is still on top |
| `StickyActionBar.StickyBar.UpdateTo` | apps/admin/components/sticky-action-bar.tsx:92-97 | only a change of dirtiness moves the guard |
| `StickyActionBar.StickyBar.OnInput` | apps/admin/components/sticky-action-bar.tsx:98-101 | an edit forgets the submission and compares with the baseline |
| `StickyActionBar.StickyBar.OnReset` | apps/admin/components/sticky-action-bar.tsx:103-109 | a reset takes the submission and leaves the comparison to a timer |
| `StickyActionBar.StickyBar.OnTimer` | apps/admin/components/sticky-action-bar.tsx:109-120 | the timer writes a lost submission back and stays dirty, or takes the restored fields as clean |
| `StickyActionBar.StickyBar.OnSubmit` | apps/admin/components/sticky-action-bar.tsx:122-124 | a submission is remembered and nothing else changes |
| `StickyActionBar.StickyBar.OnDocumentClick` | apps/admin/components/sticky-action-bar.tsx:130-150 | a leaving click on a dirty form is prevented unless the question is answered with yes |
| `StickyActionBar.StickyBar.OnPopState` | apps/admin/components/sticky-action-bar.tsx:151-169 | the guard's own cleanup is swallowed; a move from the guard is asked about; only other moves reach the router |
| `StickyActionBar.InvStep` | apps/admin/components/sticky-action-bar.tsx:78-169 | every event keeps the invariant: a form that differs is dirty once no reset waits, without files the converse too, and the guard stands exactly while dirty |
| `StickyActionBar.Run` | apps/admin/components/sticky-action-bar.tsx:66-169 | whatever happens in whatever order, the invariant holds after every event of a run |
| `StickyActionBar.EveryRun` | apps/admin/components/sticky-action-bar.tsx:66-169 | in every run, with any moves: once no reset waits to be judged a form that differs from the baseline is dirty, without files a dirty form differs, and until someone answers yes guarded equals dirty |
| `StickyActionBar.DirtyMoveIsStopped` | apps/admin/components/sticky-action-bar.tsx:151-169 | a move of any length that arrives while the form is dirty never reaches the router, whatever cleanup is queued |
| `StickyActionBar.DirtyMoveLandsHere` | apps/admin/components/sticky-action-bar.tsx:78-169 | in every run of single steps a move that arrives while the form is dirty lands on this page |
| `StickyActionBar.NoDirtyMoveIsHeard` | apps/admin/components/sticky-action-bar.tsx:151-169 | over every run without a yes, a move delivered while the form is dirty is not heard by the router |
| `StickyActionBar.LeavingTakesYes` | apps/admin/components/sticky-action-bar.tsx:130-169 | no run sets the flag that lets clicks and moves through unless a question was answered with yes |
| `StickyActionBar.LeavesOnlyClean` | apps/admin/components/sticky-action-bar.tsx:130-169 | a run in which nobody says yes leaves the page, if it does, at a moment when the form is clean |
| `StickyActionBar.YesQueuesOneStepBack` | apps/admin/components/sticky-action-bar.tsx:151-169 | the question answered with yes: the guard is down, exactly one step back is queued behind what is pending, and the router heard nothing yet |
| `StickyActionBar.NoPutsTheGuardBack` | apps/admin/components/sticky-action-bar.tsx:151-169 | answered with no: the guard's entry is on top again and nothing is queued |
| `StickyActionBar.HeardAfterYes` | apps/admin/components/sticky-action-bar.tsx:151-169 | in every run after a yes, a traversal that lands is heard exactly when no guard entry was taken back since the last one that landed |
| `StickyActionBar.BackAnsweredYesLeaves` | apps/admin/components/sticky-action-bar.tsx:130-169 | from Mounted: edit, Back, yes and the queued step end one entry before the page's own, heard once, and unmounted exactly when that entry is another page |
| `StickyActionBar.BackAnsweredNoStays` | apps/admin/components/sticky-action-bar.tsx:130-169 | from Mounted: edit, Back and no leave everything as after the edit |
| `StickyActionBar.ClickLeavesUnlessPrevented` | apps/admin/components/sticky-action-bar.tsx:130-150 | a leaving click takes the page away exactly unless the form is dirty and the question is answered with no |
| `StickyActionBar.UserResetIsTaken` | apps/admin/components/sticky-action-bar.tsx:103-120 | a person's own reset takes the restored fields as clean, whatever had been submitted |
| `StickyActionBar.SubmissionIsKept` | apps/admin/components/sticky-action-bar.tsx:103-124 | until an edit, a submission or a reset, moves and clicks leave the submission, the fields and the baseline alone |
| `StickyActionBar.SaveIsJudged` | apps/admin/components/sticky-action-bar.tsx:47-120 | after a submission and React's reset the bar is clean exactly when the restored fields would submit what was sent; otherwise the submitted values, files aside, are back in the fields and it is dirty |
| `StickyActionBar.DirtyAfterLostSave` | apps/admin/components/sticky-action-bar.tsx:47-120 | after a save that was lost, dirty means different exactly when some control that can be written back differs between what was sent and what was restored; after one that landed it always does |
| `StickyActionBar.LostFileStaysDirty` | apps/admin/components/sticky-action-bar.tsx:103-120 | the run of choosing a file, submitting, React's reset and its timer: the bar is dirty although the form would submit what the server kept |
| `StickyActionBar.CleanupNoticedExactly` | apps/admin/components/sticky-action-bar.tsx:78-90 | with moves pending when the guard is dropped and delivered before anything else happens, the router hears the cleanup exactly when one of them lands inside the history and the cleanup does too; if the form then becomes dirty a question is asked exactly when one landed |
| `StickyActionBar.TraversalIsSilentExactly` | apps/admin/components/sticky-action-bar.tsx:78-169 | in every run, edits and saves in between included, a traversal that lands is silent exactly when a guard entry was taken back since the last traversal that landed; else it is asked about while the guard stands and heard otherwise |
| `StickyActionBar.CleanupIsSilent` | apps/admin/components/sticky-action-bar.tsx:82-89 | dropped with nothing pending, the guard's cleanup is the next move to arrive and is neither heard nor asked about, whatever happens before it |
| `StickyActionBar.BackThenClearLeaves` | apps/admin/components/sticky-action-bar.tsx:82-89 | on a fresh page: typed, Back pressed, cleared; the Back is swallowed in the cleanup's place, and the cleanup then leaves the page |
| `StickyActionBar.SecondCleanupIsHeard` | apps/admin/components/sticky-action-bar.tsx:78-90 | of two cleanups queued at once the second reaches the router |
| `StickyActionBar.SecondCleanupIsAskedAbout` | apps/admin/components/sticky-action-bar.tsx:78-90 | if the form is dirty when the second of two cleanups arrives, a leave question is asked that nobody caused |
| `CategoryWave.CheckCondition` | prisma/category-import/import-categories.ts:303-337 | no complaint exactly when the condition reads an earlier question of the category in a way it can answer; otherwise the first thing wrong with it: its source, then the order, the mode, the first value not offered |
| `CategoryWave.CheckQuestion` | prisma/category-import/import-categories.ts:289-346 | no complaint exactly when the question's options, conditions and rules are coherent; otherwise the first thing wrong with it, in that order |
| `CategoryWave.CheckQuestions` | prisma/category-import/import-categories.ts:273-347 | no complaint exactly when the category's questions are coherent; otherwise the first repeated key, then several routers, then the first question's |
| `CategoryWave.CheckWave` | prisma/category-import/import-categories.ts:254-271 | the up-front check is silent exactly on coherent waves, and otherwise names the first thing wrong: the first repeated slug, or what is wrong with the first category that is not coherent |
| `CategoryWave.OneComplaint` | prisma/category-import/import-categories.ts:246-345 | no two complaints are both the first there is, and a wave there is one about is not coherent |
| `CategoryWave.ComplaintExists` | prisma/category-import/import-categories.ts:246-345 | about every wave that is not coherent there is one |
| `CategoryWave.RoutersCount` | prisma/category-import/import-categories.ts:284-287 | counting the filtered routing questions asks whether two exist |
| `CategoryWave.OptionKeysCount` | prisma/category-import/import-categories.ts:290-301 | comparing the set's size with the list's length asks whether a key repeats |
| `CategoryImport.Importer.SaveOneCategory` | prisma/category-import/import-categories.ts:64-120 | an existing row gets the structure and at most a missing price; a new row gets everything; a missing parent or a refused price stops |
| `CategoryImport.Importer.SaveAllQuestions` | prisma/category-import/import-categories.ts:125-176 | every question of the wave is written and its id remembered under its name |
| `CategoryImport.Importer.WriteAllConditions` | prisma/category-import/import-categories.ts:188-211 | the question's conditions are replaced one by one until one cannot be created |
| `CategoryImport.Importer.WriteAllRules` | prisma/category-import/import-categories.ts:213-235 | the question's router rules are replaced one by one, numbered in tens, until one cannot be created |
| `CategoryImport.Importer.AttachEverything` | prisma/category-import/import-categories.ts:178-237 | the third pass over all questions stops at the first failure |
| `CategoryImport.Importer.ImportCategoryWave` | prisma/category-import/import-categories.ts:46-240 | the import leaves the tables, the counters and the failure of the three-pass specification, half-finished runs included |
| `CategoryConvergence.ImportSucceedsExactly` | prisma/category-import/import-categories.ts:46-347 | an import succeeds exactly when the wave is coherent, every parent and target is known, every price passes the CHECK, and no question repeats a condition source or a routed option; a coherent wave never fails for a missing condition source |
| `CategoryConvergence.CheckIsNotEnough` | prisma/schema.prisma:1318-1335 | a wave that passes the up-front check and fails on every database |
| `CategoryConvergence.ImportConverges` | prisma/category-import/import-categories.ts:8-12 | after a completed import the owned structure is the file's, from any database, if no two questions share a remembered name |
| `CategoryConvergence.ConvergesExactly` | prisma/category-import/import-categories.ts:178-244 | the import converges from every database that accepts the wave exactly when no two of its questions share a remembered name |
| `CategoryConvergence.ClashingWaveFails` | prisma/category-import/import-categories.ts:242-244 | a coherent wave an empty database accepts, and a database it is imported into without converging |
| `CategoryConvergence.PlainSlugsDoNotClash` | prisma/category-import/import-categories.ts:242-244 | slugs without a colon never share a remembered name |
| `CategoryConvergence.ImportHandsOff` | prisma/category-import/import-categories.ts:14-29 | every import, failed or not, leaves status, isActive, enrolment, non-null prices and every row it does not name unchanged, and removes none |
| `CategoryConvergence.SecondImportChangesNothing` | prisma/category-import/import-categories.ts:6-12 | a second import succeeds, creates nothing and leaves the tables as they are |
| `CategoryConvergence.ImportSetsOnce` | prisma/category-import/import-categories.ts:88-111 | a new category gets the file's status, price and enrolment and is active exactly when its status is; an existing one gets at most a price it lacked |
| `CategoryConvergence.ImportCounted` | prisma/category-import/import-categories.ts:36-44 | every counter of a completed import's summary equals what it names |
| `CategoryConvergence.CategoriesCounted` | prisma/category-import/import-categories.ts:113-117 | the created count is the number of slugs the database did not have |
| `CategoryConvergence.PassThreeForgets` | prisma/category-import/import-categories.ts:185-237 | a completed third pass writes the same rows over any earlier ones and touches no other question's |
| `CategoryConvergence.SourcesResolve` | prisma/category-import/import-categories.ts:190-198 | every condition source of a coherent wave is found in the third pass |
| `CategoryConvergence.ConditionChainsEnd` | prisma/category-import/import-categories.ts:312-318 | following conditions never returns to a question and takes at most as many steps as the category has questions |
| `CategoryFailures.ImportStopsAtCategory` | prisma/category-import/import-categories.ts:46-237 | an import that cannot save a category stops at the first such one, with its reason; those before it are saved and nothing else has changed |
| `CategoryFailures.ImportStopsAtQuestion` | prisma/category-import/import-categories.ts:46-237 | an import that cannot attach a question has saved every category and question, attached those before the first such question, and stops at the row that was refused |
| `ProviderEnrollment.WaveEnrollmentSlugs` | prisma/category-import/open-provider-enrollment.ts:52-68 | the allow-list holds each draft, recruiting service of the waves once and nothing else |
| `ProviderEnrollment.Catalogue.Open` | prisma/category-import/open-provider-enrollment.ts:82-121 | exactly the rows read as closed drafts and still so when the write runs are opened; every count of the summary is stated, and its slugs are those closed drafts in ascending order |
| `ProviderEnrollment.AscendingIsUnique` | prisma/category-import/open-provider-enrollment.ts:118-118 | slugs in ascending order are determined by which they are |
| `ProviderEnrollment.CountsAddUp` | prisma/category-import/open-provider-enrollment.ts:90-120 | the counts add up to the slugs named exactly when no closed draft changed between the read and the write |
| `ProviderEnrollment.MissingIsExact` | prisma/category-import/open-provider-enrollment.ts:117-117 | missing counts the slugs without a row exactly when no slug is named twice |
| `ProviderEnrollment.OpensExactly` | prisma/category-import/open-provider-enrollment.ts:96-110 | the rows that change are the closed draft leaf rows named, and only their enrolment changes |
| `ProviderEnrollment.SecondOpeningOpensNothing` | prisma/category-import/open-provider-enrollment.ts:79-80 | an immediate second opening opens nothing and changes nothing |
| `ProviderEnrollment.DecisionsStandThroughout` | prisma/category-import/open-provider-enrollment.ts:8-19 | through any mix of imports and openings no status, price or other column of an operator is taken back and nothing opened is closed |
| `ProviderEnrollment.OpenedStaysOpen` | prisma/category-import/open-provider-enrollment.ts:70-81 | a draft service opened by name stays open whatever follows |
| `ProviderEnrollment.FreshImportIsOpen` | prisma/category-import/import-categories.ts:100-111 | a recruiting definition new to the database is created open |
| `FixtureAllocators.EveryInterleaving` | e2e/src/fixtures.ts:277-286 | for any processes, interleaving and leftover claims: no index granted twice, every index below a cursor claimed, every new claim a grant or lost with its worker |
| `FixtureAllocators.PoolIsTheLimit` | e2e/src/fixtures.ts:282-286 | from an empty directory grants and losses never exceed the pool, and reach it exactly when all is claimed |
| `FixtureAllocators.ExhaustedMeansAllClaimed` | e2e/src/fixtures.ts:295-314 | exhaustion is raised only when every index is claimed, and then nobody is granted anything again |
| `FixtureAllocators.TriesMoveTheCursor` | e2e/src/fixtures.ts:295-308 | a process tries each index at most once: its tries are its cursor, bounded by the pool |
| `FixtureAllocators.ClaimDirectory.CreateExclusive` | e2e/src/fixtures.ts:297-303 | an exclusive create succeeds only on an index without a file and leaves one; a refusal because of a file means there is one; any other error says nothing, whatever others do |
| `FixtureAllocators.LocationAllocator.Allocate` | e2e/src/fixtures.ts:292-315 | one call takes an index unclaimed at its start with everything below it claimed, or refuses with the whole pool claimed, or ends with another error and its cursor on the index that failed |
| `FixtureAllocators.AloneTakesAll` | e2e/src/fixtures.ts:292-315 | a process alone is granted every index that had no file, in order, one per try, and passes over the others |
| `FixtureAllocators.StartsAreProcesses` | e2e/src/fixtures.ts:277-286 | every worker that starts is a process of its own |
| `FixtureAllocators.PhoneReadsBack` | e2e/src/fixtures.ts:101-113 | a number has eleven digits and gives back its block and serial |
| `FixtureAllocators.PhonesDiffer` | e2e/src/fixtures.ts:86-114 | two numbers are equal exactly when block and serial are |
| `FixtureAllocators.PhoneAllocator.Next` | e2e/src/fixtures.ts:104-114 | the next number is new to the block; the block refuses only when all its numbers are out |
| `FixtureAllocators.CreatePhoneAllocator` | e2e/src/fixtures.ts:93-99 | a block outside the reserved ones is refused |
| `FixtureAllocators.BlocksAreDisjoint` | e2e/src/fixtures.ts:89-91 | allocators on different blocks never issue one number |
| `RouterRecorder.Recorder.Forget` | e2e/src/action-redirect.ts:188-201 | earlier traffic is forgotten and numbering starts again |
| `RouterRecorder.Recorder.SendAction` | e2e/src/action-redirect.ts:238-240 | an action request is numbered when it is sent, unanswered |
| `RouterRecorder.Recorder.SendFetch` | e2e/src/action-redirect.ts:248-250 | a navigation fetch is numbered when it is sent, unanswered |
| `RouterRecorder.Recorder.Navigate` | e2e/src/action-redirect.ts:273-279 | a router navigation gets the next number |
| `RouterRecorder.Recorder.WriteHistory` | e2e/src/action-redirect.ts:261-267 | a history write gets the next number |
| `RouterRecorder.Recorder.CommitReact` | e2e/src/action-redirect.ts:316-316 | a React commit gets the next number |
| `RouterRecorder.Recorder.FlushEffects` | e2e/src/action-redirect.ts:317-317 | a flush of passive effects gets the next number |
| `RouterRecorder.Recorder.AnswerAction` | e2e/src/action-redirect.ts:238-247 | an answer numbers the request it answers and records its redirect |
| `RouterRecorder.Recorder.AnswerFetch` | e2e/src/action-redirect.ts:248-257 | an answered navigation fetch is numbered, the others left alone |
| `RouterRecorder.RecordKeepsOrder` | e2e/src/action-redirect.ts:225-259 | every event gets a number above all earlier ones, so every list stays strictly increasing and answers follow requests |
| `RouterRecorder.EveryTraceIsOrdered` | e2e/src/action-redirect.ts:187-320 | every trace the recorder can build is ordered |
| `RouterRecorder.Find` | e2e/src/action-redirect.ts:331-331 | the first number above another in an increasing list is the least such |
| `RouterRecorder.SameScreenRedirectStep` | e2e/src/action-redirect.ts:326-349 | the verdict names the first thing missing, and is landed exactly when the judged action, its commit and effects, and every later navigation and fetch are answered and committed |
| `RouterRecorder.LandingLastsExactly` | e2e/src/action-redirect.ts:326-349 | a landing outlives an event exactly when it is no new navigation, fetch, reset, or redirect of an action sent after the judged one |
| `RouterRecorder.QuietTraceStaysLanded` | e2e/src/action-redirect.ts:326-349 | over any trace without new navigations, fetches or redirects, landed stays landed |
| `RouterRecorder.LateRedirectIsOverlooked` | e2e/src/action-redirect.ts:326-349 | a recorded trace that is landed and stays so when the first of two actions is answered last, with another redirect |
| `RouterEvents.TraceHoldsEvents` | e2e/src/action-redirect.ts:187-320 | over any events, each list of the trace holds exactly the numbers, since the last reset, of its own kind of event, and every request the number and redirect of its first answer |
| `RouterEvents.LandsExactly` | e2e/src/action-redirect.ts:326-349 | a trace has landed exactly when, among the events since the last reset, the judged redirect is followed by its history write, two commits or a flush, and every later navigation and fetch by theirs |
| `RouterEvents.OneCommitIsNotEnough` | e2e/src/action-redirect.ts:316-339 | after the judged redirect's history write, one React commit without a flush proves nothing |
| `CreditAmount.ParsesExactly` | apps/admin/lib/credit-amount.ts:36-51 | a text of any length is an amount exactly when it is digits with value 1 to 2147483647, and then that value; every refusal says which part failed |
| `CreditAmount.TooManyDigits` | apps/admin/lib/credit-amount.ts:42-45 | more significant digits than the maximum has denote more than the maximum |
| `CreditAmount.WrittenAmountReadsBack` | apps/admin/lib/credit-amount.ts:17-18 | an amount written with any number of leading zeros reads back as itself |
| `SessionCookie.JoinOfSplit` | apps/admin/app/session-cookie.ts:90-112 | joining the pieces after the first equals sign gives back the raw value, equals signs included |
| `SessionCookie.SaidIsFirst` | apps/admin/app/session-cookie.ts:95-102 | looking an attribute up finds the first of its kind in any letter case and no other kind |
| `SessionCookie.ParseOfRender` | apps/admin/app/session-cookie.ts:80-123 | a header rendered by section 4.1.1 of RFC 6265, attributes in any order and case, gives back name, value, flags, path and lifetime; a value that cannot be decoded throws |
| `SessionCookie.ReadSessionCookie` | apps/admin/app/session-cookie.ts:134-148 | the first header that is the session cookie, or whose reading throws, decides; without one there is no session |
| `SessionCookie.UnreadableNeighbourDecides` | apps/admin/app/session-cookie.ts:140-145 | another cookie before the session cookie ends the search exactly when its value cannot be decoded |
| `SessionCookie.LonePercentThrows` | apps/admin/app/session-cookie.ts:80-93 | the header a=% throws |
| `SessionCookie.ReissueMirrors` | apps/admin/app/session-cookie.ts:159-177 | the re-issued cookie is always HttpOnly, strict exactly when the API said so and lax otherwise, secure exactly when it said so, persistent exactly when it gave a readable lifetime, and then for that one |
| `SessionCookie.PathIsMirrored` | apps/admin/app/session-cookie.ts:95-119 | the path of the re-issued cookie is the one the header said, and the root without one |
| `SessionCookie.LowerIsAscii` | apps/admin/app/session-cookie.ts:95-97 | lower-casing changes the ASCII capitals and nothing else |
| `SessionCookie.NoCookieExactly` | apps/admin/app/session-cookie.ts:80-93 | a header is no cookie exactly when it names no value |

## Left out

- CampaignRules.RowBuilder.FormFromDefinition: a number that is not whole is carried with its text, which is not computed; negative zero is zero, as JSON writes it.
- CampaignForms.ReadsBackNormalised: row ids are compared as empty, because they are drawn from a counter and the clock.
- CampaignStored.KindsAreListedExactly: no object inherits a property with an empty name.
- ConfirmationServer.ConfirmationGuard.HasConfirmationProofs: the session and the clock are parameters fixed for one call, and no other request runs between its verifications; ConfirmationRuns interleaves single verifications of any requests. The cookie store and Date.now are not modelled.
- DirtyForm.WriteBackInvertsRead: disabled controls, fieldsets, elements without an option chosen and files written back are not modelled; a file input only takes a person's choice.
- StickyActionBar.DirtyMoveLandsHere: single steps only, because a longer move can jump over the guard entry; history.go(0), which loads the page anew, is no event of the model.
- StickyActionBar.StickyBar.OnDocumentClick: whether a click leaves the page (isLeavingClick, URL parsing) is a parameter, as is the answer to the leave question.
- StickyActionBar.EveryRun: beforeunload, which changes no state, and the effect's removal of its listeners are not modelled.
- CategoryImport.Importer.ImportCategoryWave: column widths, foreign keys and concurrent writers are not modelled; the import is not one transaction, and its half-finished states are.
- ProviderEnrollment.Catalogue.Open: the order of the opened slugs is by code point, which is that of Array.prototype.sort for slugs without characters beyond the basic plane.
- SessionCookie.ParseOfRender: percent-decoding, date parsing and Number are abstract functions; lower-casing is that of ASCII letters, which decides every comparison made with the module's words.
- CreditAmount.ParsesExactly: Number is exact on the at most ten digits it is given, so it is the decimal value.
- The rest of the action-redirect helper (which response is the action's, document loads, polling) waits on a browser.
- The gate's dialog, focus and form validation, React rendering and every other screen of the panel: user interface.
- The API's services, Prisma and PostgreSQL beyond the constraints above, HTTP, the file system beyond exclusive create, HMAC and SHA-256.
- The wave literals, seed data and label tables: finite tables.
- Dashboard metrics, query-string helpers, permission labels, the Turnstile adapter and Playwright journeys: they would only add easy members.
