# Kickstarter for Android: decision and state logic

This project models in Dafny the decision logic and the small state machines
inside the view models, use cases and adapters of the Kickstarter Android
client, and proves properties of them:

- the set-password form: validity, save button, warnings, submission, errors and success;
- the shipping-rules use case: which rewards are queried, how the answers are merged by location, and which states are published;
- the tracking worker's verdict on an HTTP response;
- the payment-methods settings screen: cards and divider, delete with confirmation, setup intent, saving a card, and the progress bar;
- the rewards list: the backed reward's position, the reward count, and what a click on a reward starts;
- the consent gate for third-party analytics events;
- the report-project screen: it pairs the user's email with the project URL;
- the add-ons screen: the total selected quantity, the continue-button label, and the shipping-country picker;
- the web view's URL interception and back navigation;
- the discovery pager's fragment cache, which all adapter instances share.

Each core source file is one Dafny module. The modules follow the source's own form:

- Pure code becomes functions and lemmas.
- A view model, use case or adapter that keeps state becomes a class.
- A mutated map is a field the methods reassign.
- A loop is a `while` or `for` loop with its invariants.

Three shared modules support them:

- `Streams` holds Option, the remote-call outcome `Remote` (Done or Failed), Throwable, `distinctUntilChanged` and `filter`.
- `Strings` holds substring search and ASCII lowercasing.
- `LinkedMaps` models Kotlin's insertion-ordered `mutableMapOf`.

Reactive plumbing is modelled as follows:

- Each Rx subject or output stream is its emission history, a `seq` field.
- A remote call completes synchronously inside the input that starts it. Its outcome is the method's parameter: `Remote<T>`, or `Option<T>` for a call wrapped in `neverError`.
- Helpers whose bodies are not in the model are parameters or constant function fields: the password validator, `maskEmail`, `ErrorEnvelope`'s message, `RewardUtils.shipsWorldwide` and `shipsToRestrictedLocations`, `BackingUtils.isBacked`, and `DiscoveryUtils.positionFromSort`.

A change-password click before any edit submits the pair `("", "")`, because both password fields are seeded with `""` through `startWith`; the model keeps that submission.

## Model

| member | source | states |
|---|---|---|
| Streams.AppendDistinct | app/src/main/java/com/kickstarter/viewmodels/SetPasswordViewModel.kt:110-113 | one more value through `distinctUntilChanged`: appended exactly when it differs from the last emission; the history never repeats itself and ends with the value |
| Streams.DistinctUntilChanged | app/src/main/java/com/kickstarter/viewmodels/PaymentMethodsViewModel.kt:229 | the de-duplicated stream has no consecutive repeats, is empty iff the input is, ends with the input's last value and holds only input values |
| Streams.DistinctUntilChangedKeepsDistinct | app/src/main/java/com/kickstarter/viewmodels/PaymentMethodsViewModel.kt:229 | a stream without consecutive repeats passes unchanged |
| Streams.DistinctUntilChangedIdempotent | app/src/main/java/com/kickstarter/viewmodels/PaymentMethodsViewModel.kt:229 | de-duplicating twice is de-duplicating once |
| Streams.DistinctUntilChangedSnoc | app/src/main/java/com/kickstarter/viewmodels/SetPasswordViewModel.kt:110-113 | the operator over a whole history equals appending values one at a time with AppendDistinct |
| Streams.FirstOfDistinct | app/src/main/java/com/kickstarter/viewmodels/SetPasswordViewModel.kt:110-113 | the first value always passes |
| Streams.AppendAllDistinct | app/src/main/java/com/kickstarter/viewmodels/SetPasswordViewModel.kt:138-140 | merging several values into a de-duplicated stream keeps it without repeats and ends it with the last value |
| Streams.AppendAllDistinctAppend | app/src/main/java/com/kickstarter/viewmodels/SetPasswordViewModel.kt:138-140 | feeding two stretches of values in turn through `distinctUntilChanged` is feeding their concatenation |
| Streams.Filter | app/src/main/java/com/kickstarter/ui/activities/compose/projectpage/AddOnsScreen.kt:232-237 | `filter`: exactly the elements satisfying the predicate, never more than the input |
| Streams.FilterAppend | app/src/main/java/com/kickstarter/ui/activities/compose/projectpage/AddOnsScreen.kt:232-237 | filtering a concatenation filters each part and concatenates, so the kept elements stay in input order |
| Streams.FilterSnoc | app/src/main/java/com/kickstarter/ui/activities/compose/projectpage/AddOnsScreen.kt:232-237 | one more element is kept, once and at the end, iff it satisfies the predicate |
| Streams.FilterHead | app/src/main/java/com/kickstarter/viewmodels/usecases/GetShippingRulesUseCase.kt:40 | `filter{..}.firstOrNull()` is the first element satisfying the predicate |
| Streams.FilterNone | app/src/main/java/com/kickstarter/viewmodels/usecases/GetShippingRulesUseCase.kt:45 | no element satisfies the predicate, so the filter is empty |
| Streams.FilterAgrees | app/src/main/java/com/kickstarter/ui/activities/compose/projectpage/AddOnsScreen.kt:232-237 | two predicates that agree on the list filter it identically |
| Strings.Contains | app/src/main/java/com/kickstarter/ui/activities/WebViewActivity.kt:28 | `contains` is true iff the text occurs at some position |
| Strings.LowerChar | app/src/main/java/com/kickstarter/ui/activities/compose/projectpage/AddOnsScreen.kt:234 | ASCII `lowercase` of one character: capitals are shifted by 32, everything else is kept, no capital remains |
| Strings.Lower | app/src/main/java/com/kickstarter/ui/activities/compose/projectpage/AddOnsScreen.kt:234 | `lowercase` keeps the length and lowers every character |
| Strings.LowerIdempotent | app/src/main/java/com/kickstarter/ui/activities/compose/projectpage/AddOnsScreen.kt:234 | lower-casing a lower-cased string changes nothing |
| Strings.ContainsIgnoringCase | app/src/main/java/com/kickstarter/ui/activities/compose/projectpage/AddOnsScreen.kt:234 | the lowered text contains the lowered input, iff as a substring occurrence |
| Strings.EmptyOccurs | app/src/main/java/com/kickstarter/ui/activities/compose/projectpage/AddOnsScreen.kt:234 | every text contains the empty string |
| LinkedMaps.Empty | app/src/main/java/com/kickstarter/viewmodels/usecases/GetShippingRulesUseCase.kt:38 | `mutableMapOf()` has no keys and no entries |
| LinkedMaps.Put | app/src/main/java/com/kickstarter/viewmodels/usecases/GetShippingRulesUseCase.kt:77 | `put` on a linked hash map: the entry is set; an existing key keeps its place and a new key goes to the end |
| LinkedMaps.Values | app/src/main/java/com/kickstarter/viewmodels/usecases/GetShippingRulesUseCase.kt:53 | `values.toList()` lists the values in key insertion order |
| LinkedMaps.PutValues | app/src/main/java/com/kickstarter/ui/activities/compose/projectpage/AddOnsScreen.kt:288-293 | after `put` the values are the old ones with this key's value replaced in place, or with the new value appended |
| SetPassword.IsValid | app/src/main/java/com/kickstarter/viewmodels/SetPasswordViewModel.kt:202-206 | valid iff both fields have at least 6 characters (so neither is empty) and they are equal |
| SetPassword.IsValidSymmetric | app/src/main/java/com/kickstarter/viewmodels/SetPasswordViewModel.kt:202-206 | validity does not depend on which field holds which value |
| SetPassword.Warning | app/src/main/java/com/kickstarter/viewmodels/SetPasswordViewModel.kt:208-209 | the validator's warning, or 0 when it has none |
| SetPassword.ValidityOf | app/src/main/java/com/kickstarter/viewmodels/SetPasswordViewModel.kt:110-111 | `isValid` of every snapshot of the fields, in order |
| SetPassword.NonZeroWarnings | app/src/main/java/com/kickstarter/viewmodels/SetPasswordViewModel.kt:100-104 | the warnings of the snapshots without the zeros: 0 never reaches the output |
| SetPassword.ErrorMessages | app/src/main/java/com/kickstarter/viewmodels/SetPasswordViewModel.kt:121-138 | a failed submit contributes its localized message first, when not null, then the error envelope's message; a null envelope message contributes nothing and fails the merged stream (see Respond) |
| SetPassword.PulsesAlternate | app/src/main/java/com/kickstarter/viewmodels/SetPasswordViewModel.kt:166-176 | n submissions push true, false, true, false, ... on the progress and submitting flags |
| SetPassword.SetPasswordViewModel.SaveEnabled | app/src/main/java/com/kickstarter/viewmodels/SetPasswordViewModel.kt:110-113 | the save button reflects `isValid` of the latest pair |
| SetPassword.SetPasswordViewModel.constructor | app/src/main/java/com/kickstarter/viewmodels/SetPasswordViewModel.kt:95-113 | both fields start as "", the first save-enabled value is false, and a warning is shown for ("", "") only when it is non-zero |
| SetPassword.SetPasswordViewModel.ConfigureWith | app/src/main/java/com/kickstarter/viewmodels/SetPasswordViewModel.kt:83-93 | while the intent stream runs, a string EMAIL extra shows the masked email, an intent without the extra changes nothing, and an extra that reads as null fails the stream; after that nothing is shown |
| SetPassword.IntentStep | app/src/main/java/com/kickstarter/viewmodels/SetPasswordViewModel.kt:83-93 | one more intent: a string extra is shown masked while the stream runs, a null extra ends it, no extra changes nothing |
| SetPassword.NullEmailExtraIsFinal | app/src/main/java/com/kickstarter/viewmodels/SetPasswordViewModel.kt:85-87 | once an extra has read as null, no later intent shows an email |
| SetPassword.SetPasswordViewModel.Edit | app/src/main/java/com/kickstarter/viewmodels/SetPasswordViewModel.kt:95-113 | a new pair updates the fields; the save flag and the warning are de-duplicated, and a zero warning is dropped |
| SetPassword.SetPasswordViewModel.NewPassword | app/src/main/java/com/kickstarter/viewmodels/SetPasswordViewModel.kt:188-190 | the new-password field changes and the confirm field keeps its value |
| SetPassword.SetPasswordViewModel.ConfirmPassword | app/src/main/java/com/kickstarter/viewmodels/SetPasswordViewModel.kt:184-186 | the confirm field changes and the new-password field keeps its value |
| SetPassword.SetPasswordViewModel.CurrentUserChanged | app/src/main/java/com/kickstarter/viewmodels/SetPasswordViewModel.kt:147 | the latest logged-in user and access token are recorded |
| SetPassword.SetPasswordViewModel.ChangePasswordClicked | app/src/main/java/com/kickstarter/viewmodels/SetPasswordViewModel.kt:115-117 | a click submits exactly the latest pair with "" as the current password; both busy flags go true, then false, whatever the outcome; the outcome is handled by Respond, and once the error stream has failed the error output stays as it was |
| SetPassword.SetPasswordViewModel.Send | app/src/main/java/com/kickstarter/viewmodels/SetPasswordViewModel.kt:166-176 | the mutation is sent and both flags pulse true then false |
| SetPassword.SetPasswordViewModel.Deliver | app/src/main/java/com/kickstarter/viewmodels/SetPasswordViewModel.kt:121-158 | the answer is applied through Respond, including the end of the error stream; the error output stays without repeats and, once ended, unchanged |
| SetPassword.Respond | app/src/main/java/com/kickstarter/viewmodels/SetPasswordViewModel.kt:121-158 | while the error stream runs, a failure merges its messages into the de-duplicated error output and a null envelope message ends that stream; after that a failure changes nothing; a success changes no error |
| SetPassword.RespondIgnoresResponseWithoutPassword | app/src/main/java/com/kickstarter/viewmodels/SetPasswordViewModel.kt:143-145 | a response without `hasPassword` true, or no logged-in user, changes nothing |
| SetPassword.RespondNewPair | app/src/main/java/com/kickstarter/viewmodels/SetPasswordViewModel.kt:147-158 | a new (user, response) pair emits the response's email, defaulting to "", and logs in when a token exists |
| SetPassword.RespondIdempotent | app/src/main/java/com/kickstarter/viewmodels/SetPasswordViewModel.kt:149 | the same pair twice in a row emits success only once |
| SetPassword.RespondFailureShowsMessage | app/src/main/java/com/kickstarter/viewmodels/SetPasswordViewModel.kt:121-141 | while the error stream runs, a failure that has a message leaves the error output ending with its last message, and the stream ends iff the envelope message is null |
| SetPassword.RespondAll | app/src/main/java/com/kickstarter/viewmodels/SetPasswordViewModel.kt:121-158 | a series of finished calls keeps the error output without repeats |
| SetPassword.ErrorEndIsFinal | app/src/main/java/com/kickstarter/viewmodels/SetPasswordViewModel.kt:128-140 | after the error stream has failed, one more call leaves the error output unchanged |
| SetPassword.ErrorEndIsFinalForAll | app/src/main/java/com/kickstarter/viewmodels/SetPasswordViewModel.kt:128-140 | after the error stream has failed, any series of calls leaves the error output unchanged |
| SetPassword.ErrorEndsOnlyAtNullEnvelope | app/src/main/java/com/kickstarter/viewmodels/SetPasswordViewModel.kt:128-135 | when every failure has an envelope message, the error stream never fails |
| SetPassword.PipelinesStep | app/src/main/java/com/kickstarter/viewmodels/SetPasswordViewModel.kt:100-113 | the class's per-edit update of the save and warning outputs equals the de-duplicated pipelines over every snapshot |
| SetPassword.FirstSaveEnabledIsFalse | app/src/main/java/com/kickstarter/viewmodels/SetPasswordViewModel.kt:95-98 | the snapshots start with ("", ""), so the first save-enabled value is false |
| ShippingRules.ErrorState | app/src/main/java/com/kickstarter/viewmodels/usecases/GetShippingRulesUseCase.kt:90-96 | the error state has no rules, is not loading, and carries the message |
| ShippingRules.PutRewards | app/src/main/java/com/kickstarter/viewmodels/usecases/GetShippingRulesUseCase.kt:48-50 | putting rewards by id keeps the linked map well formed |
| ShippingRules.PutRewardsKeys | app/src/main/java/com/kickstarter/viewmodels/usecases/GetShippingRulesUseCase.kt:37-38 | the keys are exactly the rewards' ids, and each id holds a listed reward with that id |
| ShippingRules.PutRewardsLatestWins | app/src/main/java/com/kickstarter/viewmodels/usecases/GetShippingRulesUseCase.kt:48-50 | each id holds the last listed reward with that id |
| ShippingRules.PutEach | app/src/main/java/com/kickstarter/viewmodels/usecases/GetShippingRulesUseCase.kt:48-50 | the `forEach` loop of puts builds the map described by PutRewards |
| ShippingRules.PlanQueries | app/src/main/java/com/kickstarter/viewmodels/usecases/GetShippingRulesUseCase.kt:35-54 | `init` computes the rewards to query: the worldwide one if any, else the restricted ones |
| ShippingRules.PlanWorldwide | app/src/main/java/com/kickstarter/viewmodels/usecases/GetShippingRulesUseCase.kt:40-42 | when a reward ships worldwide, exactly one reward is queried, the first such reward |
| ShippingRules.ValuesOfPutRewards | app/src/main/java/com/kickstarter/viewmodels/usecases/GetShippingRulesUseCase.kt:53 | the map's values have pairwise distinct ids, come from the list, and include each id's last reward |
| ShippingRules.PlanRestricted | app/src/main/java/com/kickstarter/viewmodels/usecases/GetShippingRulesUseCase.kt:45-51 | otherwise every restricted reward is queried: one per id, only restricted rewards, each id's last one |
| ShippingRules.PlanHasDistinctIds | app/src/main/java/com/kickstarter/viewmodels/usecases/GetShippingRulesUseCase.kt:37-38 | no two queried rewards share an id |
| ShippingRules.MergeRules | app/src/main/java/com/kickstarter/viewmodels/usecases/GetShippingRulesUseCase.kt:76-78 | the rules are merged by location id, and the merge fails iff some rule has no location |
| ShippingRules.MergeRulesLatestWins | app/src/main/java/com/kickstarter/viewmodels/usecases/GetShippingRulesUseCase.kt:68-78 | each location holds the last rule for it; a later rule overwrites an earlier one |
| ShippingRules.MergeRulesFailure | app/src/main/java/com/kickstarter/viewmodels/usecases/GetShippingRulesUseCase.kt:77 | the first rule without a location stops the merge, and the rules before it stay merged |
| ShippingRules.MergeRulesKeys | app/src/main/java/com/kickstarter/viewmodels/usecases/GetShippingRulesUseCase.kt:76-77 | a merge adds only the location ids of rules with a location; every other key was there before |
| ShippingRules.AllLocatedAppend | app/src/main/java/com/kickstarter/viewmodels/usecases/GetShippingRulesUseCase.kt:76-77 | the rules of two lists are all located iff those of each list are |
| ShippingRules.MergeRulesAppend | app/src/main/java/com/kickstarter/viewmodels/usecases/GetShippingRulesUseCase.kt:68-78 | merging two lists of rules in turn into one map is merging their concatenation, as long as the first merge does not fail |
| ShippingRules.MergeRulesStopsAtFailure | app/src/main/java/com/kickstarter/viewmodels/usecases/GetShippingRulesUseCase.kt:77-96 | once the merge has failed, later rules change nothing |
| ShippingRules.Step | app/src/main/java/com/kickstarter/viewmodels/usecases/GetShippingRulesUseCase.kt:72-97 | one answer: a failure emits the error state with its message and keeps the map; a successful answer leaves the merge of its rules; a rule without a location emits the "Required value was null." error; a full merge emits the merged rules only for the last reward |
| ShippingRules.Run | app/src/main/java/com/kickstarter/viewmodels/usecases/GetShippingRulesUseCase.kt:71-99 | the answers in query order emit at most one state each |
| ShippingRules.RunMergesAll | app/src/main/java/com/kickstarter/viewmodels/usecases/GetShippingRulesUseCase.kt:66-99 | when every query succeeds with located rules, one map collects all answers in query order, nothing is emitted before the last answer, and the last answer emits exactly the merge of all rules |
| ShippingRules.ResultOnlyAtEnd | app/src/main/java/com/kickstarter/viewmodels/usecases/GetShippingRulesUseCase.kt:81-88 | every state that a run emits is an error state, apart from possibly the last state of a complete run, which is the result state (merged rules, not loading) |
| ShippingRules.ProcessAnswer | app/src/main/java/com/kickstarter/viewmodels/usecases/GetShippingRulesUseCase.kt:75-97 | the loop body's puts and emits are those of Step |
| ShippingRules.GetShippingRulesUseCase.State | app/src/main/java/com/kickstarter/viewmodels/usecases/GetShippingRulesUseCase.kt:63 | the current state is the latest state emitted |
| ShippingRules.GetShippingRulesUseCase.constructor | app/src/main/java/com/kickstarter/viewmodels/usecases/GetShippingRulesUseCase.kt:22-58 | the planned rewards are recorded, and the state starts at the default: no rules, not loading, no error |
| ShippingRules.GetShippingRulesUseCase.Invoke | app/src/main/java/com/kickstarter/viewmodels/usecases/GetShippingRulesUseCase.kt:66-102 | with nothing to query nothing is emitted; otherwise the loading state, then the states of Run, each kept only when it differs from the current value, as a state flow does |
| TrackingWorker.HandleResult | app/src/main/java/com/kickstarter/services/TrackingWorker.kt:24-38 | success iff the response is successful; permanent failure iff it is not and its code is in 400..499; retry otherwise |
| TrackingWorker.ClassifiedByCode | app/src/main/java/com/kickstarter/services/TrackingWorker.kt:24-38 | for an OkHttp-shaped response (successful iff its code is 2xx), success iff 2xx, failure iff 4xx, retry for every other code |
| TrackingWorker.Examples | app/src/main/java/com/kickstarter/services/TrackingWorker.kt:25-35 | 200 succeeds; 400, 410 and 499 fail; 399, 500 and 503 are retried |
| PaymentMethods.ProgressOutput | app/src/main/java/com/kickstarter/viewmodels/PaymentMethodsViewModel.kt:229 | the progress output never repeats itself and ends with the latest raw flag |
| PaymentMethods.NestedCallProgress | app/src/main/java/com/kickstarter/viewmodels/PaymentMethodsViewModel.kt:169-229 | a call that wraps a nested refresh shows the bar once and hides it once on screen |
| PaymentMethods.SimpleCallProgress | app/src/main/java/com/kickstarter/viewmodels/PaymentMethodsViewModel.kt:169-229 | a call without a nested refresh shows the bar once and hides it once |
| PaymentMethods.CallFlags | app/src/main/java/com/kickstarter/viewmodels/PaymentMethodsViewModel.kt:169-203 | a call's own flags start with true and end with false |
| PaymentMethods.CallProgress | app/src/main/java/com/kickstarter/viewmodels/PaymentMethodsViewModel.kt:169-229 | whatever its outcome, a single call appears on screen as exactly true, false |
| PaymentMethods.TwoCallsProgress | app/src/main/java/com/kickstarter/viewmodels/PaymentMethodsViewModel.kt:121-166 | the two calls that one click starts through an unshared chain appear on screen as true, false, true, false |
| PaymentMethods.PaymentMethodsViewModel.DividerVisible | app/src/main/java/com/kickstarter/viewmodels/PaymentMethodsViewModel.kt:92-94 | the divider is visible iff the latest card list is not empty |
| PaymentMethods.PaymentMethodsViewModel.ProgressBarIsVisible | app/src/main/java/com/kickstarter/viewmodels/PaymentMethodsViewModel.kt:229 | the progress output has no consecutive repeats and ends hidden between inputs |
| PaymentMethods.PaymentMethodsViewModel.constructor | app/src/main/java/com/kickstarter/viewmodels/PaymentMethodsViewModel.kt:87-94 | `init` loads the cards once (nothing on failure), the divider follows, and the bar pulses |
| PaymentMethods.PaymentMethodsViewModel.LoadCards | app/src/main/java/com/kickstarter/viewmodels/PaymentMethodsViewModel.kt:191-197 | loading the cards raises and lowers the flag; the list, if any, is emitted together with its divider value |
| PaymentMethods.PaymentMethodsViewModel.RefreshCards | app/src/main/java/com/kickstarter/viewmodels/PaymentMethodsViewModel.kt:117-119 | a refresh emits the new list and its divider value; a failed load emits nothing |
| PaymentMethods.PaymentMethodsViewModel.DeleteCardClicked | app/src/main/java/com/kickstarter/viewmodels/PaymentMethodsViewModel.kt:96-97 | every delete click shows the dialog and records the card id |
| PaymentMethods.PaymentMethodsViewModel.ConfirmDeleteCardClicked | app/src/main/java/com/kickstarter/viewmodels/PaymentMethodsViewModel.kt:99-115 | a confirm deletes the most recently clicked id and does nothing before any click; success refreshes and emits the mutation id; failure keeps the cards and emits the localized message |
| PaymentMethods.PaymentMethodsViewModel.NewCardButtonClicked | app/src/main/java/com/kickstarter/viewmodels/PaymentMethodsViewModel.kt:121-138 | the unshared chain has two subscribers, so a click creates two setup intents: the first call's secret goes to the payment sheet, the second call's failure message to `showError`; the bar pulses for each |
| PaymentMethods.PaymentMethodsViewModel.SavePaymentOption | app/src/main/java/com/kickstarter/viewmodels/PaymentMethodsViewModel.kt:140-166 | nothing happens before a secret is presented; otherwise the latest secret is saved with `reusable = true` twice, one per subscriber; the first call's success refreshes the cards and the second call's failure shows its message |
| RewardsFragment.FirstBacked | app/src/main/java/com/kickstarter/viewmodels/RewardsFragmentViewModel.kt:98-108 | the smallest backed index from a start position, or 0 when none is backed |
| RewardsFragment.IndexOfBackedReward | app/src/main/java/com/kickstarter/viewmodels/RewardsFragmentViewModel.kt:98-108 | the loop returns the smallest index whose reward is backed, and 0 when none is backed or the list is null |
| RewardsFragment.FirstBackedIgnoresTail | app/src/main/java/com/kickstarter/viewmodels/RewardsFragmentViewModel.kt:100-104 | rewards after the first backed one do not move the position |
| RewardsFragment.PledgeDataAndPledgeReason | app/src/main/java/com/kickstarter/viewmodels/RewardsFragmentViewModel.kt:81-96 | a backing project gives (CHANGE_REWARD, UPDATE_REWARD) and any other project gives (NEW_PLEDGE, PLEDGE); the project, reward and location are passed through |
| RewardsFragment.RewardsCount | app/src/main/java/com/kickstarter/viewmodels/RewardsFragmentViewModel.kt:75-78 | the size of the rewards list, or 0 when it is null |
| RewardsFragment.RewardsFragmentViewModel.constructor | app/src/main/java/com/kickstarter/viewmodels/RewardsFragmentViewModel.kt:110-116 | nothing has been emitted yet |
| RewardsFragment.RewardsFragmentViewModel.ConfigureWith | app/src/main/java/com/kickstarter/viewmodels/RewardsFragmentViewModel.kt:55-78 | the project and its reward count are emitted; the backed position is emitted only for a backing project, and never twice in a row |
| RewardsFragment.RewardsFragmentViewModel.RewardClicked | app/src/main/java/com/kickstarter/viewmodels/RewardsFragmentViewModel.kt:69-73 | a click pairs the latest configured project with the reward and location; a click before any project is dropped |
| ThirdPartyEvents.GetBoolean | app/src/main/java/com/kickstarter/viewmodels/usecases/SendThirdPartyEventUseCase.kt:25 | a stored preference or, when none is stored, the default |
| ThirdPartyEvents.NewUseCase | app/src/main/java/com/kickstarter/viewmodels/usecases/SendThirdPartyEventUseCase.kt:23-27 | sending is allowed iff consent management is on, consent is stored as true, and CAPI or GA is on |
| ThirdPartyEvents.Passes | app/src/main/java/com/kickstarter/viewmodels/usecases/SendThirdPartyEventUseCase.kt:51 | a project passes iff it opted in (null counts as no) and the gate is open |
| ThirdPartyEvents.EventInputs | app/src/main/java/com/kickstarter/viewmodels/usecases/SendThirdPartyEventUseCase.kt:50-63 | for a stream of projects with a fixed user and data, exactly the passing projects build an event, with the call's name and screens and that user and data |
| ThirdPartyEvents.EventInputsAppend | app/src/main/java/com/kickstarter/viewmodels/usecases/SendThirdPartyEventUseCase.kt:50-51 | projects are handled one at a time: the events for two stretches of the stream concatenate |
| ThirdPartyEvents.EventInputsSingle | app/src/main/java/com/kickstarter/viewmodels/usecases/SendThirdPartyEventUseCase.kt:51-63 | one project builds one event iff it passes the gate |
| ThirdPartyEvents.Responses | app/src/main/java/com/kickstarter/viewmodels/usecases/SendThirdPartyEventUseCase.kt:64-69 | every response comes from a call, and when every call succeeds there is one response per input |
| ThirdPartyEvents.ResponsesAppend | app/src/main/java/com/kickstarter/viewmodels/usecases/SendThirdPartyEventUseCase.kt:64-69 | calls are answered one at a time: the responses to two stretches of inputs concatenate, in order |
| ThirdPartyEvents.ResponsesSingle | app/src/main/java/com/kickstarter/viewmodels/usecases/SendThirdPartyEventUseCase.kt:64-69 | one call yields its response when it succeeds and nothing when it fails |
| ThirdPartyEvents.SendThirdPartyEvent | app/src/main/java/com/kickstarter/viewmodels/usecases/SendThirdPartyEventUseCase.kt:50-114 | nothing is sent when the gate is closed or no project opts in |
| ThirdPartyEvents.FeatureFlagOffSendsNothing | app/src/test/java/com/kickstarter/viewmodels/usecases/SendThirdPartyEventUseCaseTest.kt:73-110 | with the flags off nothing is sent |
| ThirdPartyEvents.DeclinedConsentSendsNothing | app/src/test/java/com/kickstarter/viewmodels/usecases/SendThirdPartyEventUseCaseTest.kt:113-143 | with consent declined or never given nothing is sent |
| ThirdPartyEvents.ProjectOptOutSendsNothing | app/src/test/java/com/kickstarter/viewmodels/usecases/SendThirdPartyEventUseCaseTest.kt:146-176 | a project that does not opt in sends nothing |
| ThirdPartyEvents.AllGatesOpenSendsEvent | app/src/test/java/com/kickstarter/viewmodels/usecases/SendThirdPartyEventUseCaseTest.kt:279-318 | with every gate open exactly one event is built, carrying the event name, the project and the user |
| ThirdPartyEvents.GateIgnoresOtherPreferences | app/src/main/java/com/kickstarter/viewmodels/usecases/SendThirdPartyEventUseCase.kt:23-27 | the gate reads only the consent preference: storing any other preference leaves it unchanged |
| ReportProject.EmailOf | app/src/main/java/com/kickstarter/viewmodels/ReportProjectViewModel.kt:43-48 | a signed-out user contributes nothing; a user without an email contributes "email@email.com" |
| ReportProject.Emitted | app/src/main/java/com/kickstarter/viewmodels/ReportProjectViewModel.kt:50-54 | `combineLatest` emits at most one pair per input |
| ReportProject.NoPairUntilBoth | app/src/main/java/com/kickstarter/viewmodels/ReportProjectViewModel.kt:50-54 | nothing is paired until both an email and a URL have been seen |
| ReportProject.LastPairIsLatest | app/src/main/java/com/kickstarter/viewmodels/ReportProjectViewModel.kt:50-51 | each pair is the latest email with the latest URL |
| ReportProject.NullUserIgnored | app/src/main/java/com/kickstarter/viewmodels/ReportProjectViewModel.kt:44 | a signed-out user changes neither the email nor the pairs |
| ReportProject.FailureIsFinal | app/src/main/java/com/kickstarter/viewmodels/ReportProjectViewModel.kt:38-41 | a project without an API URL makes the URL stream fail with a null value, and no pair follows it |
| ReportProject.UserStep | app/src/main/java/com/kickstarter/viewmodels/ReportProjectViewModel.kt:43-54 | what a new user value does to the latest email, the URL and the pairs |
| ReportProject.ConfigureStep | app/src/main/java/com/kickstarter/viewmodels/ReportProjectViewModel.kt:38-54 | what a configured project does to the URL, the stream state and the pairs |
| ReportProject.ReportProjectViewModel.constructor | app/src/main/java/com/kickstarter/viewmodels/ReportProjectViewModel.kt:38-54 | no input and no pair yet |
| ReportProject.ReportProjectViewModel.CurrentUserChanged | app/src/main/java/com/kickstarter/viewmodels/ReportProjectViewModel.kt:43-54 | a signed-out user is filtered out; a user sets the email, defaulted when missing, and is paired with a known URL |
| ReportProject.ReportProjectViewModel.ConfigureWith | app/src/main/java/com/kickstarter/viewmodels/ReportProjectViewModel.kt:38-64 | a URL is paired with a known email; a project without one makes the URL stream fail, which ends the pairing for good |
| AddOns.ButtonLabel | app/src/main/java/com/kickstarter/ui/activities/compose/projectpage/AddOnsScreen.kt:138-154 | "Skip add-ons" for a count of at most 0, the one form for 1, the many form above 1, blank without a formatter |
| AddOns.SumUpdate | app/src/main/java/com/kickstarter/ui/activities/compose/projectpage/AddOnsScreen.kt:288-293 | replacing one value changes the sum by the difference |
| AddOns.PutSum | app/src/main/java/com/kickstarter/ui/activities/compose/projectpage/AddOnsScreen.kt:288-293 | after the update, the total is the old total with this reward's entry replaced, not added to |
| AddOns.Total | app/src/main/java/com/kickstarter/ui/activities/compose/projectpage/AddOnsScreen.kt:289-292 | the `forEach` loop computes the sum of the selections |
| AddOns.DisplayableName | app/src/main/java/com/kickstarter/ui/activities/compose/projectpage/AddOnsScreen.kt:234 | a rule has a name iff it has a location with a name, and the name is that location's name |
| AddOns.ShownCountries | app/src/main/java/com/kickstarter/ui/activities/compose/projectpage/AddOnsScreen.kt:232-251 | an empty input shows every country; otherwise exactly the named rules whose lowercased name contains the lowercased input |
| AddOns.UnnamedOnlyForEmptyInput | app/src/main/java/com/kickstarter/ui/activities/compose/projectpage/AddOnsScreen.kt:232-251 | a rule without a name is shown iff the input is empty |
| AddOns.ShownCountriesIgnoreCase | app/src/main/java/com/kickstarter/ui/activities/compose/projectpage/AddOnsScreen.kt:234 | inputs that differ only in case show the same countries |
| AddOns.AddOnsScreen.VisibleCountries | app/src/main/java/com/kickstarter/ui/activities/compose/projectpage/AddOnsScreen.kt:225-237 | no countries while the list is collapsed, the filtered ones while it is expanded |
| AddOns.AddOnsScreen.ContinueLabel | app/src/main/java/com/kickstarter/ui/activities/compose/projectpage/AddOnsScreen.kt:138-154 | the button skips iff nothing is selected |
| AddOns.AddOnsScreen.constructor | app/src/main/java/com/kickstarter/ui/activities/compose/projectpage/AddOnsScreen.kt:102-114 | the country input defaults to "United States"; the list is collapsed; nothing is selected |
| AddOns.AddOnsScreen.CountryInputChanged | app/src/main/java/com/kickstarter/ui/activities/compose/projectpage/AddOnsScreen.kt:207-210 | typing sets the input and expands the list |
| AddOns.AddOnsScreen.OutsideClicked | app/src/main/java/com/kickstarter/ui/activities/compose/projectpage/AddOnsScreen.kt:199 | a click outside collapses the list |
| AddOns.AddOnsScreen.CountrySelected | app/src/main/java/com/kickstarter/ui/activities/compose/projectpage/AddOnsScreen.kt:242-260 | selecting sets the input to the country's name, collapses the list and reports the rule |
| AddOns.AddOnsScreen.ItemAddedOrRemoved | app/src/main/java/com/kickstarter/ui/activities/compose/projectpage/AddOnsScreen.kt:287-295 | the selection is recorded; the count is the sum of every selection, with this reward's old entry replaced; the selections are reported |
| WebView.ThanksMatchesAtCorrect | app/src/main/java/com/kickstarter/ui/activities/WebViewActivity.kt:32 | the matcher at one position agrees with the pattern `checkouts/\d+/thanks` there |
| WebView.ThanksScan | app/src/main/java/com/kickstarter/ui/activities/WebViewActivity.kt:32 | the scan finds a match iff one starts at or after its position |
| WebView.MatchesThanksPattern | app/src/main/java/com/kickstarter/ui/activities/WebViewActivity.kt:32 | `containsMatchIn`: true iff "checkouts/", one or more digits and "/thanks" occur in a row somewhere in the URL |
| WebView.PageIntercepted | app/src/main/java/com/kickstarter/ui/activities/WebViewActivity.kt:27-38 | finish iff the URL contains "authenticate"; finish with the URL under REFRESH_PROJECT_PAGE iff the thanks pattern matches; both checks are independent and in that order |
| WebView.OnBackPressed | app/src/main/java/com/kickstarter/ui/activities/WebViewActivity.kt:47-53 | go back iff the web view can, otherwise finish |
| WebView.ThanksPageMatches | app/src/main/java/com/kickstarter/ui/activities/WebViewActivity.kt:32 | a thanks URL with an order number matches |
| WebView.BothActions | app/src/main/java/com/kickstarter/ui/activities/WebViewActivity.kt:28-37 | a URL satisfying both tests triggers both actions |
| WebView.NoDigitsNoMatch | app/src/main/java/com/kickstarter/ui/activities/WebViewActivity.kt:32 | "checkouts//thanks" does not match |
| DiscoveryPager.Lookup | app/src/main/java/com/kickstarter/ui/adapters/DiscoveryPagerAdapter.java:86-102 | a cached fragment is returned unchanged; otherwise a new fragment is created and cached; either way the map then holds the returned fragment |
| DiscoveryPager.LookupTwice | app/src/main/java/com/kickstarter/ui/adapters/DiscoveryPagerAdapter.java:86-102 | a second lookup returns the same fragment and creates nothing |
| DiscoveryPager.LookupsContents | app/src/main/java/com/kickstarter/ui/adapters/DiscoveryPagerAdapter.java:77-102 | after looking up a list of pages, every page is cached and got its cached fragment, earlier entries are kept, and nothing else is added |
| DiscoveryPager.SamePageSameFragment | app/src/main/java/com/kickstarter/ui/adapters/DiscoveryPagerAdapter.java:86-102 | a page listed twice gets the same fragment |
| DiscoveryPager.LookupsOfCachedPages | app/src/main/java/com/kickstarter/ui/adapters/DiscoveryPagerAdapter.java:93-95 | looking up cached pages changes nothing |
| DiscoveryPager.LookupsSnoc | app/src/main/java/com/kickstarter/ui/adapters/DiscoveryPagerAdapter.java:77-81 | one more page continues on from where the earlier lookups left off |
| DiscoveryPager.ClearCalls | app/src/main/java/com/kickstarter/ui/adapters/DiscoveryPagerAdapter.java:77-81 | one `clearPage` per fragment, in order |
| DiscoveryPager.FragmentStatics.constructor | app/src/main/java/com/kickstarter/ui/adapters/DiscoveryPagerAdapter.java:20 | the static map starts as null |
| DiscoveryPager.DiscoveryPagerAdapter.constructor | app/src/main/java/com/kickstarter/ui/adapters/DiscoveryPagerAdapter.java:26-34 | the constructor creates the shared map only when there is none, so a new adapter reuses every cached fragment |
| DiscoveryPager.DiscoveryPagerAdapter.GetItem | app/src/main/java/com/kickstarter/ui/adapters/DiscoveryPagerAdapter.java:43-47 | always a new fragment, which is stored at the position and overwrites any cached one |
| DiscoveryPager.DiscoveryPagerAdapter.GetPageTitle | app/src/main/java/com/kickstarter/ui/adapters/DiscoveryPagerAdapter.java:55-57 | the title at the given position of the list |
| DiscoveryPager.DiscoveryPagerAdapter.SetPrimaryItem | app/src/main/java/com/kickstarter/ui/adapters/DiscoveryPagerAdapter.java:37-40 | the delegate is told the position |
| DiscoveryPager.DiscoveryPagerAdapter.SafeGetFragment | app/src/main/java/com/kickstarter/ui/adapters/DiscoveryPagerAdapter.java:86-102 | the static map and the instance count change as Lookup says, and the result is Lookup's fragment |
| DiscoveryPager.DiscoveryPagerAdapter.TakeCategoriesForPosition | app/src/main/java/com/kickstarter/ui/adapters/DiscoveryPagerAdapter.java:62-64 | the categories go to the fragment at the position |
| DiscoveryPager.DiscoveryPagerAdapter.TakeParams | app/src/main/java/com/kickstarter/ui/adapters/DiscoveryPagerAdapter.java:69-72 | the params go to the fragment at the params' sort position |
| DiscoveryPager.DiscoveryPagerAdapter.ClearPageAt | app/src/main/java/com/kickstarter/ui/adapters/DiscoveryPagerAdapter.java:79-80 | one page's fragment is looked up and cleared |
| DiscoveryPager.DiscoveryPagerAdapter.ClearPages | app/src/main/java/com/kickstarter/ui/adapters/DiscoveryPagerAdapter.java:77-81 | each listed page's fragment is cleared in list order, with the cache updated as the lookups say |

## Left out

- Rx and coroutine machinery: no schedulers, disposables or `bindToLifecycle`. Every remote call completes within the input that starts it, so `switchMap` never cancels a call in flight. Each subscription to a chain without `share` starts its own call, as in the source.
- PaymentMethods.PaymentMethodsViewModel.NewCardButtonClicked: the two calls of one click run one after the other. With real latency their progress flags can interleave (true, true, false, false); that interleaving is not modelled.
- PaymentMethods.PaymentMethodsViewModel.SavePaymentOption: the two saves of one click run one after the other, as for `NewCardButtonClicked`.
- ThirdPartyEvents.EventInputs: the user and the checkout data are fixed for a run. The re-emission that `combineLatestPair` makes when the user or the data change is not modelled.
- ReportProject.FailureIsFinal: the crash is not modelled. The subscription has no error handler, so the stream's NullPointerException goes to RxJava's global error handler; the model states only that no pair follows.
- DiscoveryPager.DiscoveryPagerAdapter.GetCount: `getCount` returns the number of sorts it was built with; the model carries no property for it.
- ShippingRules.GetShippingRulesUseCase.Invoke: the state flow is the history of the values it held. An emit equal to the current value is dropped, as `StateFlow` does. Values a slow collector misses, which `StateFlow` also drops, and the coroutine launch are not modelled.
- Remote clients (Apollo, Retrofit) are not modelled. Their answers are inputs.
- SetPassword: `isNotEmptyAndAtLeast6Chars` is not part of this model. It is read by its name, as "at least 6 characters".
- SetPassword: the password validator, `maskEmail` and `ErrorEnvelope.errorMessage` are not part of this model. They are function parameters.
- SetPassword.SetPasswordViewModel.Edit: the class keeps the de-duplicated save and warning histories directly. That they equal `distinctUntilChanged` over all snapshots is proved separately, in PipelinesStep.
- SetPassword.Respond: the crash is not modelled. A null envelope message fails the merged error stream with a NullPointerException, and its subscription has no error handler, so the error goes to RxJava's global error handler; the model states only that `error` receives nothing more.
- SetPassword.SetPasswordViewModel.ConfigureWith: the crash is not modelled. A null EMAIL extra fails the intent stream the same way; the model states only that no email is shown after it.
- SetPassword: login with the access token is recorded as a call. The login use case itself is not part of this model.
- RewardsFragment: `BackingUtils.isBacked` is a parameter.
- ShippingRules: `RewardUtils.shipsWorldwide` and `shipsToRestrictedLocations` are parameters. Rule costs are reduced to an id.
- ThirdPartyEvents.SendThirdPartyEvent: the payload that `BuildInput.buildInput` builds (prices, shipping, Double amounts) is not modelled. Nor is the encoded relay id of the project. An event is modelled by the raw inputs it is built from.
- ThirdPartyEvents: `sendCAPIEvent`, which the tests exercise, is not part of this model.
- ThirdPartyEvents: both the plain user and the optional V2 user are modelled as one `Option<User>`.
- KoalaTrackingClient and ApiRequestInterceptor are not part of this model. They are JSON, Base64, device lookups, clock time and HTTP builders.
- TrackingWorker: logging is left out. So are Crashlytics and the work-manager plumbing.
- AddOns: `lowercase()` is modelled on ASCII letters only. Unicode case mapping is left out.
- AddOns.AddOnsScreen: one composition is modelled. `rewardSelections` is not `remember`ed in the source, so what a recomposition does to it is not modelled. The layout is left out.
- DiscoveryPager: `DiscoveryParams.Sort.values().length` and `DiscoveryUtils.positionFromSort` are constant parameters.
- DiscoveryPager: what a fragment does when it takes categories or params, or clears its page, is not modelled. These are recorded as calls.
- DiscoveryPager.DiscoveryPagerAdapter.SafeGetFragment: the branch for a null map is not modelled. Every adapter's constructor creates the map, so the branch cannot be reached once an adapter exists.
- DiscoveryPager.DiscoveryPagerAdapter.GetPageTitle: requires a valid index. The Java list would throw for any other index.
- WebView: the web view, the intent extras and the activity transitions are represented by the action values only. The `println` logged when the thanks pattern is found is console output and is left out.
