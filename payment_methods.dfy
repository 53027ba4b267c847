/** The payment-methods settings screen: the stored cards and the divider under
    them, deleting a card after a confirmation, adding a card through a setup
    intent and saving it, and the progress bar around every remote call. */
module PaymentMethods {
  import opened Streams

  datatype StoredCard = StoredCard(id: string, lastFourDigits: string)

  /** `deletePaymentSource(...)`'s data, reduced to what is read:
      `paymentSourceDelete()?.clientMutationId()`, null when either part is null. */
  datatype DeleteResponse = DeleteResponse(clientMutationId: Option<string>)

  /** The input of the `savePaymentMethod` mutation. */
  datatype SavePaymentMethodData = SavePaymentMethodData(reusable: bool, intentClientSecret: string)

  /** The progress bar as the screen sees it: the raw flag history with
      consecutive duplicates removed. */
  function ProgressOutput(raw: seq<bool>): (r: seq<bool>)
    ensures NoConsecutiveRepeats(r)
    ensures raw != [] ==> r != [] && r[|r| - 1] == raw[|raw| - 1]
  {
    DistinctUntilChanged(raw)
  }

  /** A call that wraps a nested card refresh (a successful delete or save) pushes
      `true, true, false, false`; on screen the bar is shown once when the call
      starts and hidden once, at the end of the nested refresh. */
  lemma NestedCallProgress(raw: seq<bool>)
    requires raw == [] || raw[|raw| - 1] == false
    ensures ProgressOutput(raw + [true, true, false, false]) == ProgressOutput(raw) + [true, false]
  {
    var s1 := raw + [true];
    var s2 := s1 + [true];
    var s3 := s2 + [false];
    var s4 := s3 + [false];
    assert s4 == raw + [true, true, false, false];
    var d := DistinctUntilChanged(raw);
    assert d == [] || d[|d| - 1] == false;
    DistinctUntilChangedSnoc(raw, true);
    assert DistinctUntilChanged(s1) == d + [true];
    DistinctUntilChangedSnoc(s1, true);
    assert DistinctUntilChanged(s2) == d + [true];
    DistinctUntilChangedSnoc(s2, false);
    assert DistinctUntilChanged(s3) == d + [true, false];
    DistinctUntilChangedSnoc(s3, false);
  }

  /** A call without a nested refresh pushes `true, false`: the bar is shown once
      and hidden once. */
  lemma SimpleCallProgress(raw: seq<bool>)
    requires raw == [] || raw[|raw| - 1] == false
    ensures ProgressOutput(raw + [true, false]) == ProgressOutput(raw) + [true, false]
  {
    var s1 := raw + [true];
    assert s1 + [false] == raw + [true, false];
    var d := DistinctUntilChanged(raw);
    assert d == [] || d[|d| - 1] == false;
    DistinctUntilChangedSnoc(raw, true);
    assert DistinctUntilChanged(s1) == d + [true];
    DistinctUntilChangedSnoc(s1, false);
  }

  /** What one call pushes onto the raw progress flag: `true` when it starts,
      the flags of the nested refresh when it has one, then `false` when it ends. */
  function CallFlags(nestedRefresh: bool): (r: seq<bool>)
    ensures |r| >= 2 && r[0] == true && r[|r| - 1] == false
  {
    if nestedRefresh then [true, true, false, false] else [true, false]
  }

  /** Whatever its outcome, a single call shows the bar once and hides it once. */
  lemma CallProgress(raw: seq<bool>, nestedRefresh: bool)
    requires raw == [] || raw[|raw| - 1] == false
    ensures ProgressOutput(raw + CallFlags(nestedRefresh)) == ProgressOutput(raw) + [true, false]
  {
    if nestedRefresh {
      NestedCallProgress(raw);
    } else {
      SimpleCallProgress(raw);
    }
  }

  /** Two calls in a row (the two subscriptions of an unshared chain): the bar is
      shown and hidden once for each. */
  lemma TwoCallsProgress(raw: seq<bool>, firstNested: bool, secondNested: bool)
    requires raw == [] || raw[|raw| - 1] == false
    ensures ProgressOutput(raw + CallFlags(firstNested) + CallFlags(secondNested))
            == ProgressOutput(raw) + [true, false, true, false]
  {
    CallProgress(raw, firstNested);
    CallProgress(raw + CallFlags(firstNested), secondNested);
  }

  class PaymentMethodsViewModel {
    /** Emission histories of the outputs and of the progress subject. */
    var cards: seq<seq<StoredCard>>
    var dividerIsVisible: seq<bool>
    var progress: seq<bool>
    var deleteCardDialogs: nat
    var error: seq<Option<string>>
    var success: seq<Option<string>>
    var presentPaymentSheet: seq<string>
    var showError: seq<Option<string>>

    /** The latest `deleteCardClicked` id, and the calls sent. */
    var lastDeleteClicked: Option<string>
    var deleteCalls: seq<string>
    var saveCalls: seq<SavePaymentMethodData>

    /** Every card list reached the divider, which is visible iff the list is not
        empty; no call is in flight between inputs. */
    ghost predicate Valid()
      reads this
    {
      DividerFollowsCards() && (progress == [] || progress[|progress| - 1] == false)
    }

    ghost predicate DividerFollowsCards()
      reads this`cards, this`dividerIsVisible
    {
      && |dividerIsVisible| == |cards|
      && (forall i :: 0 <= i < |cards| ==> dividerIsVisible[i] == (cards[i] != []))
    }

    /** The divider currently shown is visible iff the latest card list is not empty. */
    function DividerVisible(): (b: bool)
      reads this
      requires Valid() && cards != []
      ensures b <==> cards[|cards| - 1] != []
    {
      dividerIsVisible[|dividerIsVisible| - 1]
    }

    /** `progressBarIsVisible()` */
    function ProgressBarIsVisible(): (r: seq<bool>)
      reads this
      requires Valid()
      ensures NoConsecutiveRepeats(r)
      ensures r == [] || r[|r| - 1] == false
    {
      ProgressOutput(progress)
    }

    /** `init`: the stored cards are loaded once; `initial` is that call's outcome,
        `None` when it failed (`neverError` drops the failure). */
    constructor (initial: Option<seq<StoredCard>>)
      ensures Valid()
      ensures progress == [true, false]
      ensures cards == (if initial.Some? then [initial.value] else [])
      ensures dividerIsVisible == (if initial.Some? then [initial.value != []] else [])
      ensures deleteCardDialogs == 0 && error == [] && success == [] && presentPaymentSheet == [] && showError == []
      ensures lastDeleteClicked == None && deleteCalls == [] && saveCalls == []
    {
      progress := [true, false];
      cards := if initial.Some? then [initial.value] else [];
      dividerIsVisible := if initial.Some? then [initial.value != []] else [];
      deleteCardDialogs := 0;
      error, success, presentPaymentSheet, showError := [], [], [], [];
      lastDeleteClicked, deleteCalls, saveCalls := None, [], [];
    }

    /** `getListOfStoredCards()` run to completion: the flag rises, the list (if the
        call succeeded) reaches the cards and the divider, the flag falls. */
    method LoadCards(outcome: Option<seq<StoredCard>>)
      requires DividerFollowsCards()
      modifies this`cards, this`dividerIsVisible, this`progress
      ensures DividerFollowsCards()
      ensures progress == old(progress) + [true, false]
      ensures cards == old(cards) + (if outcome.Some? then [outcome.value] else [])
      ensures dividerIsVisible == old(dividerIsVisible) + (if outcome.Some? then [outcome.value != []] else [])
    {
      if outcome.Some? {
        cards := cards + [outcome.value];
        dividerIsVisible := dividerIsVisible + [outcome.value != []];
      }
      progress := progress + [true, false];
    }

    /** `refreshCards()` */
    method RefreshCards(outcome: Option<seq<StoredCard>>)
      requires Valid()
      modifies this`cards, this`dividerIsVisible, this`progress
      ensures Valid()
      ensures progress == old(progress) + [true, false]
      ensures cards == old(cards) + (if outcome.Some? then [outcome.value] else [])
      ensures dividerIsVisible == old(dividerIsVisible) + (if outcome.Some? then [outcome.value != []] else [])
    {
      LoadCards(outcome);
    }

    /** `deleteCardClicked(id)`: the confirmation dialog is shown, and `id` is the
        card a confirmation will delete. */
    method DeleteCardClicked(paymentSourceId: string)
      requires Valid()
      modifies this`deleteCardDialogs, this`lastDeleteClicked
      ensures Valid()
      ensures deleteCardDialogs == old(deleteCardDialogs) + 1
      ensures lastDeleteClicked == Some(paymentSourceId)
    {
      deleteCardDialogs := deleteCardDialogs + 1;
      lastDeleteClicked := Some(paymentSourceId);
    }

    /** `confirmDeleteCardClicked()`: the most recently clicked card is deleted; a
        confirmation before any delete click does nothing. On success the cards are
        refreshed (`refresh` is that call's outcome) and the mutation id is emitted
        as success; on failure the cards stay and the localized message is the error. */
    method ConfirmDeleteCardClicked(outcome: Remote<DeleteResponse>, refresh: Option<seq<StoredCard>>)
      requires Valid()
      modifies this`deleteCalls, this`progress, this`cards, this`dividerIsVisible, this`success, this`error
      ensures Valid()
      ensures old(lastDeleteClicked) == None ==>
                deleteCalls == old(deleteCalls) && progress == old(progress) && cards == old(cards)
                && success == old(success) && error == old(error)
      ensures old(lastDeleteClicked) != None ==>
                && deleteCalls == old(deleteCalls) + [old(lastDeleteClicked).value]
                && progress == old(progress) + CallFlags(outcome.Done?)
      ensures old(lastDeleteClicked) != None && outcome.Done? ==>
                && cards == old(cards) + (if refresh.Some? then [refresh.value] else [])
                && success == old(success) + [outcome.value.clientMutationId]
                && error == old(error)
      ensures old(lastDeleteClicked) != None && outcome.Failed? ==>
                && cards == old(cards) && success == old(success)
                && error == old(error) + [outcome.cause.localizedMessage]
    {
      if lastDeleteClicked != None {
        deleteCalls := deleteCalls + [lastDeleteClicked.value];
        progress := progress + [true];
        match outcome {
          case Done(response) =>
            LoadCards(refresh);
            success := success + [response.clientMutationId];
          case Failed(t) =>
            error := error + [t.localizedMessage];
        }
        progress := progress + [false];
      }
    }

    /** `newCardButtonClicked()`. The setup-intent chain is not shared and has two
        subscribers, so each click creates two setup intents, one after the other:
        the first call's client secret is presented to the payment sheet (its
        failure is dropped), the second call's failure message is shown (its secret
        is dropped). */
    method NewCardButtonClicked(first: Remote<string>, second: Remote<string>)
      requires Valid()
      modifies this`progress, this`presentPaymentSheet, this`showError
      ensures Valid()
      ensures progress == old(progress) + CallFlags(false) + CallFlags(false)
      ensures presentPaymentSheet == old(presentPaymentSheet) + (if first.Done? then [first.value] else [])
      ensures showError == old(showError) + (if second.Failed? then [second.cause.message] else [])
    {
      progress := progress + [true];
      if first.Done? {
        presentPaymentSheet := presentPaymentSheet + [first.value];
      }
      progress := progress + [false];
      progress := progress + [true];
      if second.Failed? {
        showError := showError + [second.cause.message];
      }
      progress := progress + [false];
    }

    /** `savePaymentOption()`: the latest setup client secret is saved as reusable;
        nothing happens before a secret has been presented. The save chain is not
        shared and has two subscribers, so each click sends the mutation twice, one
        after the other: a success of the first call refreshes the cards (its failure
        is dropped), a failure of the second call shows its message (its success is
        dropped). */
    method SavePaymentOption(first: Remote<()>, second: Remote<()>, refresh: Option<seq<StoredCard>>)
      requires Valid()
      modifies this`saveCalls, this`progress, this`cards, this`dividerIsVisible, this`showError
      ensures Valid()
      ensures old(presentPaymentSheet) == [] ==>
                saveCalls == old(saveCalls) && progress == old(progress) && cards == old(cards) && showError == old(showError)
      ensures old(presentPaymentSheet) != [] ==>
                var data := SavePaymentMethodData(true, presentPaymentSheet[|presentPaymentSheet| - 1]);
                && saveCalls == old(saveCalls) + [data, data]
                && progress == old(progress) + CallFlags(first.Done?) + CallFlags(false)
                && cards == old(cards) + (if first.Done? && refresh.Some? then [refresh.value] else [])
                && showError == old(showError) + (if second.Failed? then [second.cause.message] else [])
    {
      if presentPaymentSheet != [] {
        var data := SavePaymentMethodData(true, presentPaymentSheet[|presentPaymentSheet| - 1]);
        saveCalls := saveCalls + [data];
        progress := progress + [true];
        if first.Done? {
          LoadCards(refresh);
        }
        progress := progress + [false];
        saveCalls := saveCalls + [data];
        progress := progress + [true];
        if second.Failed? {
          showError := showError + [second.cause.message];
        }
        progress := progress + [false];
      }
    }
  }
}
