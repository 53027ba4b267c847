/** The "set password" screen: two password fields, a save button that is enabled
    only for a valid pair, a validation warning, and the submission of the pair to
    the remote `updateUserPassword` mutation with a busy flag around it. */
module SetPassword {
  import opened Streams

  /** `isNotEmptyAndAtLeast6Chars`, whose body is not part of this model, read by
      its name: at least six characters (and so not empty). */
  predicate NotEmptyAndAtLeast6Chars(s: string) {
    |s| >= 6
  }

  /** The derived snapshot of the two fields. */
  datatype SetNewPassword = SetNewPassword(newPassword: string, confirmPassword: string)

  /** `SetNewPassword.isValid` */
  function IsValid(p: SetNewPassword): (b: bool)
    ensures b <==> |p.newPassword| >= 6 && |p.confirmPassword| >= 6 && p.newPassword == p.confirmPassword
    ensures b ==> p.newPassword != "" && p.confirmPassword != ""
  {
    NotEmptyAndAtLeast6Chars(p.newPassword)
    && NotEmptyAndAtLeast6Chars(p.confirmPassword)
    && p.confirmPassword == p.newPassword
  }

  /** Validity does not depend on which field holds which value. */
  lemma IsValidSymmetric(a: string, b: string)
    ensures IsValid(SetNewPassword(a, b)) == IsValid(SetNewPassword(b, a))
  {
  }

  /** The validator `newPasswordValidationWarnings` (not part of this model) is a
      parameter: it returns a string resource id, or null when there is nothing to say. */
  type Validator = (string, string) -> Option<int>

  /** `SetNewPassword.warning`: the validator's resource id, or 0 for "no warning". */
  function Warning(validator: Validator, p: SetNewPassword): (w: int)
    ensures validator(p.newPassword, p.confirmPassword) == None ==> w == 0
    ensures validator(p.newPassword, p.confirmPassword) != None ==> w == validator(p.newPassword, p.confirmPassword).value
  {
    validator(p.newPassword, p.confirmPassword).GetOr(0)
  }

  /** `isValid` of every snapshot, in order. */
  function ValidityOf(ps: seq<SetNewPassword>): (r: seq<bool>)
    ensures |r| == |ps|
    ensures forall i :: 0 <= i < |ps| ==> r[i] == IsValid(ps[i])
  {
    seq(|ps|, i requires 0 <= i < |ps| => IsValid(ps[i]))
  }

  /** The warnings of the snapshots with the zero ("no warning") ones filtered out. */
  function NonZeroWarnings(validator: Validator, ps: seq<SetNewPassword>): (r: seq<int>)
    ensures 0 !in r
    ensures |r| <= |ps|
  {
    if ps == [] then []
    else
      var init := NonZeroWarnings(validator, ps[..|ps| - 1]);
      var w := Warning(validator, ps[|ps| - 1]);
      if w == 0 then init else init + [w]
  }

  /** The password-update mutation as it is sent. */
  datatype PasswordMutation = UpdateUserPassword(currentPassword: string, newPassword: string, confirmPassword: string)

  /** The parts of the mutation's response that are read:
      `updateUserAccount()?.user()?.hasPassword()` and `...user()?.email()`. */
  datatype UpdateResponse = UpdateResponse(hasPassword: Option<bool>, email: Option<string>)

  /** The logged-in user, as far as this screen is concerned. */
  datatype User = User(id: int, needsPassword: bool)

  /** The messages the error output receives for one failure, in the order the
      merged streams deliver them: the throwable's localized message when it is not
      null, then the message of the error envelope built from it. A null envelope
      message delivers nothing: the `map` that yields it fails the merged stream,
      which `Respond` records as the end of the error output. */
  function ErrorMessages(envelopeMessage: Throwable -> Option<string>, t: Throwable): (r: seq<string>)
    ensures |r| <= 2
    ensures t.localizedMessage != None ==> |r| >= 1 && r[0] == t.localizedMessage.value
    ensures forall m :: m in r <==> Some(m) == t.localizedMessage || Some(m) == envelopeMessage(t)
  {
    (if t.localizedMessage != None then [t.localizedMessage.value] else [])
    + (if envelopeMessage(t) != None then [envelopeMessage(t).value] else [])
  }

  /** The busy flag history after `n` calls that do not overlap: each pushed `true`
      when it started and `false` when it ended. */
  function Pulses(n: nat): (s: seq<bool>)
    ensures |s| == 2 * n
  {
    if n == 0 then [] else Pulses(n - 1) + [true, false]
  }

  /** The busy flag is raised at even positions and lowered at odd ones: it is never
      raised twice in a row. */
  lemma {:induction false} PulsesAlternate(n: nat)
    ensures forall i :: 0 <= i < 2 * n ==> Pulses(n)[i] == (i % 2 == 0)
  {
    if n > 0 {
      PulsesAlternate(n - 1);
    }
  }

  /** The EMAIL extra of an intent as `getStringExtra` sees it: absent, present with
      a null or non-string value (read as null), or a string. */
  datatype EmailExtra = NoEmailExtra | NullEmailExtra | StringEmailExtra(email: string)

  /** An intent whose EMAIL extra reads as null has reached the `map` that returns
      it: RxJava 2 refuses the null and the intent stream fails for good. */
  predicate IntentStreamFailed(intents: seq<EmailExtra>) {
    exists i :: 0 <= i < |intents| && intents[i].NullEmailExtra?
  }

  /** The values `setUserEmail` has received after `intents`: the masked e-mail of
      every string extra that arrived while the intent stream was still running. */
  function MaskedEmails(maskEmail: string -> string, intents: seq<EmailExtra>): (r: seq<string>)
    ensures |r| <= |intents|
    decreases |intents|
  {
    if intents == [] then []
    else
      var init := intents[..|intents| - 1];
      var last := intents[|intents| - 1];
      var before := MaskedEmails(maskEmail, init);
      if !IntentStreamFailed(init) && last.StringEmailExtra? then before + [maskEmail(last.email)] else before
  }

  /** What one more intent does: a string extra is masked and shown while the
      stream runs, a null extra fails the stream, and no extra changes nothing. */
  lemma IntentStep(maskEmail: string -> string, intents: seq<EmailExtra>, extra: EmailExtra)
    ensures IntentStreamFailed(intents + [extra]) == (IntentStreamFailed(intents) || extra.NullEmailExtra?)
    ensures MaskedEmails(maskEmail, intents + [extra])
            == MaskedEmails(maskEmail, intents)
               + (if !IntentStreamFailed(intents) && extra.StringEmailExtra? then [maskEmail(extra.email)] else [])
  {
    var all := intents + [extra];
    assert all[..|intents|] == intents;
    assert forall i :: 0 <= i < |intents| ==> all[i] == intents[i];
    assert all[|intents|] == extra;
  }

  /** Once an intent with a null EMAIL extra has arrived, no e-mail is shown again. */
  lemma {:induction false} NullEmailExtraIsFinal(maskEmail: string -> string, intents: seq<EmailExtra>,
                                                 more: seq<EmailExtra>)
    requires IntentStreamFailed(intents)
    ensures MaskedEmails(maskEmail, intents + more) == MaskedEmails(maskEmail, intents)
    decreases |more|
  {
    if more == [] {
      assert intents + more == intents;
    } else {
      var init := more[..|more| - 1];
      assert intents + more == (intents + init) + [more[|more| - 1]];
      NullEmailExtraIsFinal(maskEmail, intents, init);
      IntentStep(maskEmail, intents + init, more[|more| - 1]);
      var i :| 0 <= i < |intents| && intents[i].NullEmailExtra?;
      assert (intents + init)[i] == intents[i];
    }
  }

  class SetPasswordViewModel {
    const validator: Validator
    const maskEmail: string -> string
    const envelopeMessage: Throwable -> Option<string>

    /** Latest values of the two fields (both start as ""). */
    var newPassword: string
    var confirmPassword: string

    /** Emission histories of the outputs. */
    var saveButtonIsEnabled: seq<bool>
    var passwordWarning: seq<int>
    var progressBarIsVisible: seq<bool>
    var isFormSubmitting: seq<bool>
    var error: seq<string>
    var success: seq<string>
    var setUserEmail: seq<string>
    /** Whether the intent stream, and with it `setUserEmail`, has failed. */
    var intentEnded: bool
    /** Whether the merged error stream has failed, so `error` receives nothing more. */
    var errorEnded: bool

    /** Mutations sent, and logins performed after a successful update. */
    var mutations: seq<PasswordMutation>
    var logins: seq<(User, string)>

    /** The current user and access token, and the last pair that passed the
        `distinctUntilChanged` of the success pipeline. */
    var loggedInUser: Option<User>
    var accessToken: Option<string>
    var lastSuccessPair: Option<(User, UpdateResponse)>

    /** The intents received so far. */
    ghost var intents: seq<EmailExtra>

    ghost predicate Valid()
      reads this
    {
      FormValid() && CallsValid() && IntentsValid()
    }

    /** `setUserEmail` is the history `MaskedEmails` gives for the intents received. */
    ghost predicate IntentsValid()
      reads this`setUserEmail, this`intentEnded, this`intents
    {
      setUserEmail == MaskedEmails(maskEmail, intents) && intentEnded == IntentStreamFailed(intents)
    }

    /** The save button shows the validity of the current fields, and neither
        field output ever repeats itself; no "no warning" value is emitted. */
    ghost predicate FormValid()
      reads this`newPassword, this`confirmPassword, this`saveButtonIsEnabled, this`passwordWarning
    {
      && saveButtonIsEnabled != []
      && saveButtonIsEnabled[|saveButtonIsEnabled| - 1] == IsValid(SetNewPassword(newPassword, confirmPassword))
      && NoConsecutiveRepeats(saveButtonIsEnabled)
      && NoConsecutiveRepeats(passwordWarning)
      && 0 !in passwordWarning
    }

    /** Every call sent raised and then lowered both busy flags; the error output
        never repeats itself. */
    ghost predicate CallsValid()
      reads this`error, this`progressBarIsVisible, this`isFormSubmitting, this`mutations
    {
      && NoConsecutiveRepeats(error)
      && progressBarIsVisible == Pulses(|mutations|)
      && isFormSubmitting == progressBarIsVisible
    }

    /** The save button state currently shown. */
    function SaveEnabled(): (b: bool)
      reads this
      requires Valid()
      ensures b == IsValid(SetNewPassword(newPassword, confirmPassword))
    {
      saveButtonIsEnabled[|saveButtonIsEnabled| - 1]
    }

    constructor (validator: Validator, maskEmail: string -> string,
                 envelopeMessage: Throwable -> Option<string>,
                 loggedInUser: Option<User>, accessToken: Option<string>)
      ensures Valid()
      ensures this.validator == validator && this.maskEmail == maskEmail && this.envelopeMessage == envelopeMessage
      ensures newPassword == "" && confirmPassword == ""
      ensures saveButtonIsEnabled == [false]
      ensures passwordWarning == (if Warning(validator, SetNewPassword("", "")) == 0 then [] else [Warning(validator, SetNewPassword("", ""))])
      ensures progressBarIsVisible == [] && isFormSubmitting == [] && error == [] && success == []
      ensures setUserEmail == [] && mutations == [] && logins == []
      ensures !intentEnded && !errorEnded && intents == []
      ensures this.loggedInUser == loggedInUser && this.accessToken == accessToken && lastSuccessPair == None
    {
      this.validator := validator;
      this.maskEmail := maskEmail;
      this.envelopeMessage := envelopeMessage;
      newPassword, confirmPassword := "", "";
      saveButtonIsEnabled := [false];
      var w := Warning(validator, SetNewPassword("", ""));
      passwordWarning := if w == 0 then [] else [w];
      progressBarIsVisible, isFormSubmitting := [], [];
      error, success, setUserEmail := [], [], [];
      intentEnded, errorEnded, intents := false, false, [];
      mutations, logins := [], [];
      this.loggedInUser, this.accessToken, lastSuccessPair := loggedInUser, accessToken, None;
    }

    /** `configureWith(intent)`: while the intent stream runs, a string EMAIL extra
        is masked and shown, an intent without the extra is filtered out, and an
        extra that reads as null fails the stream; after that nothing is shown. */
    method ConfigureWith(extra: EmailExtra)
      requires Valid()
      modifies this`setUserEmail, this`intentEnded, this`intents
      ensures Valid()
      ensures intents == old(intents) + [extra]
      ensures old(intentEnded) ==> setUserEmail == old(setUserEmail) && intentEnded
      ensures !old(intentEnded) ==>
                && setUserEmail == old(setUserEmail) + (if extra.StringEmailExtra? then [maskEmail(extra.email)] else [])
                && intentEnded == extra.NullEmailExtra?
    {
      IntentStep(maskEmail, intents, extra);
      if !intentEnded {
        match extra {
          case NullEmailExtra =>
            intentEnded := true;
          case StringEmailExtra(email) =>
            setUserEmail := setUserEmail + [maskEmail(email)];
          case NoEmailExtra =>
        }
      }
      intents := intents + [extra];
    }

    /** The fields now hold `p`: the new snapshot reaches the save-enabled and
        warning pipelines. */
    method Edit(p: SetNewPassword)
      requires Valid()
      modifies this`newPassword, this`confirmPassword, this`saveButtonIsEnabled, this`passwordWarning
      ensures Valid()
      ensures newPassword == p.newPassword && confirmPassword == p.confirmPassword
      ensures saveButtonIsEnabled == AppendDistinct(old(saveButtonIsEnabled), IsValid(p))
      ensures passwordWarning == if Warning(validator, p) == 0 then old(passwordWarning)
                                 else AppendDistinct(old(passwordWarning), Warning(validator, p))
    {
      var w := Warning(validator, p);
      if w != 0 {
        passwordWarning := AppendDistinct(passwordWarning, w);
      }
      saveButtonIsEnabled := AppendDistinct(saveButtonIsEnabled, IsValid(p));
      newPassword, confirmPassword := p.newPassword, p.confirmPassword;
    }

    /** `newPassword(s)`: the new-password field changed. */
    method NewPassword(s: string)
      requires Valid()
      modifies this`newPassword, this`confirmPassword, this`saveButtonIsEnabled, this`passwordWarning
      ensures Valid()
      ensures newPassword == s && confirmPassword == old(confirmPassword)
      ensures saveButtonIsEnabled == AppendDistinct(old(saveButtonIsEnabled), IsValid(SetNewPassword(s, confirmPassword)))
      ensures var w := Warning(validator, SetNewPassword(s, confirmPassword));
              passwordWarning == if w == 0 then old(passwordWarning) else AppendDistinct(old(passwordWarning), w)
    {
      Edit(SetNewPassword(s, confirmPassword));
    }

    /** `confirmPassword(s)`: the confirmation field changed. */
    method ConfirmPassword(s: string)
      requires Valid()
      modifies this`newPassword, this`confirmPassword, this`saveButtonIsEnabled, this`passwordWarning
      ensures Valid()
      ensures confirmPassword == s && newPassword == old(newPassword)
      ensures saveButtonIsEnabled == AppendDistinct(old(saveButtonIsEnabled), IsValid(SetNewPassword(newPassword, s)))
      ensures var w := Warning(validator, SetNewPassword(newPassword, s));
              passwordWarning == if w == 0 then old(passwordWarning) else AppendDistinct(old(passwordWarning), w)
    {
      Edit(SetNewPassword(newPassword, s));
    }

    /** The current user changed (`currentUserV2.loggedInUser()` and its token). */
    method CurrentUserChanged(user: Option<User>, token: Option<string>)
      requires Valid()
      modifies this`loggedInUser, this`accessToken
      ensures Valid()
      ensures loggedInUser == user && accessToken == token
    {
      loggedInUser, accessToken := user, token;
    }

    /** `changePasswordClicked()`: the latest pair is sent with "" as the current
        password; the busy flags rise before the call and fall after it, whatever
        its outcome, and the outcome reaches the outputs as `Respond` says. */
    method ChangePasswordClicked(outcome: Remote<UpdateResponse>)
      requires Valid()
      modifies this`mutations, this`progressBarIsVisible, this`isFormSubmitting, this`error, this`errorEnded,
               this`success, this`logins, this`lastSuccessPair
      ensures Valid()
      ensures mutations == old(mutations) + [UpdateUserPassword("", newPassword, confirmPassword)]
      ensures progressBarIsVisible == old(progressBarIsVisible) + [true, false]
      ensures isFormSubmitting == old(isFormSubmitting) + [true, false]
      ensures var r := Respond(envelopeMessage, loggedInUser, accessToken,
                               Outputs(old(error), old(errorEnded), old(success), old(logins), old(lastSuccessPair)), outcome);
              && error == r.error && errorEnded == r.errorEnded
              && success == r.success && logins == r.logins && lastSuccessPair == r.lastSuccessPair
      ensures old(errorEnded) ==> error == old(error) && errorEnded
    {
      Send();
      Deliver(outcome);
    }

    /** The mutation is sent, and the busy flags are raised and lowered around it. */
    method Send()
      requires CallsValid()
      modifies this`mutations, this`progressBarIsVisible, this`isFormSubmitting
      ensures CallsValid()
      ensures mutations == old(mutations) + [UpdateUserPassword("", newPassword, confirmPassword)]
      ensures progressBarIsVisible == old(progressBarIsVisible) + [true, false]
      ensures isFormSubmitting == old(isFormSubmitting) + [true, false]
    {
      var sent := mutations + [UpdateUserPassword("", newPassword, confirmPassword)];
      assert Pulses(|sent|) == progressBarIsVisible + [true, false];
      mutations := sent;
      progressBarIsVisible, isFormSubmitting := progressBarIsVisible + [true, false], isFormSubmitting + [true, false];
    }

    /** The outcome of a finished call reaches the outputs. */
    method Deliver(outcome: Remote<UpdateResponse>)
      requires NoConsecutiveRepeats(error)
      modifies this`error, this`errorEnded, this`success, this`logins, this`lastSuccessPair
      ensures NoConsecutiveRepeats(error)
      ensures var r := Respond(envelopeMessage, loggedInUser, accessToken,
                               Outputs(old(error), old(errorEnded), old(success), old(logins), old(lastSuccessPair)), outcome);
              && error == r.error && errorEnded == r.errorEnded
              && success == r.success && logins == r.logins && lastSuccessPair == r.lastSuccessPair
      ensures old(errorEnded) ==> error == old(error) && errorEnded
    {
      var r := Respond(envelopeMessage, loggedInUser, accessToken,
                       Outputs(error, errorEnded, success, logins, lastSuccessPair), outcome);
      if errorEnded {
        ErrorEndIsFinal(envelopeMessage, loggedInUser, accessToken,
                        Outputs(error, errorEnded, success, logins, lastSuccessPair), outcome);
      }
      error, errorEnded, success, logins, lastSuccessPair := r.error, r.errorEnded, r.success, r.logins, r.lastSuccessPair;
    }
  }

  /** The outputs a finished call can reach; `errorEnded` records that the merged
      error stream has failed. */
  datatype Outputs = Outputs(error: seq<string>, errorEnded: bool, success: seq<string>, logins: seq<(User, string)>,
                             lastSuccessPair: Option<(User, UpdateResponse)>)

  /** What one finished call does to the outputs. While the merged error stream
      runs, a failure feeds its messages to the error output through
      `distinctUntilChanged`; a failure whose envelope message is null delivers its
      localized message and then fails that stream (RxJava 2 refuses the null), so
      later failures reach nothing. The success subscriber is separate from the
      merged stream and keeps going. A response reporting that the
      user now has a password is paired with the logged-in user; a pair different
      from the last one logs the user in again with `needsPassword` cleared (when
      there is an access token) and emits the response's e-mail, "" when it has none. */
  function Respond(envelopeMessage: Throwable -> Option<string>, user: Option<User>, token: Option<string>,
                   o: Outputs, outcome: Remote<UpdateResponse>): (r: Outputs)
    ensures NoConsecutiveRepeats(o.error) ==> NoConsecutiveRepeats(r.error)
    ensures outcome.Failed? && o.errorEnded ==> r == o
    ensures outcome.Failed? && !o.errorEnded ==>
              r == o.(error := AppendAllDistinct(o.error, ErrorMessages(envelopeMessage, outcome.cause)),
                      errorEnded := envelopeMessage(outcome.cause) == None)
    ensures outcome.Done? ==> r.error == o.error && r.errorEnded == o.errorEnded
  {
    match outcome
    case Failed(t) =>
      if o.errorEnded then o
      else o.(error := AppendAllDistinct(o.error, ErrorMessages(envelopeMessage, t)),
              errorEnded := envelopeMessage(t) == None)
    case Done(response) =>
      if response.hasPassword == Some(true) && user != None then
        var pair := (user.value, response);
        if o.lastSuccessPair == Some(pair) then o
        else
          Outputs(o.error, o.errorEnded, o.success + [response.email.GetOr("")],
                  o.logins + (if token == None then [] else [(user.value.(needsPassword := false), token.value)]),
                  Some(pair))
      else o
  }

  /** A response that does not report a password, or arrives with nobody logged in,
      changes nothing. */
  lemma RespondIgnoresResponseWithoutPassword(envelopeMessage: Throwable -> Option<string>, user: Option<User>,
                                              token: Option<string>, o: Outputs, response: UpdateResponse)
    requires response.hasPassword != Some(true) || user == None
    ensures Respond(envelopeMessage, user, token, o, Done(response)) == o
  {
  }

  /** A new (user, response) pair logs the user in again when there is an access
      token, and emits the response's e-mail. */
  lemma RespondNewPair(envelopeMessage: Throwable -> Option<string>, user: User, token: Option<string>,
                       o: Outputs, response: UpdateResponse)
    requires response.hasPassword == Some(true)
    requires o.lastSuccessPair != Some((user, response))
    ensures var r := Respond(envelopeMessage, Some(user), token, o, Done(response));
            && r.success == o.success + [response.email.GetOr("")]
            && r.error == o.error
            && r.lastSuccessPair == Some((user, response))
            && (token == None ==> r.logins == o.logins)
            && (token != None ==> r.logins == o.logins + [(user.(needsPassword := false), token.value)])
  {
  }

  /** `distinctUntilChanged` on the (user, response) pairs: a repeated successful
      response for the same user emits nothing more, so a response is idempotent. */
  lemma RespondIdempotent(envelopeMessage: Throwable -> Option<string>, user: Option<User>, token: Option<string>,
                          o: Outputs, response: UpdateResponse)
    ensures var once := Respond(envelopeMessage, user, token, o, Done(response));
            Respond(envelopeMessage, user, token, once, Done(response)) == once
  {
  }

  /** While the error stream runs, the error output ends with the last message of
      a failure that has one, and the stream fails exactly when the envelope
      message is null. */
  lemma RespondFailureShowsMessage(envelopeMessage: Throwable -> Option<string>, user: Option<User>,
                                   token: Option<string>, o: Outputs, t: Throwable)
    requires !o.errorEnded
    requires t.localizedMessage != None || envelopeMessage(t) != None
    ensures var r := Respond(envelopeMessage, user, token, o, Failed(t));
            && r.error != []
            && r.error[|r.error| - 1] == (if envelopeMessage(t) != None then envelopeMessage(t).value else t.localizedMessage.value)
            && (r.errorEnded <==> envelopeMessage(t) == None)
            && r.success == o.success && r.logins == o.logins
  {
  }

  /** The outputs after a series of finished calls, for a fixed user and token. */
  function RespondAll(envelopeMessage: Throwable -> Option<string>, user: Option<User>, token: Option<string>,
                      o: Outputs, outcomes: seq<Remote<UpdateResponse>>): (r: Outputs)
    ensures NoConsecutiveRepeats(o.error) ==> NoConsecutiveRepeats(r.error)
    decreases |outcomes|
  {
    if outcomes == [] then o
    else Respond(envelopeMessage, user, token, RespondAll(envelopeMessage, user, token, o, outcomes[..|outcomes| - 1]),
                 outcomes[|outcomes| - 1])
  }

  /** Once the error stream has failed, no later call changes the error output. */
  lemma {:induction false} ErrorEndIsFinal(envelopeMessage: Throwable -> Option<string>, user: Option<User>,
                                           token: Option<string>, o: Outputs, outcome: Remote<UpdateResponse>)
    requires o.errorEnded
    ensures var r := Respond(envelopeMessage, user, token, o, outcome);
            r.errorEnded && r.error == o.error
  {
    match outcome
    case Failed(_) =>
    case Done(_) =>
  }

  /** Over any series of calls: after the error stream has failed, the error output
      stays as it was. */
  lemma {:induction false} ErrorEndIsFinalForAll(envelopeMessage: Throwable -> Option<string>, user: Option<User>,
                                                 token: Option<string>, o: Outputs, outcomes: seq<Remote<UpdateResponse>>)
    requires o.errorEnded
    ensures var r := RespondAll(envelopeMessage, user, token, o, outcomes);
            r.errorEnded && r.error == o.error
    decreases |outcomes|
  {
    if outcomes != [] {
      var init := outcomes[..|outcomes| - 1];
      ErrorEndIsFinalForAll(envelopeMessage, user, token, o, init);
      ErrorEndIsFinal(envelopeMessage, user, token, RespondAll(envelopeMessage, user, token, o, init),
                      outcomes[|outcomes| - 1]);
    }
  }

  /** The error stream fails only through a failure whose envelope message is null:
      with every failure carrying one, it keeps running. */
  lemma {:induction false} ErrorEndsOnlyAtNullEnvelope(envelopeMessage: Throwable -> Option<string>, user: Option<User>,
                                                       token: Option<string>, o: Outputs,
                                                       outcomes: seq<Remote<UpdateResponse>>)
    requires !o.errorEnded
    requires forall i :: 0 <= i < |outcomes| && outcomes[i].Failed? ==> envelopeMessage(outcomes[i].cause) != None
    ensures !RespondAll(envelopeMessage, user, token, o, outcomes).errorEnded
    decreases |outcomes|
  {
    if outcomes != [] {
      var init := outcomes[..|outcomes| - 1];
      assert forall i :: 0 <= i < |init| ==> init[i] == outcomes[i];
      ErrorEndsOnlyAtNullEnvelope(envelopeMessage, user, token, o, init);
    }
  }

  /** One field edit, seen by the two outputs: the save-enabled history and the
      warning history stay the `distinctUntilChanged` images of the snapshot stream. */
  lemma PipelinesStep(validator: Validator, ps: seq<SetNewPassword>, p: SetNewPassword,
                      save: seq<bool>, warnings: seq<int>)
    requires save == DistinctUntilChanged(ValidityOf(ps))
    requires warnings == DistinctUntilChanged(NonZeroWarnings(validator, ps))
    ensures AppendDistinct(save, IsValid(p)) == DistinctUntilChanged(ValidityOf(ps + [p]))
    ensures var w := Warning(validator, p);
            (if w == 0 then warnings else AppendDistinct(warnings, w))
            == DistinctUntilChanged(NonZeroWarnings(validator, ps + [p]))
  {
    ValidityOfSnoc(ps, p);
    DistinctUntilChangedSnoc(ValidityOf(ps), IsValid(p));
    NonZeroWarningsSnoc(validator, ps, p);
    var w := Warning(validator, p);
    if w != 0 {
      DistinctUntilChangedSnoc(NonZeroWarnings(validator, ps), w);
    }
  }

  lemma ValidityOfSnoc(ps: seq<SetNewPassword>, p: SetNewPassword)
    ensures ValidityOf(ps + [p]) == ValidityOf(ps) + [IsValid(p)]
  {
  }

  lemma NonZeroWarningsSnoc(validator: Validator, ps: seq<SetNewPassword>, p: SetNewPassword)
    ensures NonZeroWarnings(validator, ps + [p])
            == if Warning(validator, p) == 0 then NonZeroWarnings(validator, ps)
               else NonZeroWarnings(validator, ps) + [Warning(validator, p)]
  {
    assert (ps + [p])[..|ps|] == ps;
  }

  /** Every snapshot history starts with the two empty fields, so the first value
      the save button receives is `false`. */
  lemma FirstSaveEnabledIsFalse(ps: seq<SetNewPassword>)
    requires ps != [] && ps[0] == SetNewPassword("", "")
    ensures DistinctUntilChanged(ValidityOf(ps))[0] == false
  {
    FirstOfDistinct(ValidityOf(ps));
  }
}
