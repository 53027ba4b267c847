/** The consent gate in front of third-party analytics events: a flag computed once
    from feature flags and the stored consent, and a per-project opt-in. */
module ThirdPartyEvents {
  import opened Streams

  datatype FlagKey = AndroidConsentManagement | AndroidCapiIntegration | AndroidGoogleAnalytics

  /** `FeatureFlagClientType.getBoolean`. */
  type FeatureFlags = FlagKey -> bool

  const ConsentManagementPreference: string := "consent_management_preference"

  /** The stored preferences that were written, by key. */
  type SharedPreferences = map<string, bool>

  /** `SharedPreferences.getBoolean(key, default)`: the stored value, or the default
      when nothing was stored under the key. */
  function GetBoolean(prefs: SharedPreferences, key: string, default: bool): (b: bool)
    ensures key in prefs ==> b == prefs[key]
    ensures key !in prefs ==> b == default
  {
    if key in prefs then prefs[key] else default
  }

  /** The use case keeps only the gate it computed when it was built. */
  datatype SendThirdPartyEventUseCase = SendThirdPartyEventUseCase(canSendEventFlag: bool)

  /** The constructor: consent management is on, the user consented (no stored
      answer counts as no), and at least one of the two integrations is on. */
  function NewUseCase(ffClient: FeatureFlags, sharedPreferences: SharedPreferences): (uc: SendThirdPartyEventUseCase)
    ensures uc.canSendEventFlag <==>
              && ffClient(AndroidConsentManagement)
              && ConsentManagementPreference in sharedPreferences
              && sharedPreferences[ConsentManagementPreference]
              && (ffClient(AndroidCapiIntegration) || ffClient(AndroidGoogleAnalytics))
  {
    SendThirdPartyEventUseCase(
      && ffClient(AndroidConsentManagement)
      && GetBoolean(sharedPreferences, ConsentManagementPreference, false)
      && (ffClient(AndroidCapiIntegration) || ffClient(AndroidGoogleAnalytics)))
  }

  datatype Project = Project(id: int, sendThirdPartyEvents: Option<bool>)

  datatype User = User(id: int, email: Option<string>)

  /** What `buildInput` receives for one event: the call's own parameters and the
      latest project, user, and checkout-and-pledge data. */
  datatype RawInput<D> = RawInput(eventName: string, firebaseScreen: string, firebasePreviousScreen: string,
                                  project: Project, user: Option<User>, checkoutAndPledgeData: D)

  /** The project filter: `(sendThirdPartyEvents() ?: false) && canSendEventFlag`. */
  function Passes(uc: SendThirdPartyEventUseCase, p: Project): (b: bool)
    ensures b <==> uc.canSendEventFlag && p.sendThirdPartyEvents == Some(true)
  {
    (if p.sendThirdPartyEvents.Some? then p.sendThirdPartyEvents.value else false) && uc.canSendEventFlag
  }

  /** The events `sendThirdPartyEvent` builds for a stream of projects, the current
      user and the checkout data being the latest values of their streams. */
  function EventInputs<D>(uc: SendThirdPartyEventUseCase, projects: seq<Project>, user: Option<User>,
                          checkoutAndPledgeData: D, eventName: string, firebaseScreen: string,
                          firebasePreviousScreen: string): (r: seq<RawInput<D>>)
    ensures |r| <= |projects|
    ensures forall i :: 0 <= i < |r| ==>
              && r[i].eventName == eventName && r[i].firebaseScreen == firebaseScreen
              && r[i].firebasePreviousScreen == firebasePreviousScreen
              && r[i].user == user && r[i].checkoutAndPledgeData == checkoutAndPledgeData
    ensures forall x :: x in r ==> x.project in projects && Passes(uc, x.project)
    ensures forall p :: p in projects && Passes(uc, p) ==> exists x :: x in r && x.project == p
  {
    if projects == [] then []
    else
      var rest := EventInputs(uc, projects[1..], user, checkoutAndPledgeData, eventName, firebaseScreen,
                              firebasePreviousScreen);
      var p := projects[0];
      assert forall q :: q in projects ==> q == p || q in projects[1..];
      if Passes(uc, p) then
        var x := RawInput(eventName, firebaseScreen, firebasePreviousScreen, p, user, checkoutAndPledgeData);
        assert x in [x] + rest;
        [x] + rest
      else rest
  }

  /** `triggerThirdPartyEvent` with `neverError`: the responses of the calls that
      succeeded, in order; a failed call emits nothing. */
  function Responses<D>(inputs: seq<RawInput<D>>, trigger: RawInput<D> -> Option<(bool, string)>)
    : (r: seq<(bool, string)>)
    ensures |r| <= |inputs|
    ensures forall x :: x in r ==> exists i :: 0 <= i < |inputs| && trigger(inputs[i]) == Some(x)
    ensures (forall i :: 0 <= i < |inputs| ==> trigger(inputs[i]).Some?) ==> |r| == |inputs|
  {
    if inputs == [] then []
    else
      var rest := Responses(inputs[1..], trigger);
      assert forall x :: x in rest ==> exists i :: 1 <= i < |inputs| && trigger(inputs[i]) == Some(x) by {
        forall x | x in rest ensures exists i :: 1 <= i < |inputs| && trigger(inputs[i]) == Some(x) {
          var j :| 0 <= j < |inputs[1..]| && trigger(inputs[1..][j]) == Some(x);
          assert trigger(inputs[1 + j]) == Some(x);
        }
      }
      match trigger(inputs[0])
      case Some(x) => [x] + rest
      case None => rest
  }

  /** `sendThirdPartyEvent` (and `sendThirdPartyEventV2`, which differs only in how
      the current user is unwrapped). */
  function SendThirdPartyEvent<D>(uc: SendThirdPartyEventUseCase, projects: seq<Project>, user: Option<User>,
                                  checkoutAndPledgeData: D, eventName: string, firebaseScreen: string,
                                  firebasePreviousScreen: string, trigger: RawInput<D> -> Option<(bool, string)>)
    : (r: seq<(bool, string)>)
    ensures !uc.canSendEventFlag ==> r == []
    ensures (forall p :: p in projects ==> p.sendThirdPartyEvents != Some(true)) ==> r == []
  {
    Responses(EventInputs(uc, projects, user, checkoutAndPledgeData, eventName, firebaseScreen,
                          firebasePreviousScreen), trigger)
  }

  /** With every flag off nothing is sent, whatever the consent and the project. */
  lemma FeatureFlagOffSendsNothing<D>(ffClient: FeatureFlags, prefs: SharedPreferences, projects: seq<Project>,
                                      user: Option<User>, data: D, eventName: string,
                                      trigger: RawInput<D> -> Option<(bool, string)>)
    requires forall k :: !ffClient(k)
    ensures SendThirdPartyEvent(NewUseCase(ffClient, prefs), projects, user, data, eventName, "", "", trigger) == []
  {
    assert !ffClient(AndroidConsentManagement);
  }

  /** A declined (or never given) consent sends nothing, whatever the flags. */
  lemma DeclinedConsentSendsNothing<D>(ffClient: FeatureFlags, prefs: SharedPreferences, projects: seq<Project>,
                                       user: Option<User>, data: D, eventName: string,
                                       trigger: RawInput<D> -> Option<(bool, string)>)
    requires !GetBoolean(prefs, ConsentManagementPreference, false)
    ensures SendThirdPartyEvent(NewUseCase(ffClient, prefs), projects, user, data, eventName, "", "", trigger) == []
  {
  }

  /** A project that does not opt in sends nothing even when every gate is open. */
  lemma ProjectOptOutSendsNothing<D>(uc: SendThirdPartyEventUseCase, p: Project, user: Option<User>, data: D,
                                     eventName: string, trigger: RawInput<D> -> Option<(bool, string)>)
    requires p.sendThirdPartyEvents != Some(true)
    ensures SendThirdPartyEvent(uc, [p], user, data, eventName, "", "", trigger) == []
  {
  }

  /** With every flag on, consent given and an opted-in project, exactly one event
      is built, carrying the requested event name, the project and the user. */
  lemma AllGatesOpenSendsEvent<D>(ffClient: FeatureFlags, prefs: SharedPreferences, p: Project, user: Option<User>,
                                  data: D, eventName: string)
    requires forall k :: ffClient(k)
    requires ConsentManagementPreference in prefs && prefs[ConsentManagementPreference]
    requires p.sendThirdPartyEvents == Some(true)
    ensures EventInputs(NewUseCase(ffClient, prefs), [p], user, data, eventName, "", "")
              == [RawInput(eventName, "", "", p, user, data)]
  {
    assert ffClient(AndroidConsentManagement) && ffClient(AndroidCapiIntegration);
    assert [p][1..] == [];
  }

  /** Only the consent preference is read: storing any other preference leaves the
      gate as it was. */
  lemma GateIgnoresOtherPreferences(ffClient: FeatureFlags, prefs: SharedPreferences, key: string, v: bool)
    requires key != ConsentManagementPreference
    ensures NewUseCase(ffClient, prefs[key := v]) == NewUseCase(ffClient, prefs)
  {
    assert GetBoolean(prefs[key := v], ConsentManagementPreference, false)
           == GetBoolean(prefs, ConsentManagementPreference, false);
  }

  /** Projects are handled one at a time: the events for two stretches of the project
      stream are the events for the first followed by those for the second. */
  lemma {:induction false} EventInputsAppend<D>(uc: SendThirdPartyEventUseCase, a: seq<Project>, b: seq<Project>,
                                                user: Option<User>, data: D, eventName: string,
                                                firebaseScreen: string, firebasePreviousScreen: string)
    ensures EventInputs(uc, a + b, user, data, eventName, firebaseScreen, firebasePreviousScreen)
            == EventInputs(uc, a, user, data, eventName, firebaseScreen, firebasePreviousScreen)
               + EventInputs(uc, b, user, data, eventName, firebaseScreen, firebasePreviousScreen)
    decreases |a|
  {
    if a == [] {
      assert a + b == b;
    } else {
      assert (a + b)[0] == a[0] && (a + b)[1..] == a[1..] + b;
      EventInputsAppend(uc, a[1..], b, user, data, eventName, firebaseScreen, firebasePreviousScreen);
    }
  }

  /** One project yields one event when it passes the gate and none otherwise. */
  lemma EventInputsSingle<D>(uc: SendThirdPartyEventUseCase, p: Project, user: Option<User>, data: D,
                             eventName: string, firebaseScreen: string, firebasePreviousScreen: string)
    ensures EventInputs(uc, [p], user, data, eventName, firebaseScreen, firebasePreviousScreen)
            == if Passes(uc, p) then [RawInput(eventName, firebaseScreen, firebasePreviousScreen, p, user, data)]
               else []
  {
    assert [p][1..] == [];
  }

  /** Calls are answered one at a time: the responses to two stretches of inputs are
      the responses to the first followed by those to the second. */
  lemma {:induction false} ResponsesAppend<D>(a: seq<RawInput<D>>, b: seq<RawInput<D>>,
                                              trigger: RawInput<D> -> Option<(bool, string)>)
    ensures Responses(a + b, trigger) == Responses(a, trigger) + Responses(b, trigger)
    decreases |a|
  {
    if a == [] {
      assert a + b == b;
    } else {
      assert (a + b)[0] == a[0] && (a + b)[1..] == a[1..] + b;
      ResponsesAppend(a[1..], b, trigger);
    }
  }

  /** One call emits its response when it succeeds and nothing when it fails. */
  lemma ResponsesSingle<D>(x: RawInput<D>, trigger: RawInput<D> -> Option<(bool, string)>)
    ensures Responses([x], trigger) == if trigger(x).Some? then [trigger(x).value] else []
  {
    assert [x][1..] == [];
  }
}
