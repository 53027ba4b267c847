/** The report-project screen pairs the signed-in user's email with the project's
    API URL, re-emitting the pair whenever either changes. */
module ReportProject {
  import opened Streams

  const DefaultEmail: string := "email@email.com"

  datatype User = User(id: int, email: Option<string>)

  /** A project, reduced to `urls().api()?.project()`. */
  datatype Project = Project(id: int, apiProjectUrl: Option<string>)

  /** The inputs the screen sees, in arrival order: a configured project, or a new
      value of the current user (`None` when signed out). */
  datatype Event = Configured(project: Project) | UserChanged(user: Option<User>)

  /** The email a user contributes: none for a signed-out user, the default for a
      user without an email. */
  function EmailOf(user: Option<User>): (e: Option<string>)
    ensures e.None? <==> user.None?
    ensures user.Some? && user.value.email.Some? ==> e == user.value.email
    ensures user.Some? && user.value.email.None? ==> e == Some(DefaultEmail)
  {
    match user
    case None => None
    case Some(u) => Some(u.email.GetOr(DefaultEmail))
  }

  /** The latest value held by `userEmail`. */
  function LatestEmail(events: seq<Event>): (e: Option<string>)
  {
    if events == [] then None
    else
      var last := events[|events| - 1];
      if last.UserChanged? && last.user.Some? then EmailOf(last.user)
      else LatestEmail(events[..|events| - 1])
  }

  /** The latest project URL. */
  function LatestUrl(events: seq<Event>): (url: Option<string>)
  {
    if events == [] then None
    else
      var last := events[|events| - 1];
      if last.Configured? && last.project.apiProjectUrl.Some? then last.project.apiProjectUrl
      else LatestUrl(events[..|events| - 1])
  }

  /** A project without an API URL maps to null, which RxJava 2 refuses: the URL
      stream terminates with a NullPointerException, and with it the pairing. */
  function UrlStreamEnded(events: seq<Event>): (b: bool)
  {
    exists i :: 0 <= i < |events| && events[i].Configured? && events[i].project.apiProjectUrl.None?
  }

  /** An event that gives one of the two streams a new value. */
  predicate Feeds(ev: Event) {
    (ev.Configured? && ev.project.apiProjectUrl.Some?) || (ev.UserChanged? && ev.user.Some?)
  }

  /** The pairs `emailAndProject` has emitted after `events`: the combination of
      the latest values, each time one of them changes once both exist. */
  function Emitted(events: seq<Event>): (r: seq<(string, string)>)
    ensures |r| <= |events|
  {
    if events == [] then []
    else
      var before := Emitted(events[..|events| - 1]);
      var email, url := LatestEmail(events), LatestUrl(events);
      if Feeds(events[|events| - 1]) && !UrlStreamEnded(events) && email.Some? && url.Some? then
        before + [(email.value, url.value)]
      else before
  }

  /** Nothing is ever paired until both an email and a URL have been seen. */
  lemma {:induction false} NoPairUntilBoth(events: seq<Event>)
    requires LatestEmail(events).None? || LatestUrl(events).None?
    ensures Emitted(events) == []
    decreases |events|
  {
    if events != [] {
      var init := events[..|events| - 1];
      var last := events[|events| - 1];
      assert LatestEmail(init).None? || LatestUrl(init).None? by {
        if !(last.UserChanged? && last.user.Some?) && !(last.Configured? && last.project.apiProjectUrl.Some?) {
        } else if last.UserChanged? {
          assert LatestUrl(events) == LatestUrl(init);
        } else {
          assert LatestEmail(events) == LatestEmail(init);
        }
      }
      NoPairUntilBoth(init);
    }
  }

  /** Every pair emitted is the latest email together with the latest URL. */
  lemma LastPairIsLatest(events: seq<Event>)
    requires events != [] && Feeds(events[|events| - 1]) && !UrlStreamEnded(events)
    requires LatestEmail(events).Some? && LatestUrl(events).Some?
    ensures Emitted(events) != []
    ensures Emitted(events)[|Emitted(events)| - 1] == (LatestEmail(events).value, LatestUrl(events).value)
  {
  }

  /** A signed-out user changes neither the email nor the pairs. */
  lemma NullUserIgnored(events: seq<Event>)
    ensures LatestEmail(events + [UserChanged(None)]) == LatestEmail(events)
    ensures LatestUrl(events + [UserChanged(None)]) == LatestUrl(events)
    ensures Emitted(events + [UserChanged(None)]) == Emitted(events)
  {
    assert (events + [UserChanged(None)])[..|events|] == events;
  }

  /** Once a project without a URL has been configured, its stream has failed and
      no pair is emitted again. (The subscription has no error handler, so the
      failure reaches RxJava's global error handler; only the end of the pairs is
      modelled here.) */
  lemma {:induction false} FailureIsFinal(events: seq<Event>, more: seq<Event>)
    requires UrlStreamEnded(events)
    ensures Emitted(events + more) == Emitted(events)
    decreases |more|
  {
    if more != [] {
      var init := more[..|more| - 1];
      var all := events + more;
      assert all[..|all| - 1] == events + init;
      FailureIsFinal(events, init);
      var i :| 0 <= i < |events| && events[i].Configured? && events[i].project.apiProjectUrl.None?;
      assert all[i] == events[i];
      assert UrlStreamEnded(all);
      assert Emitted(all) == Emitted(all[..|all| - 1]);
    } else {
      assert events + more == events;
    }
  }

  /** What a new current-user value does: the email follows a signed-in user, the
      URL and the stream state stay, and a pair is emitted when a URL is known. */
  lemma UserStep(events: seq<Event>, user: Option<User>)
    ensures var evs := events + [UserChanged(user)];
            && LatestEmail(evs) == (if user.Some? then EmailOf(user) else LatestEmail(events))
            && LatestUrl(evs) == LatestUrl(events)
            && UrlStreamEnded(evs) == UrlStreamEnded(events)
            && Emitted(evs) == Emitted(events)
                 + (if user.Some? && !UrlStreamEnded(events) && LatestUrl(events).Some?
                    then [(EmailOf(user).value, LatestUrl(events).value)] else [])
  {
    var evs := events + [UserChanged(user)];
    assert evs[..|events|] == events;
    assert forall i :: 0 <= i < |events| ==> evs[i] == events[i];
  }

  /** What a configured project does: a URL updates the latest URL and is paired
      with a known email; a missing URL ends the stream. */
  lemma ConfigureStep(events: seq<Event>, project: Project)
    ensures var evs := events + [Configured(project)];
            && LatestEmail(evs) == LatestEmail(events)
            && LatestUrl(evs) == (if project.apiProjectUrl.Some? then project.apiProjectUrl else LatestUrl(events))
            && UrlStreamEnded(evs) == (UrlStreamEnded(events) || project.apiProjectUrl.None?)
            && Emitted(evs) == Emitted(events)
                 + (if project.apiProjectUrl.Some? && !UrlStreamEnded(events) && LatestEmail(events).Some?
                    then [(LatestEmail(events).value, project.apiProjectUrl.value)] else [])
  {
    var evs := events + [Configured(project)];
    assert evs[..|events|] == events;
    assert forall i :: 0 <= i < |events| ==> evs[i] == events[i];
    assert evs[|events|] == Configured(project);
  }

  class ReportProjectViewModel {
    /** The latest values of `userEmail` and of the project URL. */
    var userEmail: Option<string>
    var projectUrl: Option<string>
    /** Whether the URL stream has terminated with an error. */
    var failed: bool
    /** Emission history of `emailAndProject()`. */
    var emailAndProject: seq<(string, string)>

    /** The inputs received so far. */
    ghost var events: seq<Event>

    ghost predicate Valid()
      reads this
    {
      && userEmail == LatestEmail(events)
      && projectUrl == LatestUrl(events)
      && failed == UrlStreamEnded(events)
      && emailAndProject == Emitted(events)
    }

    constructor ()
      ensures Valid()
      ensures events == [] && emailAndProject == []
    {
      userEmail, projectUrl, failed, emailAndProject := None, None, false, [];
      events := [];
    }

    /** A new value of the current user: a signed-out user is filtered out; a user
        contributes their email, or the default one. */
    method CurrentUserChanged(user: Option<User>)
      requires Valid()
      modifies this
      ensures Valid()
      ensures events == old(events) + [UserChanged(user)]
      ensures user.None? ==> userEmail == old(userEmail) && emailAndProject == old(emailAndProject)
      ensures user.Some? ==> userEmail == EmailOf(user)
      ensures user.Some? && !failed && projectUrl.Some? ==>
                emailAndProject == old(emailAndProject) + [(userEmail.value, projectUrl.value)]
      ensures user.Some? && (failed || projectUrl.None?) ==> emailAndProject == old(emailAndProject)
    {
      UserStep(events, user);
      if user.Some? {
        userEmail := EmailOf(user);
        if !failed && projectUrl.Some? {
          emailAndProject := emailAndProject + [(userEmail.value, projectUrl.value)];
        }
      }
      events := events + [UserChanged(user)];
    }

    /** `configureWith(project)`: a project with an API URL updates the URL and,
        once an email is known, emits the pair; one without makes the URL stream
        fail with a NullPointerException, which ends the pairing. */
    method ConfigureWith(project: Project)
      requires Valid()
      modifies this
      ensures Valid()
      ensures events == old(events) + [Configured(project)]
      ensures userEmail == old(userEmail)
      ensures old(failed) ==> emailAndProject == old(emailAndProject)
      ensures project.apiProjectUrl.None? ==> failed && emailAndProject == old(emailAndProject)
      ensures project.apiProjectUrl.Some? ==> projectUrl == project.apiProjectUrl
      ensures project.apiProjectUrl.Some? && !old(failed) && userEmail.Some? ==>
                emailAndProject == old(emailAndProject) + [(userEmail.value, project.apiProjectUrl.value)]
      ensures project.apiProjectUrl.Some? && userEmail.None? ==> emailAndProject == old(emailAndProject)
    {
      ConfigureStep(events, project);
      if project.apiProjectUrl.None? {
        failed := true;
      } else {
        projectUrl := project.apiProjectUrl;
        if !failed && userEmail.Some? {
          emailAndProject := emailAndProject + [(userEmail.value, projectUrl.value)];
        }
      }
      events := events + [Configured(project)];
    }
  }
}
