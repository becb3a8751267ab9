/**
 * The patient-facing login page: it signs the patient in, creates the user
 * document on a first Google sign-in, and, when the page was reached with a
 * token, confirms the request holding that token by writing the
 * doctor-patient link and marking the request confirmed.
 */
module UserLogin {
  import opened Wrappers
  import opened DocIds
  import opened Store

  datatype Navigation = Stay | NavigateTo(path: string)

  /** The identity provider's answer to a sign-in attempt. */
  datatype AuthResult =
    | SignedIn(uid: Id, displayName: Option<string>, email: Option<string>)
    | AuthFailed(message: string)

  /** Where the page goes after an attempt, and the error text it then shows. */
  datatype LoginOutcome = LoginOutcome(navigation: Navigation, error: string)

  const SuccessPage := "/success"

  /**
   * `confirmPatientRequest(token)` on the client: the `pending_requests` and
   * link collections afterwards, and where the page goes; `now` is the
   * confirmation time.
   */
  ghost function ConfirmByToken(requests: map<Id, Request>, links: map<LinkKey, PatientLink>,
                                token: string, now: int)
    : (map<Id, Request>, map<LinkKey, PatientLink>, Navigation)
  {
    var found := WithToken(requests, token);
    if found == {} then
      (requests, links, Stay)
    else
      var id := Least(found);
      var r := requests[id];
      (MarkConfirmed(requests, id), links[(r.doctorId, r.patientId) := PatientLink(r.patientId, now)],
       NavigateTo(SuccessPage))
  }

  /** A token no request holds changes nothing and the page stays. */
  lemma ConfirmUnknownToken(requests: map<Id, Request>, links: map<LinkKey, PatientLink>, token: string, now: int)
    ensures var out := ConfirmByToken(requests, links, token, now);
      && (out.2 == Stay <==> WithToken(requests, token) == {})
      && (out.2 == Stay ==> out.0 == requests && out.1 == links)
  {
  }

  /**
   * A token that finds a request: the link of that request's pair is
   * (re)written with the confirmation time, the request is confirmed with its
   * other fields unchanged, it leaves its pair's pending query, the token
   * still finds it, and the page goes to the success page.
   */
  lemma ConfirmKnownToken(requests: map<Id, Request>, links: map<LinkKey, PatientLink>, token: string, now: int)
    requires WithToken(requests, token) != {}
    ensures var out := ConfirmByToken(requests, links, token, now);
      var id := Least(WithToken(requests, token));
      var r := requests[id];
      && out.2 == NavigateTo(SuccessPage)
      && out.1 == links[(r.doctorId, r.patientId) := PatientLink(r.patientId, now)]
      && out.0.Keys == requests.Keys && out.0[id] == r.(confirmed := true)
      && (forall k :: k in requests && k != id ==> out.0[k] == requests[k])
      && PendingFor(out.0, r.doctorId, r.patientId) == PendingFor(requests, r.doctorId, r.patientId) - {id}
      && WithToken(out.0, token) == WithToken(requests, token)
  {
    var id := Least(WithToken(requests, token));
    var r := requests[id];
    MarkConfirmedPending(requests, id, r.doctorId, r.patientId);
    MarkConfirmedTokens(requests, id, token);
  }

  method ConfirmPatientRequest(db: Database, token: string, now: int) returns (nav: Navigation)
    modifies db
    ensures (db.requests, db.links, nav) == ConfirmByToken(old(db.requests), old(db.links), token, now)
    ensures db.users == old(db.users)
    ensures Advanced(old(db.requests), db.requests)
    ensures old(db.Valid()) ==> db.Valid()
  {
    var found := WithToken(db.requests, token);
    if found == {} {
      return Stay;
    }
    var id := First(found);
    var r := db.requests[id];
    ConfirmKeeps(db.requests, db.links, id, PatientLink(r.patientId, now));
    db.links := db.links[(r.doctorId, r.patientId) := PatientLink(r.patientId, now)];
    db.requests := MarkConfirmed(db.requests, id);
    nav := NavigateTo(SuccessPage);
  }

  /** What both sign-in paths do once signed in: confirm with the page's token, or go to the success page. */
  ghost predicate FollowedToken(requests: map<Id, Request>, links: map<LinkKey, PatientLink>,
                                requests': map<Id, Request>, links': map<LinkKey, PatientLink>,
                                confirmationToken: Option<string>, now: int, nav: Navigation)
  {
    if Present(confirmationToken) then
      (requests', links', nav) == ConfirmByToken(requests, links, confirmationToken.value, now)
    else
      requests' == requests && links' == links && nav == NavigateTo(SuccessPage)
  }

  /** `handleLogin`: e-mail and password sign-in; the page's error is cleared first. */
  method HandleLogin(db: Database, auth: AuthResult, confirmationToken: Option<string>, now: int)
    returns (outcome: LoginOutcome)
    modifies db
    ensures db.users == old(db.users)
    ensures auth.AuthFailed? ==>
      outcome == LoginOutcome(Stay, auth.message) && db.requests == old(db.requests) && db.links == old(db.links)
    ensures auth.SignedIn? ==> outcome.error == ""
    ensures auth.SignedIn? ==>
      FollowedToken(old(db.requests), old(db.links), db.requests, db.links, confirmationToken, now, outcome.navigation)
    ensures Advanced(old(db.requests), db.requests)
    ensures old(db.Valid()) ==> db.Valid()
  {
    if auth.AuthFailed? {
      return LoginOutcome(Stay, auth.message);
    }
    var nav := NavigateTo(SuccessPage);
    if Present(confirmationToken) {
      nav := ConfirmPatientRequest(db, confirmationToken.value, now);
    }
    outcome := LoginOutcome(nav, "");
  }

  /**
   * `handleGoogleSignIn`: popup sign-in; a user document is written only
   * when none exists for the uid. The page's error is left as it was on success.
   */
  method HandleGoogleSignIn(db: Database, auth: AuthResult, confirmationToken: Option<string>, now: int,
                            previousError: string) returns (outcome: LoginOutcome)
    modifies db
    ensures auth.AuthFailed? ==>
      && outcome == LoginOutcome(Stay, auth.message)
      && db.users == old(db.users) && db.requests == old(db.requests) && db.links == old(db.links)
    ensures auth.SignedIn? && auth.uid in old(db.users) ==> db.users == old(db.users)
    ensures auth.SignedIn? && auth.uid !in old(db.users) ==>
      db.users == old(db.users)[auth.uid := User(auth.displayName, auth.email, now)]
    ensures auth.SignedIn? ==> outcome.error == previousError
    ensures auth.SignedIn? ==>
      FollowedToken(old(db.requests), old(db.links), db.requests, db.links, confirmationToken, now, outcome.navigation)
    ensures Advanced(old(db.requests), db.requests)
    ensures old(db.Valid()) ==> db.Valid()
  {
    if auth.AuthFailed? {
      return LoginOutcome(Stay, auth.message);
    }
    if auth.uid !in db.users {
      db.users := db.users[auth.uid := User(auth.displayName, auth.email, now)];
    }
    var nav := NavigateTo(SuccessPage);
    if Present(confirmationToken) {
      nav := ConfirmPatientRequest(db, confirmationToken.value, now);
    }
    outcome := LoginOutcome(nav, previousError);
  }

  /**
   * Confirming with the same token a second time still finds the request:
   * the requests end as after the first run and the link is rewritten with
   * the new confirmation time only.
   */
  lemma {:induction false} ConfirmTwice(requests: map<Id, Request>, links: map<LinkKey, PatientLink>,
                                        token: string, first: int, second: int)
    ensures var once := ConfirmByToken(requests, links, token, first);
      var twice := ConfirmByToken(once.0, once.1, token, second);
      && twice.0 == once.0 && twice.2 == once.2
      && (once.2 == Stay ==> twice.1 == once.1)
      && (once.2 != Stay ==>
            var r := requests[Least(WithToken(requests, token))];
            twice.1 == once.1[(r.doctorId, r.patientId) := PatientLink(r.patientId, second)])
  {
    var once := ConfirmByToken(requests, links, token, first);
    ConfirmUnknownToken(requests, links, token, first);
    if WithToken(requests, token) != {} {
      ConfirmKnownToken(requests, links, token, first);
      var id := Least(WithToken(requests, token));
      assert MarkConfirmed(once.0, id) == once.0;
    }
  }
}
