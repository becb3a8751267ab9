/**
 * The two HTTP handlers of the confirmation handshake: generating the
 * confirmation link for a doctor and a patient e-mail, and redeeming that
 * link for a one-time token. Each is a specification function on the store's
 * collections and a method that performs the same steps on a `Database`.
 */
module Functions {
  import opened Wrappers
  import opened DocIds
  import opened Store
  import opened Urls

  /** The e-mail handed back to the doctor: fixed text around the confirmation link. */
  datatype EmailTemplate = InvitationEmail(link: string)
  {
    function Subject(): string
    {
      "Confirm Doctor Access to Your TicVision Data"
    }

    /** The body, with the link on its third line. */
    function Body(): string
    {
      "A doctor wants to add you as a patient on TicVision.\n"
      + "          Click the link below to confirm your access:\n"
      + "          " + link + "\n"
      + "\n"
      + "          If you did not request this, please ignore this email.\n"
      + "          "
    }
  }

  /** What a handler answers: an error status with its message, the generated link, or a redirect. */
  datatype Response =
    | Failure(status: int, message: string)
    | Generated(confirmationLink: string, emailTemplate: EmailTemplate)
    | Redirect(location: string)

  const MissingFields := "Missing doctorId or patientEmail."
  const PatientNotFound := "Patient not found."
  const InvalidLink := "Invalid confirmation link."
  const NotPending := "Request not found or already confirmed."

  // ---- generatePatientConfirmation ----

  /**
   * The answer to `POST generatePatientConfirmation {doctorId, patientEmail}`
   * and the `pending_requests` collection afterwards; `newId` is the id the
   * store gives the new document and `now` the server time.
   */
  ghost function Generate(users: map<Id, User>, requests: map<Id, Request>,
                          doctorId: Option<string>, patientEmail: Option<string>,
                          newId: Id, now: int): (Response, map<Id, Request>)
    requires newId !in requests
  {
    if !Present(doctorId) || !Present(patientEmail) then
      (Failure(400, MissingFields), requests)
    else
      var matches := UsersWithEmail(users, patientEmail.value);
      if matches == {} then
        (Failure(404, PatientNotFound), requests)
      else
        var patientId := Least(matches);
        var link := ConfirmationLink(doctorId.value, patientId);
        (Generated(link, InvitationEmail(link)),
         AddRequest(requests, newId, Request(doctorId.value, patientId, patientEmail.value, false, None, now)))
  }

  /**
   * Missing fields answer 400 and an unknown e-mail 404, both leaving the
   * collection as it was; otherwise the link is generated and a document added.
   */
  lemma GenerateErrors(users: map<Id, User>, requests: map<Id, Request>,
                       doctorId: Option<string>, patientEmail: Option<string>, newId: Id, now: int)
    requires newId !in requests
    ensures !Present(doctorId) || !Present(patientEmail) ==>
      Generate(users, requests, doctorId, patientEmail, newId, now) == (Failure(400, MissingFields), requests)
    ensures Present(doctorId) && Present(patientEmail) && UsersWithEmail(users, patientEmail.value) == {} ==>
      Generate(users, requests, doctorId, patientEmail, newId, now) == (Failure(404, PatientNotFound), requests)
    ensures Present(doctorId) && Present(patientEmail) && UsersWithEmail(users, patientEmail.value) != {} ==>
      var out := Generate(users, requests, doctorId, patientEmail, newId, now);
      out.0.Generated? && newId in out.1 && newId !in requests
  {
  }

  /**
   * On success exactly one unconfirmed, token-less request is added, for the
   * first user with that e-mail, and the link names the doctor and that user.
   */
  lemma GenerateSuccess(users: map<Id, User>, requests: map<Id, Request>,
                        doctorId: Option<string>, patientEmail: Option<string>, newId: Id, now: int)
    requires newId !in requests
    requires Generate(users, requests, doctorId, patientEmail, newId, now).0.Generated?
    ensures var out := Generate(users, requests, doctorId, patientEmail, newId, now);
      && Present(doctorId) && Present(patientEmail)
      && newId in out.1 && out.1.Keys == requests.Keys + {newId} && |out.1| == |requests| + 1
      && (forall k :: k in requests ==> out.1[k] == requests[k])
      && var r := out.1[newId];
      && r == Request(doctorId.value, r.patientId, patientEmail.value, false, None, now)
      && IsLeast(r.patientId, UsersWithEmail(users, patientEmail.value))
      && out.0.confirmationLink == ConfirmationLink(doctorId.value, r.patientId)
      && out.0.emailTemplate == InvitationEmail(out.0.confirmationLink)
  {
  }

  method GeneratePatientConfirmation(db: Database, doctorId: Option<string>, patientEmail: Option<string>,
                                     newId: Id, now: int) returns (res: Response)
    requires newId !in db.requests
    modifies db
    ensures (res, db.requests) == Generate(old(db.users), old(db.requests), doctorId, patientEmail, newId, now)
    ensures db.users == old(db.users) && db.links == old(db.links)
    ensures Advanced(old(db.requests), db.requests)
    ensures old(db.Valid()) ==> db.Valid()
  {
    if !Present(doctorId) || !Present(patientEmail) {
      return Failure(400, MissingFields);
    }
    var matches := UsersWithEmail(db.users, patientEmail.value);
    if matches == {} {
      return Failure(404, PatientNotFound);
    }
    var patientId := First(matches);
    var link := ConfirmationLink(doctorId.value, patientId);
    var request := Request(doctorId.value, patientId, patientEmail.value, false, None, now);
    AddRequestKeeps(db.requests, db.links, newId, request);
    db.requests := AddRequest(db.requests, newId, request);
    res := Generated(link, InvitationEmail(link));
  }

  // ---- confirmPatientRequest (server side) ----

  /**
   * The answer to `GET confirmPatientRequest?doctorId=&patientId=` and the
   * `pending_requests` collection afterwards; `freshToken` is the generated
   * uuid, which no request holds yet.
   */
  ghost function Redeem(requests: map<Id, Request>, doctorId: Option<string>, patientId: Option<string>,
                        freshToken: string): (Response, map<Id, Request>)
    requires FreshToken(requests, freshToken)
  {
    if !Present(doctorId) || !Present(patientId) then
      (Failure(400, InvalidLink), requests)
    else
      var pending := PendingFor(requests, doctorId.value, patientId.value);
      if pending == {} then
        (Failure(400, NotPending), requests)
      else
        var id := Least(pending);
        (Redirect(LoginRedirect(freshToken)), SetToken(requests, id, freshToken))
  }

  /**
   * Missing ids and a pair with no unconfirmed request answer 400 and leave
   * the collection as it was; otherwise the patient is redirected and a token issued.
   */
  lemma RedeemErrors(requests: map<Id, Request>, doctorId: Option<string>, patientId: Option<string>,
                     freshToken: string)
    requires FreshToken(requests, freshToken)
    ensures !Present(doctorId) || !Present(patientId) ==>
      Redeem(requests, doctorId, patientId, freshToken) == (Failure(400, InvalidLink), requests)
    ensures Present(doctorId) && Present(patientId) && PendingFor(requests, doctorId.value, patientId.value) == {} ==>
      Redeem(requests, doctorId, patientId, freshToken) == (Failure(400, NotPending), requests)
    ensures Present(doctorId) && Present(patientId) && PendingFor(requests, doctorId.value, patientId.value) != {} ==>
      var out := Redeem(requests, doctorId, patientId, freshToken);
      out.0.Redirect? && WithToken(out.1, freshToken) != WithToken(requests, freshToken)
  {
    if Present(doctorId) && Present(patientId) && PendingFor(requests, doctorId.value, patientId.value) != {} {
      var id := Least(PendingFor(requests, doctorId.value, patientId.value));
      SetTokenLookup(requests, id, freshToken);
      assert id !in WithToken(requests, freshToken);
    }
  }

  /**
   * On a match only the first unconfirmed request of the pair changes: it
   * holds the new token, which finds it and nothing else; the pair's pending
   * query is unchanged, and the redirect carries the token.
   */
  lemma RedeemSuccess(requests: map<Id, Request>, doctorId: Option<string>, patientId: Option<string>,
                      freshToken: string)
    requires FreshToken(requests, freshToken)
    requires Redeem(requests, doctorId, patientId, freshToken).0.Redirect?
    ensures var out := Redeem(requests, doctorId, patientId, freshToken);
      && Present(doctorId) && Present(patientId)
      && PendingFor(requests, doctorId.value, patientId.value) != {}
      && var id := Least(PendingFor(requests, doctorId.value, patientId.value));
      && out.0.location == UserLoginPage + "?" + LoginQuery(freshToken)
      && out.1 == SetToken(requests, id, freshToken)
      && WithToken(out.1, freshToken) == {id}
      && PendingFor(out.1, doctorId.value, patientId.value) == PendingFor(requests, doctorId.value, patientId.value)
  {
    var id := Least(PendingFor(requests, doctorId.value, patientId.value));
    SetTokenLookup(requests, id, freshToken);
    SetTokenPending(requests, id, freshToken, doctorId.value, patientId.value);
  }

  method ConfirmPatientRequest(db: Database, doctorId: Option<string>, patientId: Option<string>,
                               freshToken: string) returns (res: Response)
    requires FreshToken(db.requests, freshToken)
    modifies db
    ensures (res, db.requests) == Redeem(old(db.requests), doctorId, patientId, freshToken)
    ensures db.users == old(db.users) && db.links == old(db.links)
    ensures Advanced(old(db.requests), db.requests)
    ensures old(db.Valid()) ==> db.Valid()
  {
    if !Present(doctorId) || !Present(patientId) {
      return Failure(400, InvalidLink);
    }
    var pending := PendingFor(db.requests, doctorId.value, patientId.value);
    if pending == {} {
      return Failure(400, NotPending);
    }
    var id := First(pending);
    SetTokenKeeps(db.requests, db.links, id, freshToken);
    db.requests := SetToken(db.requests, id, freshToken);
    res := Redirect(LoginRedirect(freshToken));
  }

  // ---- Properties across calls ----

  /**
   * Redeeming the same link twice reaches the same request; only the second
   * token still finds it.
   */
  lemma {:induction false} RedeemTwice(requests: map<Id, Request>, doctorId: string, patientId: string,
                                       first: string, second: string)
    requires doctorId != "" && patientId != ""
    requires FreshToken(requests, first) && FreshToken(requests, second) && first != second
    requires PendingFor(requests, doctorId, patientId) != {}
    ensures var once := Redeem(requests, Some(doctorId), Some(patientId), first);
      FreshToken(once.1, second) &&
      var twice := Redeem(once.1, Some(doctorId), Some(patientId), second);
      var id := Least(PendingFor(requests, doctorId, patientId));
      && once.0 == Redirect(LoginRedirect(first)) && twice.0 == Redirect(LoginRedirect(second))
      && twice.1 == SetToken(requests, id, second)
      && WithToken(twice.1, first) == {}
      && WithToken(twice.1, second) == {id}
  {
    var id := Least(PendingFor(requests, doctorId, patientId));
    RedeemSuccess(requests, Some(doctorId), Some(patientId), first);
    var once := Redeem(requests, Some(doctorId), Some(patientId), first);
    assert FreshToken(once.1, second);
    RedeemSuccess(once.1, Some(doctorId), Some(patientId), second);
    ReissuedToken(requests, id, first, second);
  }
}
