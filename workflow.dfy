/**
 * The whole handshake, across the two server handlers and the login page:
 * the doctor generates the link, the patient follows it, signs in with the
 * token of the redirect, and the pair ends linked with nothing left pending.
 */
module Workflow {
  import opened Wrappers
  import opened DocIds
  import opened Store
  import opened Urls
  import opened Functions
  import opened UserLogin

  /** Generating for a pair with no open invitation leaves exactly the new request pending for it. */
  lemma GenerateForNewPair(users: map<Id, User>, requests: map<Id, Request>, doctorId: string, email: string,
                           newId: Id, sentAt: int)
    requires newId !in requests
    requires doctorId != "" && email != "" && UsersWithEmail(users, email) != {}
    requires PendingFor(requests, doctorId, Least(UsersWithEmail(users, email))) == {}
    ensures var patientId := Least(UsersWithEmail(users, email));
      var generated := Generate(users, requests, Some(doctorId), Some(email), newId, sentAt);
      && generated.0 == Generated(ConfirmationLink(doctorId, patientId), InvitationEmail(ConfirmationLink(doctorId, patientId)))
      && generated.1 == AddRequest(requests, newId, Request(doctorId, patientId, email, false, None, sentAt))
      && PendingFor(generated.1, doctorId, patientId) == {newId}
  {
    var patientId := Least(UsersWithEmail(users, email));
    AddRequestPending(requests, newId, Request(doctorId, patientId, email, false, None, sentAt), doctorId, patientId);
  }

  /** Redeeming the link of a pair with one pending request issues the token to that request. */
  lemma RedeemOnlyPending(requests: map<Id, Request>, doctorId: string, patientId: string, id: Id, token: string)
    requires doctorId != "" && patientId != ""
    requires PendingFor(requests, doctorId, patientId) == {id} && FreshToken(requests, token)
    ensures var redeemed := Redeem(requests, Some(doctorId), Some(patientId), token);
      && redeemed.0 == Redirect(LoginRedirect(token))
      && redeemed.1 == SetToken(requests, id, token)
      && WithToken(redeemed.1, token) == {id}
      && PendingFor(redeemed.1, doctorId, patientId) == {id}
  {
    LeastSingleton(id);
    SetTokenLookup(requests, id, token);
    SetTokenPending(requests, id, token, doctorId, patientId);
  }

  /** Confirming the token of a pair's only pending request links the pair and leaves nothing pending. */
  lemma ConfirmOnlyPending(requests: map<Id, Request>, links: map<LinkKey, PatientLink>,
                           doctorId: string, patientId: string, id: Id, token: string, confirmedAt: int)
    requires WithToken(requests, token) == {id} && PendingFor(requests, doctorId, patientId) == {id}
    ensures var confirmed := ConfirmByToken(requests, links, token, confirmedAt);
      && confirmed.2 == NavigateTo(SuccessPage)
      && confirmed.0 == MarkConfirmed(requests, id)
      && confirmed.1 == links[(doctorId, patientId) := PatientLink(patientId, confirmedAt)]
      && PendingFor(confirmed.0, doctorId, patientId) == {}
  {
    LeastSingleton(id);
    MarkConfirmedPending(requests, id, doctorId, patientId);
  }

  /**
   * For a pair with no open invitation: generate, read the ids back from the
   * link, redeem, read the token back from the redirect, confirm. The new
   * request ends confirmed with the issued token, the link document exists,
   * no unconfirmed request is left for the pair, and redeeming the same link
   * again is refused.
   */
  lemma {:induction false} Handshake(users: map<Id, User>, requests: map<Id, Request>,
                                     links: map<LinkKey, PatientLink>, doctorId: string, email: string,
                                     newId: Id, sentAt: int, token: string, confirmedAt: int, retryToken: string)
    requires newId !in requests
    requires doctorId != "" && email != "" && UsersWithEmail(users, email) != {}
    requires UrlSafe(doctorId) && UrlSafe(token)
    requires Least(UsersWithEmail(users, email)) != "" && UrlSafe(Least(UsersWithEmail(users, email)))
    requires PendingFor(requests, doctorId, Least(UsersWithEmail(users, email))) == {}
    requires FreshToken(requests, token) && FreshToken(requests, retryToken) && retryToken != token
    ensures
      var patientId := Least(UsersWithEmail(users, email));
      var generated := Generate(users, requests, Some(doctorId), Some(email), newId, sentAt);
      var query := ConfirmationQuery(doctorId, patientId);
      && generated.0.Generated?
      && generated.0.confirmationLink == ConfirmEndpoint + "?" + query
      && FreshToken(generated.1, token)
      && var redeemed := Redeem(generated.1, QueryParam(query, "doctorId"), QueryParam(query, "patientId"), token);
      && redeemed.0 == Redirect(UserLoginPage + "?" + LoginQuery(token))
      && QueryParam(LoginQuery(token), "token") == Some(token)
      && var confirmed := ConfirmByToken(redeemed.1, links, token, confirmedAt);
      && confirmed.2 == NavigateTo(SuccessPage)
      && newId in confirmed.0 && confirmed.0[newId].confirmed && confirmed.0[newId].token == Some(token)
      && confirmed.1 == links[(doctorId, patientId) := PatientLink(patientId, confirmedAt)]
      && PendingFor(confirmed.0, doctorId, patientId) == {}
      && FreshToken(confirmed.0, retryToken)
      && Redeem(confirmed.0, Some(doctorId), Some(patientId), retryToken).0 == Failure(400, NotPending)
  {
    var patientId := Least(UsersWithEmail(users, email));
    GenerateForNewPair(users, requests, doctorId, email, newId, sentAt);
    var generated := Generate(users, requests, Some(doctorId), Some(email), newId, sentAt);
    assert FreshToken(generated.1, token);
    ConfirmationLinkParams(doctorId, patientId);
    RedeemOnlyPending(generated.1, doctorId, patientId, newId, token);
    var redeemed := Redeem(generated.1, Some(doctorId), Some(patientId), token);
    LoginRedirectToken(token);
    ConfirmOnlyPending(redeemed.1, links, doctorId, patientId, newId, token, confirmedAt);
    var confirmed := ConfirmByToken(redeemed.1, links, token, confirmedAt);
    assert FreshToken(confirmed.0, retryToken);
  }
}
