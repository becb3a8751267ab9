/**
 * The document store behind the confirmation handshake: the `users`,
 * `pending_requests` and `doctors/{doctorId}/patients/{patientId}`
 * collections, the three queries the handlers run on them, the writes they
 * perform, and the invariant those writes keep.
 */
module Store {
  import opened Wrappers
  import opened DocIds

  /** A `users/{uid}` document. */
  datatype User = User(name: Option<string>, email: Option<string>, createdAt: int)

  /** A `pending_requests/{id}` document; `token` is absent until the link is redeemed. */
  datatype Request = Request(
    doctorId: string,
    patientId: string,
    patientEmail: string,
    confirmed: bool,
    token: Option<string>,
    timestamp: int)

  /** A `doctors/{doctorId}/patients/{patientId}` document. */
  datatype PatientLink = PatientLink(patientId: string, confirmedAt: int)

  /** The path of a link document: (doctorId, patientId). */
  type LinkKey = (string, string)

  /** Where a request stands in the handshake. */
  datatype Phase = Pending | TokenIssued | Confirmed

  function PhaseOf(r: Request): Phase
  {
    if r.confirmed then Confirmed else if r.token.Some? then TokenIssued else Pending
  }

  function Rank(p: Phase): nat
  {
    match p
    case Pending => 0
    case TokenIssued => 1
    case Confirmed => 2
  }

  // ---- Queries ----

  /** `users where email == email`. */
  function UsersWithEmail(users: map<Id, User>, email: string): set<Id>
  {
    set u | u in users && users[u].email == Some(email)
  }

  /** `pending_requests where doctorId == d and patientId == p and confirmed == false`. */
  function PendingFor(requests: map<Id, Request>, doctorId: string, patientId: string): set<Id>
  {
    set id | id in requests && requests[id].doctorId == doctorId
                            && requests[id].patientId == patientId && !requests[id].confirmed
  }

  /** `pending_requests where token == token`. */
  function WithToken(requests: map<Id, Request>, token: string): set<Id>
  {
    set id | id in requests && requests[id].token == Some(token)
  }

  /** A freshly generated token: non-empty and held by no request. */
  predicate FreshToken(requests: map<Id, Request>, token: string)
  {
    token != "" && forall id :: id in requests ==> requests[id].token != Some(token)
  }

  // ---- Writes ----

  /** `pending_requests.add(r)` under the new document id `id`. */
  function AddRequest(requests: map<Id, Request>, id: Id, r: Request): map<Id, Request>
    requires id !in requests
  {
    requests[id := r]
  }

  /** `pending_requests.doc(id).update({token})`. */
  function SetToken(requests: map<Id, Request>, id: Id, token: string): map<Id, Request>
    requires id in requests
  {
    requests[id := requests[id].(token := Some(token))]
  }

  /** `updateDoc(ref, {confirmed: true})`. */
  function MarkConfirmed(requests: map<Id, Request>, id: Id): map<Id, Request>
    requires id in requests
  {
    requests[id := requests[id].(confirmed := true)]
  }

  /** Adding inserts exactly one document and touches no other. */
  lemma AddRequestInserts(requests: map<Id, Request>, id: Id, r: Request)
    requires id !in requests
    ensures var m := AddRequest(requests, id, r);
      && m.Keys == requests.Keys + {id} && |m| == |requests| + 1
      && m[id] == r && forall k :: k in requests ==> m[k] == requests[k]
  {
  }

  /** Issuing a token changes only the `token` field of that one document. */
  lemma SetTokenChangesOnlyToken(requests: map<Id, Request>, id: Id, token: string)
    requires id in requests
    ensures var m := SetToken(requests, id, token);
      && m.Keys == requests.Keys
      && m[id].token == Some(token)
      && m[id].doctorId == requests[id].doctorId && m[id].patientId == requests[id].patientId
      && m[id].patientEmail == requests[id].patientEmail && m[id].timestamp == requests[id].timestamp
      && m[id].confirmed == requests[id].confirmed
      && forall k :: k in requests && k != id ==> m[k] == requests[k]
  {
  }

  /** Confirming changes only the `confirmed` field of that one document. */
  lemma MarkConfirmedChangesOnlyConfirmed(requests: map<Id, Request>, id: Id)
    requires id in requests
    ensures var m := MarkConfirmed(requests, id);
      && m.Keys == requests.Keys
      && m[id].confirmed
      && m[id].doctorId == requests[id].doctorId && m[id].patientId == requests[id].patientId
      && m[id].patientEmail == requests[id].patientEmail && m[id].timestamp == requests[id].timestamp
      && m[id].token == requests[id].token
      && forall k :: k in requests && k != id ==> m[k] == requests[k]
  {
  }

  // ---- Invariant and progress ----

  /** A token identifies at most one request. */
  ghost predicate TokensUnique(requests: map<Id, Request>)
  {
    forall i, j :: i in requests && j in requests && i != j && requests[i].token.Some?
      ==> requests[i].token != requests[j].token
  }

  /** Only a request reached through its token is ever confirmed. */
  ghost predicate ConfirmedHaveTokens(requests: map<Id, Request>)
  {
    forall i :: i in requests && requests[i].confirmed ==> requests[i].token.Some?
  }

  /** Every confirmed request has its doctor-patient link. */
  ghost predicate ConfirmedLinked(requests: map<Id, Request>, links: map<LinkKey, PatientLink>)
  {
    forall i :: i in requests && requests[i].confirmed ==> (requests[i].doctorId, requests[i].patientId) in links
  }

  /**
   * Every request that existed still exists, holds the same doctor, patient,
   * e-mail and creation time, and has only moved forward in the handshake.
   */
  ghost predicate Advanced(before: map<Id, Request>, after: map<Id, Request>)
  {
    forall i :: i in before ==>
      && i in after
      && after[i].doctorId == before[i].doctorId && after[i].patientId == before[i].patientId
      && after[i].patientEmail == before[i].patientEmail && after[i].timestamp == before[i].timestamp
      && Rank(PhaseOf(before[i])) <= Rank(PhaseOf(after[i]))
  }

  // ---- What the writes do to the queries ----

  /** A new request joins the pending query of its own pair and no other; duplicates are not refused. */
  lemma AddRequestPending(requests: map<Id, Request>, id: Id, r: Request, doctorId: string, patientId: string)
    requires id !in requests
    ensures PendingFor(AddRequest(requests, id, r), doctorId, patientId)
         == PendingFor(requests, doctorId, patientId)
            + (if r.doctorId == doctorId && r.patientId == patientId && !r.confirmed then {id} else {})
  {
  }

  /** Adding a request without a token keeps every token query and the invariant. */
  lemma AddRequestKeeps(requests: map<Id, Request>, links: map<LinkKey, PatientLink>, id: Id, r: Request)
    requires id !in requests && r.token == None && !r.confirmed
    ensures forall t :: WithToken(AddRequest(requests, id, r), t) == WithToken(requests, t)
    ensures TokensUnique(requests) ==> TokensUnique(AddRequest(requests, id, r))
    ensures ConfirmedHaveTokens(requests) ==> ConfirmedHaveTokens(AddRequest(requests, id, r))
    ensures ConfirmedLinked(requests, links) ==> ConfirmedLinked(AddRequest(requests, id, r), links)
    ensures Advanced(requests, AddRequest(requests, id, r))
  {
  }

  /** Issuing a token leaves the pending query as it was: the request can be redeemed again. */
  lemma SetTokenPending(requests: map<Id, Request>, id: Id, token: string, doctorId: string, patientId: string)
    requires id in requests
    ensures PendingFor(SetToken(requests, id, token), doctorId, patientId) == PendingFor(requests, doctorId, patientId)
  {
  }

  /**
   * A fresh token finds exactly the request it was issued to, and the token
   * that request held before finds nothing any more.
   */
  lemma SetTokenLookup(requests: map<Id, Request>, id: Id, token: string)
    requires id in requests && FreshToken(requests, token)
    ensures WithToken(SetToken(requests, id, token), token) == {id}
    ensures forall t :: t != token ==> WithToken(SetToken(requests, id, token), t) == WithToken(requests, t) - {id}
  {
  }

  /** Issuing a fresh token keeps the invariant and only moves the request forward. */
  lemma SetTokenKeeps(requests: map<Id, Request>, links: map<LinkKey, PatientLink>, id: Id, token: string)
    requires id in requests && FreshToken(requests, token)
    ensures TokensUnique(requests) ==> TokensUnique(SetToken(requests, id, token))
    ensures ConfirmedHaveTokens(requests) ==> ConfirmedHaveTokens(SetToken(requests, id, token))
    ensures ConfirmedLinked(requests, links) ==> ConfirmedLinked(SetToken(requests, id, token), links)
    ensures Advanced(requests, SetToken(requests, id, token))
  {
  }

  /** Redeeming the same request twice: only the second token still finds it. */
  lemma {:induction false} ReissuedToken(requests: map<Id, Request>, id: Id, first: string, second: string)
    requires id in requests && FreshToken(requests, first)
    requires FreshToken(SetToken(requests, id, first), second)
    ensures SetToken(SetToken(requests, id, first), id, second) == SetToken(requests, id, second)
    ensures WithToken(SetToken(SetToken(requests, id, first), id, second), first) == {}
    ensures WithToken(SetToken(SetToken(requests, id, first), id, second), second) == {id}
  {
    var once := SetToken(requests, id, first);
    SetTokenLookup(requests, id, first);
    SetTokenLookup(once, id, second);
    assert first != second;
  }

  /** Confirming a request removes it, and only it, from its pair's pending query. */
  lemma MarkConfirmedPending(requests: map<Id, Request>, id: Id, doctorId: string, patientId: string)
    requires id in requests
    ensures PendingFor(MarkConfirmed(requests, id), doctorId, patientId) == PendingFor(requests, doctorId, patientId) - {id}
  {
  }

  /** The token is not cleared on confirmation: every token query is unchanged. */
  lemma MarkConfirmedTokens(requests: map<Id, Request>, id: Id, token: string)
    requires id in requests
    ensures WithToken(MarkConfirmed(requests, id), token) == WithToken(requests, token)
  {
  }

  /**
   * Writing the link of a request that holds a token and then confirming it
   * keeps the invariant and only moves requests forward.
   */
  lemma ConfirmKeeps(requests: map<Id, Request>, links: map<LinkKey, PatientLink>, id: Id, link: PatientLink)
    requires id in requests && requests[id].token.Some?
    ensures var key := (requests[id].doctorId, requests[id].patientId);
      && (TokensUnique(requests) ==> TokensUnique(MarkConfirmed(requests, id)))
      && (ConfirmedHaveTokens(requests) ==> ConfirmedHaveTokens(MarkConfirmed(requests, id)))
      && (ConfirmedLinked(requests, links) ==> ConfirmedLinked(MarkConfirmed(requests, id), links[key := link]))
      && Advanced(requests, MarkConfirmed(requests, id))
  {
  }

  /**
   * Under the invariant a token finds at most one request, so the first
   * document of the token query is the only one: the request the token was
   * issued to.
   */
  lemma TokenFindsOne(requests: map<Id, Request>, token: string)
    requires TokensUnique(requests)
    ensures |WithToken(requests, token)| <= 1
    ensures WithToken(requests, token) != {} ==> WithToken(requests, token) == {Least(WithToken(requests, token))}
  {
    var found := WithToken(requests, token);
    if found != {} {
      var id := Least(found);
      forall j | j in found
        ensures j == id
      {
        assert requests[j].token == requests[id].token;
      }
      assert found == {id};
    }
  }

  /** The store: its three collections, updated in place by the handlers. */
  class Database {
    var users: map<Id, User>
    var requests: map<Id, Request>
    var links: map<LinkKey, PatientLink>

    ghost predicate Valid()
      reads this
    {
      TokensUnique(requests) && ConfirmedHaveTokens(requests) && ConfirmedLinked(requests, links)
    }

    constructor ()
      ensures users == map[] && requests == map[] && links == map[]
      ensures Valid()
    {
      users, requests, links := map[], map[], map[];
    }
  }
}
