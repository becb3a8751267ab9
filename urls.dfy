/**
 * The two links of the confirmation handshake and the reading of their query
 * parameters: the server reads `doctorId` and `patientId` of the confirmation
 * link, the login page reads `token` of the redirect.
 */
module Urls {
  import opened Wrappers
  import opened Text

  const ConfirmEndpoint: string := "https://us-central1-ticvision.cloudfunctions.net/confirmPatientRequest"
  const UserLoginPage: string := "http://localhost:3000/userlogin"

  /** The query of the confirmation link: the two ids and no token. */
  function ConfirmationQuery(doctorId: string, patientId: string): string
  {
    "doctorId=" + doctorId + "&patientId=" + patientId
  }

  /** The confirmation link mailed to the patient. */
  function ConfirmationLink(doctorId: string, patientId: string): string
  {
    ConfirmEndpoint + "?" + ConfirmationQuery(doctorId, patientId)
  }

  /** The query of the redirect to the login page. */
  function LoginQuery(token: string): string
  {
    "token=" + token
  }

  /** Where the server sends the patient once a token is issued. */
  function LoginRedirect(token: string): string
  {
    UserLoginPage + "?" + LoginQuery(token)
  }

  /**
   * The value of the first pair named `name`, as `params.get(name)` returns it:
   * a pair `name=value` gives `value`, a bare `name` without '=' gives "".
   */
  function FindParam(pairs: seq<string>, name: string): Option<string>
  {
    if |pairs| == 0 then None
    else if pairs[0] == name then Some("")
    else if |name| + 1 <= |pairs[0]| && pairs[0][..|name| + 1] == name + "=" then Some(pairs[0][|name| + 1..])
    else FindParam(pairs[1..], name)
  }

  /** The parameter `name` of a query string (what follows '?'), read without percent-decoding. */
  function QueryParam(query: string, name: string): Option<string>
  {
    FindParam(Split(query, '&'), name)
  }

  /**
   * A value both query readers return unchanged: no separator, fragment or
   * escape character, and no ']', at whose "]=" the server's parser splits a pair.
   */
  predicate UrlSafe(s: string)
  {
    forall i :: 0 <= i < |s| ==> s[i] != '&' && s[i] != '#' && s[i] != '%' && s[i] != '+' && s[i] != ']'
  }

  /** A bare name is that parameter with the empty value, and it hides any later pair of that name. */
  lemma FindParamBare(pairs: seq<string>, name: string)
    requires |pairs| > 0 && pairs[0] == name
    ensures FindParam(pairs, name) == Some("")
    ensures forall v :: FindParam(pairs + [name + "=" + v], name) == Some("")
  {
    forall v ensures FindParam(pairs + [name + "=" + v], name) == Some("") {
      assert (pairs + [name + "=" + v])[0] == name;
    }
  }

  lemma FindParamHere(pairs: seq<string>, name: string, v: string)
    requires |pairs| > 0 && pairs[0] == name + "=" + v
    ensures FindParam(pairs, name) == Some(v)
  {
    assert |pairs[0]| > |name|;
    assert pairs[0][..|name| + 1] == name + "=";
    assert pairs[0][|name| + 1..] == v;
  }

  lemma FindParamSkip(pairs: seq<string>, name: string)
    requires |pairs| > 0 && |pairs[0]| > 0 && |name| > 0 && pairs[0][0] != name[0]
    ensures FindParam(pairs, name) == FindParam(pairs[1..], name)
  {
    if |name| + 1 <= |pairs[0]| {
      assert pairs[0][..|name| + 1][0] != (name + "=")[0];
    }
  }

  lemma ConfirmationQueryPairs(doctorId: string, patientId: string)
    requires UrlSafe(doctorId) && UrlSafe(patientId)
    ensures Split(ConfirmationQuery(doctorId, patientId), '&') == ["doctorId=" + doctorId, "patientId=" + patientId]
  {
    var first, second := "doctorId=" + doctorId, "patientId=" + patientId;
    assert Join([first, second], '&') == ConfirmationQuery(doctorId, patientId);
    assert forall i :: 0 <= i < |first| ==> first[i] != '&';
    assert forall i :: 0 <= i < |second| ==> second[i] != '&';
    SplitJoin([first, second], '&');
  }

  /** The server reads back from the confirmation link exactly the ids it was built from. */
  lemma ConfirmationLinkParams(doctorId: string, patientId: string)
    requires UrlSafe(doctorId) && UrlSafe(patientId)
    ensures QueryParam(ConfirmationQuery(doctorId, patientId), "doctorId") == Some(doctorId)
    ensures QueryParam(ConfirmationQuery(doctorId, patientId), "patientId") == Some(patientId)
  {
    var pairs := ["doctorId=" + doctorId, "patientId=" + patientId];
    ConfirmationQueryPairs(doctorId, patientId);
    FindParamHere(pairs, "doctorId", doctorId);
    FindParamSkip(pairs, "patientId");
    FindParamHere(pairs[1..], "patientId", patientId);
  }

  /** The login page reads back from the redirect exactly the token the server issued. */
  lemma LoginRedirectToken(token: string)
    requires UrlSafe(token)
    ensures QueryParam(LoginQuery(token), "token") == Some(token)
  {
    var pair := LoginQuery(token);
    assert forall i :: 0 <= i < |pair| ==> pair[i] != '&';
    SplitJoin([pair], '&');
    FindParamHere([pair], "token", token);
  }
}
