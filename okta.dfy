/**
 * The multi-factor step of `OktaGPConnect.okta_authorize` (connect.py:39-94):
 * which factor is chosen, which verify requests go where and with what payload,
 * what the operator is asked, and which session token comes back.
 * The loop itself is `Connect.OktaGPConnect.OktaAuthorize`; this module holds
 * the specification it is proved against and the properties of that specification.
 */
module Okta {
  import opened Wrappers
  import opened Messages

  /**
   * One entry of `_embedded.factors`. `verifyHref` stands for `_links.verify.href`
   * and `questionText` for `profile.questionText`; `None` is an absent member.
   */
  datatype Factor = Factor(
    factorType: Option<string>,
    id: Option<string>,
    verifyHref: Option<string>,
    questionText: Option<string>)

  datatype Embedded = Embedded(factors: Option<seq<Factor>>)

  /** The JSON body of the reply to the primary authentication request. */
  datatype AuthnResponse = AuthnResponse(embedded: Option<Embedded>, stateToken: Option<string>)

  /** The JSON body of the reply to a verify request. */
  datatype VerifyResponse = VerifyResponse(sessionToken: Option<string>)

  /** What one `okta_authorize` call does, in order, and the token it returns. */
  datatype Exchange = Exchange(events: seq<Event>, token: Option<string>)

  const SmsPrompt: string := "Enter SMS code: "

  /** The factor types the client can resolve: `("question", "sms")`. */
  predicate Supported(f: Factor) {
    f.factorType == Some("question") || f.factorType == Some("sms")
  }

  /** `_embedded.factors`, or `[]` when either member is absent. */
  function FactorsOf(r: AuthnResponse): seq<Factor> {
    match r.embedded
    case None => []
    case Some(e) => e.factors.GetOr([])
  }

  /** The primary authentication request: the credentials as JSON to `/api/v1/authn`. */
  function AuthnRequest(domain: string, username: string, password: string): Request {
    Request(Post, "https://" + domain + "/api/v1/authn",
            Json(map["username" := Some(username), "password" := Some(password)]))
  }

  /** The factor list of the reply the provider gives to the credentials. */
  function PrimaryFactors(domain: string, username: string, password: string,
                          authn: Request -> AuthnResponse): seq<Factor>
  {
    FactorsOf(authn(AuthnRequest(domain, username, password)))
  }

  /** The state token of the reply the provider gives to the credentials. */
  function PrimaryStateToken(domain: string, username: string, password: string,
                             authn: Request -> AuthnResponse): Option<string>
  {
    authn(AuthnRequest(domain, username, password)).stateToken
  }

  /** `_links.verify.href`, defaulting to the empty string. */
  function VerifyUrl(f: Factor): string {
    f.verifyHref.GetOr("")
  }

  /** The payload every verify request starts from. */
  function BasePayload(f: Factor, stateToken: Option<string>): Fields {
    map["factorId" := f.id, "stateToken" := stateToken]
  }

  /** `p` carries the factor's id as `factorId` and the primary state token as `stateToken`. */
  predicate CarriesFactor(p: Fields, f: Factor, stateToken: Option<string>) {
    && "factorId" in p && p["factorId"] == f.id
    && "stateToken" in p && p["stateToken"] == stateToken
  }

  /**
   * The index of the first supported factor in list order, if any.
   * Its contract characterises it as the least supported index.
   */
  function FirstSupported(factors: seq<Factor>): (r: Option<nat>)
    ensures r.Some? ==> r.value < |factors| && Supported(factors[r.value])
    ensures r.Some? ==> forall j :: 0 <= j < r.value ==> !Supported(factors[j])
    ensures r.None? <==> forall j :: 0 <= j < |factors| ==> !Supported(factors[j])
  {
    if |factors| == 0 then None
    else if Supported(factors[0]) then Some(0)
    else
      match FirstSupported(factors[1..])
      case None => None
      case Some(k) => Some(k + 1)
  }

  /** The prompt for a security question: its text, or "", followed by one space. */
  function QuestionPrompt(f: Factor): Prompt {
    Prompt(f.questionText.GetOr("") + " ", true)
  }

  /**
   * The challenge for one supported factor (connect.py:68-92): for SMS, an empty
   * verify request, the code prompt, and the verify request with `passCode`; for a
   * question, the masked prompt and the verify request with `answer`.
   */
  function Challenge(f: Factor, stateToken: Option<string>,
                     verify: Request -> VerifyResponse, operator: Prompt -> string): (c: Exchange)
    requires Supported(f)
    ensures |c.events| == (if f.factorType == Some("sms") then 3 else 2)
    ensures c.events[|c.events| - 1].Send?
    ensures c.token == verify(c.events[|c.events| - 1].request).sessionToken
  {
    var url := VerifyUrl(f);
    var data := BasePayload(f, stateToken);
    if f.factorType == Some("sms") then
      var ask := Prompt(SmsPrompt, false);
      var second := Request(Post, url, Json(data["passCode" := Some(operator(ask))]));
      Exchange([Send(Request(Post, url, Json(data))), Ask(ask), Send(second)],
               verify(second).sessionToken)
    else
      var ask := QuestionPrompt(f);
      var only := Request(Post, url, Json(data["answer" := Some(operator(ask))]));
      Exchange([Ask(ask), Send(only)], verify(only).sessionToken)
  }

  /** Every request of a challenge goes to the factor's verify link and carries its id. */
  lemma ChallengeTargets(f: Factor, stateToken: Option<string>,
                         verify: Request -> VerifyResponse, operator: Prompt -> string)
    requires Supported(f)
    ensures var c := Challenge(f, stateToken, verify, operator);
            forall k :: 0 <= k < |c.events| && c.events[k].Send? ==>
              && c.events[k].request.verb == Post
              && c.events[k].request.url == VerifyUrl(f)
              && c.events[k].request.body.Json?
              && CarriesFactor(c.events[k].request.body.obj, f, stateToken)
  {
  }

  /**
   * The whole of `okta_authorize`: the credentials request, then the challenge of
   * the first supported factor, or nothing more and `None` when there is none.
   */
  function Authorize(domain: string, username: string, password: string,
                     authn: Request -> AuthnResponse, verify: Request -> VerifyResponse,
                     operator: Prompt -> string): (x: Exchange)
    ensures |x.events| == 1 <==> FirstSupported(PrimaryFactors(domain, username, password, authn)).None?
    ensures 1 <= |x.events| <= 4
    ensures x.events[0] == Send(AuthnRequest(domain, username, password))
  {
    var primary := AuthnRequest(domain, username, password);
    var response := authn(primary);
    var factors := FactorsOf(response);
    match FirstSupported(factors)
    case None => Exchange([Send(primary)], None)
    case Some(i) =>
      var c := Challenge(factors[i], response.stateToken, verify, operator);
      Exchange([Send(primary)] + c.events, c.token)
  }

  /**
   * Nothing beyond the credentials request is sent, and `None` is returned, exactly
   * when the factor list (absent, empty or not) holds no supported factor.
   */
  lemma NoSupportedFactorNoVerify(domain: string, username: string, password: string,
                                  authn: Request -> AuthnResponse, verify: Request -> VerifyResponse,
                                  operator: Prompt -> string)
    ensures var fs := PrimaryFactors(domain, username, password, authn);
            var x := Authorize(domain, username, password, authn, verify, operator);
            (forall j :: 0 <= j < |fs| ==> !Supported(fs[j])) <==> |x.events| == 1
    ensures var fs := PrimaryFactors(domain, username, password, authn);
            var x := Authorize(domain, username, password, authn, verify, operator);
            (forall j :: 0 <= j < |fs| ==> !Supported(fs[j])) ==> x.token == None
  {
  }

  /** A primary reply without `_embedded`, or without `factors`, leads to no verify request. */
  lemma MissingFactorsNoVerify(domain: string, username: string, password: string,
                               authn: Request -> AuthnResponse, verify: Request -> VerifyResponse,
                               operator: Prompt -> string)
    requires var r := authn(AuthnRequest(domain, username, password));
             r.embedded.None? || r.embedded.value.factors.None? || r.embedded.value.factors == Some([])
    ensures Authorize(domain, username, password, authn, verify, operator)
            == Exchange([Send(AuthnRequest(domain, username, password))], None)
  {
  }

  /**
   * Every request after the credentials goes to the verify link of the first
   * supported factor and carries that factor's id and the primary state token.
   */
  lemma OnlyFirstSupportedContacted(domain: string, username: string, password: string,
                                    authn: Request -> AuthnResponse, verify: Request -> VerifyResponse,
                                    operator: Prompt -> string, i: nat)
    requires FirstSupported(PrimaryFactors(domain, username, password, authn)) == Some(i)
    ensures var fs := PrimaryFactors(domain, username, password, authn);
            var st := PrimaryStateToken(domain, username, password, authn);
            var x := Authorize(domain, username, password, authn, verify, operator);
            forall k :: 1 <= k < |x.events| && x.events[k].Send? ==>
              && x.events[k].request.verb == Post
              && x.events[k].request.url == VerifyUrl(fs[i])
              && x.events[k].request.body.Json?
              && CarriesFactor(x.events[k].request.body.obj, fs[i], st)
  {
  }

  /**
   * A factor that is not the one chosen (unsupported, or supported but after the
   * first supported one) is never contacted, when its verify link differs from the
   * chosen factor's.
   */
  lemma SkippedFactorNeverContacted(domain: string, username: string, password: string,
                                    authn: Request -> AuthnResponse, verify: Request -> VerifyResponse,
                                    operator: Prompt -> string, j: nat)
    requires j < |PrimaryFactors(domain, username, password, authn)|
    requires var fs := PrimaryFactors(domain, username, password, authn);
             FirstSupported(fs).None? ||
             VerifyUrl(fs[FirstSupported(fs).value]) != VerifyUrl(fs[j])
    ensures var fs := PrimaryFactors(domain, username, password, authn);
            var x := Authorize(domain, username, password, authn, verify, operator);
            forall k :: 1 <= k < |x.events| && x.events[k].Send? ==>
              x.events[k].request.url != VerifyUrl(fs[j])
  {
  }

  /**
   * SMS: two verify requests to the same link, the first with only the factor id
   * and state token, the second adding the operator's code as `passCode`; the
   * token is the second reply's `sessionToken`.
   */
  lemma SmsExchange(domain: string, username: string, password: string,
                    authn: Request -> AuthnResponse, verify: Request -> VerifyResponse,
                    operator: Prompt -> string, i: nat)
    requires FirstSupported(PrimaryFactors(domain, username, password, authn)) == Some(i)
    requires PrimaryFactors(domain, username, password, authn)[i].factorType == Some("sms")
    ensures var f := PrimaryFactors(domain, username, password, authn)[i];
            var st := PrimaryStateToken(domain, username, password, authn);
            var x := Authorize(domain, username, password, authn, verify, operator);
            var code := operator(Prompt(SmsPrompt, false));
            var second := Request(Post, VerifyUrl(f), Json(map["factorId" := f.id, "stateToken" := st, "passCode" := Some(code)]));
            && x.events[1..] == [Send(Request(Post, VerifyUrl(f), Json(map["factorId" := f.id, "stateToken" := st]))),
                                 Ask(Prompt(SmsPrompt, false)),
                                 Send(second)]
            && x.token == verify(second).sessionToken
  {
  }

  /**
   * Security question: one masked prompt showing the question text (or "") and a
   * space, then one verify request adding the reply as `answer`; the token is
   * that reply's `sessionToken`.
   */
  lemma QuestionExchange(domain: string, username: string, password: string,
                         authn: Request -> AuthnResponse, verify: Request -> VerifyResponse,
                         operator: Prompt -> string, i: nat)
    requires FirstSupported(PrimaryFactors(domain, username, password, authn)) == Some(i)
    requires PrimaryFactors(domain, username, password, authn)[i].factorType == Some("question")
    ensures var f := PrimaryFactors(domain, username, password, authn)[i];
            var st := PrimaryStateToken(domain, username, password, authn);
            var x := Authorize(domain, username, password, authn, verify, operator);
            var ask := Prompt(f.questionText.GetOr("") + " ", true);
            var only := Request(Post, VerifyUrl(f), Json(map["factorId" := f.id, "stateToken" := st, "answer" := Some(operator(ask))]));
            && x.events[1..] == [Ask(ask), Send(only)]
            && x.token == verify(only).sessionToken
  {
  }
}
