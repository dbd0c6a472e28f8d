/**
 * `OktaGPConnect` (connect.py:14-119): the client object, its fields set once by
 * the constructor, the session it sends on, `okta_authorize` as a loop over the
 * factor list, and `auth`, which redeems the session token and reads the final
 * credentials from the response headers.
 */
module Connect {
  import opened Wrappers
  import opened Messages
  import opened Okta
  import opened Forms

  /** Response headers, keyed by lower-case name. */
  type Headers = map<string, string>

  /** The far side of every exchange: the reply each kind of request gets. */
  datatype Peer = Peer(
    authn: Request -> AuthnResponse,
    verify: Request -> VerifyResponse,
    cookieRedirect: Request -> Page,
    formPost: Request -> Headers)

  /** What `auth` does, in order, and the `(username, cookie)` pair or the failure. */
  datatype Run = Run(events: seq<Event>, result: Result<(string, string), Failure>)

  /** The request `get_saml_url` makes to the gateway. */
  function PreloginRequest(gateway: string): Request {
    Request(Post, "https://" + gateway + "/ssl-vpn/prelogin.esp", NoBody)
  }

  /** The GET that trades the session token for the redirect page. */
  function CookieRedirectRequest(oktaDomain: string, token: Option<string>, samlUrl: string): (r: Request)
    ensures r.verb == Get && r.body.Query?
    ensures r.url == "https://" + oktaDomain + "/login/sessionCookieRedirect"
    ensures r.body.params.Keys == {"token", "redirectUrl"}
    ensures r.body.params["token"] == token && r.body.params["redirectUrl"] == Some(samlUrl)
  {
    Request(Get, "https://" + oktaDomain + "/login/sessionCookieRedirect",
            Query(map["token" := token, "redirectUrl" := Some(samlUrl)]))
  }

  /**
   * `response.headers["saml-username"], response.headers["prelogin-cookie"]`:
   * both present gives the pair; otherwise the KeyError names a missing header,
   * the username header being looked up first.
   */
  function Credentials(headers: Headers): (r: Result<(string, string), Failure>)
    ensures r.Ok? <==> "saml-username" in headers && "prelogin-cookie" in headers
    ensures r.Ok? ==> r.value.0 == headers["saml-username"] && r.value.1 == headers["prelogin-cookie"]
    ensures r.Err? ==> r.error.MissingHeader? && r.error.header !in headers
    ensures "saml-username" !in headers ==> r == Err(MissingHeader("saml-username"))
    ensures "saml-username" in headers && "prelogin-cookie" !in headers ==> r == Err(MissingHeader("prelogin-cookie"))
  {
    if "saml-username" !in headers then Err(MissingHeader("saml-username"))
    else if "prelogin-cookie" !in headers then Err(MissingHeader("prelogin-cookie"))
    else Ok((headers["saml-username"], headers["prelogin-cookie"]))
  }

  /** The session token `okta_authorize` hands to `auth`. */
  function SessionToken(oktaDomain: string, username: string, password: string,
                        peer: Peer, operator: Prompt -> string): Option<string>
  {
    Authorize(oktaDomain, username, password, peer.authn, peer.verify, operator).token
  }

  /** The page the cookie redirect returns. */
  function RedirectPage(samlUrl: string, oktaDomain: string, username: string, password: string,
                        peer: Peer, operator: Prompt -> string): Page
  {
    var token := SessionToken(oktaDomain, username, password, peer, operator);
    peer.cookieRedirect(CookieRedirectRequest(oktaDomain, token, samlUrl))
  }

  /**
   * The whole of `auth` (connect.py:96-115): the DT-cookie GET, `okta_authorize`,
   * the cookie redirect with its token passed on unchecked, the submission of the
   * first form, and the two headers of the last reply.
   */
  function AuthRun(samlUrl: string, oktaDomain: string, username: string, password: string,
                   peer: Peer, operator: Prompt -> string): (run: Run)
    ensures |run.events| >= 3 && run.events[0] == Send(Request(Get, samlUrl, NoBody))
    ensures var x := Authorize(oktaDomain, username, password, peer.authn, peer.verify, operator);
            |run.events| == |x.events| + (if run.result.Ok? || run.result.error.MissingHeader? then 3 else 2)
    ensures run.result.Ok? ==> run.events[|run.events| - 1].Send? && run.events[|run.events| - 1].request.verb == Post
  {
    var x := Authorize(oktaDomain, username, password, peer.authn, peer.verify, operator);
    var redirect := CookieRedirectRequest(oktaDomain, x.token, samlUrl);
    var sofar := [Send(Request(Get, samlUrl, NoBody))] + x.events + [Send(redirect)];
    match ExtractForm(peer.cookieRedirect(redirect))
    case Err(e) => Run(sofar, Err(e))
    case Ok(form) =>
      var submit := Request(Post, form.action, FormData(form.fields));
      Run(sofar + [Send(submit)], Credentials(peer.formPost(submit)))
  }

  /**
   * `auth` first fetches the SAML page, then runs `okta_authorize`, then asks for
   * the cookie redirect with `token` equal to the session token, `None` included,
   * and `redirectUrl` equal to the SAML URL.
   */
  lemma AuthRedeemsSessionToken(samlUrl: string, oktaDomain: string, username: string, password: string,
                                peer: Peer, operator: Prompt -> string)
    ensures var run := AuthRun(samlUrl, oktaDomain, username, password, peer, operator);
            var x := Authorize(oktaDomain, username, password, peer.authn, peer.verify, operator);
            && |run.events| >= |x.events| + 2
            && run.events[0] == Send(Request(Get, samlUrl, NoBody))
            && run.events[1..|x.events| + 1] == x.events
            && var redirect := run.events[|x.events| + 1];
               && redirect.Send?
               && redirect.request.verb == Get
               && redirect.request.url == "https://" + oktaDomain + "/login/sessionCookieRedirect"
               && redirect.request.body.Query?
               && redirect.request.body.params.Keys == {"token", "redirectUrl"}
               && redirect.request.body.params["token"] == x.token
               && redirect.request.body.params["redirectUrl"] == Some(samlUrl)
  {
  }

  /**
   * When the redirect page has a readable first form, exactly one more request is
   * sent: a POST of that form's fields to its action, verbatim.
   */
  lemma AuthSubmitsFirstForm(samlUrl: string, oktaDomain: string, username: string, password: string,
                             peer: Peer, operator: Prompt -> string)
    requires ExtractForm(RedirectPage(samlUrl, oktaDomain, username, password, peer, operator)).Ok?
    ensures var run := AuthRun(samlUrl, oktaDomain, username, password, peer, operator);
            var x := Authorize(oktaDomain, username, password, peer.authn, peer.verify, operator);
            var form := RedirectPage(samlUrl, oktaDomain, username, password, peer, operator).forms[0];
            && |run.events| == |x.events| + 3
            && run.events[|x.events| + 2]
               == Send(Request(Post, form.attrib["action"], FormData(FieldMap(form.children).value)))
  {
  }

  /**
   * When the redirect page has no form, or its first form cannot be read, `auth`
   * fails with that error and sends nothing after the redirect.
   */
  lemma AuthStopsWithoutForm(samlUrl: string, oktaDomain: string, username: string, password: string,
                             peer: Peer, operator: Prompt -> string)
    ensures var run := AuthRun(samlUrl, oktaDomain, username, password, peer, operator);
            var x := Authorize(oktaDomain, username, password, peer.authn, peer.verify, operator);
            var form := ExtractForm(RedirectPage(samlUrl, oktaDomain, username, password, peer, operator));
            form.Err? ==> |run.events| == |x.events| + 2 && run.result == Err(form.error)
  {
  }

  /**
   * `auth` returns `(saml-username, prelogin-cookie)` of the reply to the form
   * submission exactly when the form was readable and both headers are present.
   */
  lemma AuthReturnsHeaders(samlUrl: string, oktaDomain: string, username: string, password: string,
                           peer: Peer, operator: Prompt -> string)
    ensures var run := AuthRun(samlUrl, oktaDomain, username, password, peer, operator);
            var form := ExtractForm(RedirectPage(samlUrl, oktaDomain, username, password, peer, operator));
            run.result.Ok? <==>
              && form.Ok?
              && var headers := peer.formPost(Request(Post, form.value.action, FormData(form.value.fields)));
                 "saml-username" in headers && "prelogin-cookie" in headers
    ensures var run := AuthRun(samlUrl, oktaDomain, username, password, peer, operator);
            var form := ExtractForm(RedirectPage(samlUrl, oktaDomain, username, password, peer, operator));
            run.result.Ok? ==>
              var headers := peer.formPost(Request(Post, form.value.action, FormData(form.value.fields)));
              run.result.value == (headers["saml-username"], headers["prelogin-cookie"])
  {
  }

  class OktaGPConnect {
    const gateway: string
    const username: string
    const password: string
    const samlUrl: string
    const oktaDomain: string
    const oktaUrl: string
    /** The requests the client has issued so far, with the operator prompts in between. */
    var log: seq<Event>

    ghost predicate Valid() {
      oktaUrl == "https://" + oktaDomain
    }

    /**
     * `__init__`: stores the arguments and contacts the gateway's prelogin page.
     * The decoded SAML URL and its host are given, since their decoding is not modelled.
     */
    constructor (gateway: string, username: string, password: string, samlUrl: string, oktaDomain: string)
      ensures Valid()
      ensures this.gateway == gateway && this.username == username && this.password == password
      ensures this.samlUrl == samlUrl && this.oktaDomain == oktaDomain
      ensures log == [Send(PreloginRequest(gateway))]
    {
      this.gateway := gateway;
      this.username := username;
      this.password := password;
      this.samlUrl := samlUrl;
      this.oktaDomain := oktaDomain;
      this.oktaUrl := "https://" + oktaDomain;
      this.log := [Send(PreloginRequest(gateway))];
    }

    /**
     * `okta_authorize`: sends the credentials, then walks the factor list,
     * skipping unsupported factors and returning from inside the iteration of the
     * first supported one.
     */
    method OktaAuthorize(peer: Peer, operator: Prompt -> string) returns (token: Option<string>)
      modifies this
      ensures var x := Authorize(oktaDomain, username, password, peer.authn, peer.verify, operator);
              log == old(log) + x.events && token == x.token
    {
      var data := map["username" := Some(username), "password" := Some(password)];
      var primary := Request(Post, "https://" + oktaDomain + "/api/v1/authn", Json(data));
      log := log + [Send(primary)];
      var response := peer.authn(primary);
      var factors := FactorsOf(response);
      var stateToken := response.stateToken;
      for i := 0 to |factors|
        invariant forall j :: 0 <= j < i ==> !Supported(factors[j])
        invariant log == old(log) + [Send(primary)]
      {
        var factor := factors[i];
        if factor.factorType != Some("question") && factor.factorType != Some("sms") {
          continue;
        }
        data := map["factorId" := factor.id, "stateToken" := stateToken];
        var factorUrl := VerifyUrl(factor);
        if factor.factorType == Some("sms") {
          var first := Request(Post, factorUrl, Json(data));
          log := log + [Send(first)];
          var ask := Prompt(SmsPrompt, false);
          log := log + [Ask(ask)];
          var smsCode := operator(ask);
          data := data["passCode" := Some(smsCode)];
          var second := Request(Post, factorUrl, Json(data));
          log := log + [Send(second)];
          return peer.verify(second).sessionToken;
        } else {
          var ask := QuestionPrompt(factor);
          log := log + [Ask(ask)];
          var answer := operator(ask);
          data := data["answer" := Some(answer)];
          var only := Request(Post, factorUrl, Json(data));
          log := log + [Send(only)];
          return peer.verify(only).sessionToken;
        }
      }
      return None;
    }

    /**
     * `auth`: the DT-cookie GET, `okta_authorize`, the cookie redirect, the form
     * submission, and the two headers of its reply.
     */
    method Auth(peer: Peer, operator: Prompt -> string) returns (r: Result<(string, string), Failure>)
      requires Valid()
      modifies this
      ensures var run := AuthRun(samlUrl, oktaDomain, username, password, peer, operator);
              log == old(log) + run.events && r == run.result
    {
      log := log + [Send(Request(Get, samlUrl, NoBody))];
      var sessionToken := OktaAuthorize(peer, operator);
      var data := map["token" := sessionToken, "redirectUrl" := Some(samlUrl)];
      var redirect := Request(Get, oktaUrl + "/login/sessionCookieRedirect", Query(data));
      log := log + [Send(redirect)];
      var next := ExtractForm(peer.cookieRedirect(redirect));
      if next.Err? {
        return Err(next.error);
      }
      var submit := Request(Post, next.value.action, FormData(next.value.fields));
      log := log + [Send(submit)];
      r := Credentials(peer.formPost(submit));
    }
  }
}
