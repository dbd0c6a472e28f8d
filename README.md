# openconnect_with_okta: the authentication decisions of `connect.py`, in Dafny

`connect.py` logs a user in to a GlobalProtect VPN gateway through Okta and then
starts `openconnect`. This project models the decisions it makes on the way, with
the network, the parsers and the terminal replaced by parameters:

- **Factor selection and the verify requests** (`OktaGPConnect.okta_authorize`):
  after the credentials are POSTed to `/api/v1/authn`, the first factor of type
  `sms` or `question` is chosen, and the verify requests go to its
  `_links.verify.href` with `factorId`, `stateToken` and then `passCode` or `answer`.
  The session token of the last verify reply is returned, or `None`.
- **The redirect chain** (`OktaGPConnect.auth` and `_extract_form`): the session
  token is sent unchecked to `/login/sessionCookieRedirect`. The first form of the
  reply becomes an action and a field map, in which a later input overrides an
  earlier one of the same name. The form is POSTed, and the `saml-username` and
  `prelogin-cookie` headers of the reply are the result.

Layout:

- `wrappers.dfy`: `Option` (Python's `None`, `dict.get` with a default) and `Result`
  (an exception raised instead of a value).
- `messages.dfy`: requests, operator prompts, the `Event` log of a run, and the
  failures of the redirect chain.
- `okta.dfy`: the factor list, `FirstSupported`, and `Authorize`, the specification
  of `okta_authorize`, with its properties.
- `forms.dfy`: `_extract_form` over an already-parsed page.
- `connect.dfy`: the class `OktaGPConnect`. Its constant fields are set once by the
  constructor. Its `log` field holds the requests the client issues, with the prompts shown to
  the operator in between. `OktaAuthorize` is the factor loop of the source, with
  `continue` and an early `return`. `Auth` is the redirect chain. Each method is
  proved equal to its specification function (`Authorize`, `AuthRun`).

HTTP replies come from a `Peer`: one function per kind of request, from the
request sent to the reply received. What the operator types comes from a function
of the prompt shown.

`connect.py` raises no error of its own. A `None` session token goes on to the
cookie redirect (connect.py:101-107). A missing header or form attribute is a plain
KeyError (connect.py:113, 119), modelled as a `Failure`. A security question gets
one verify POST, and the SMS code is read with `input`, a visible prompt.

## Model

| member | source | states |
|---|---|---|
| Okta.FirstSupported | connect.py:60-66 | the chosen index is the least index whose `factorType` is `question` or `sms`; there is none exactly when no factor is supported |
| Okta.Challenge | connect.py:68-92 | an SMS factor takes three steps and a question two; the last step is a verify POST, and the token is that POST's `sessionToken` |
| Okta.ChallengeTargets | connect.py:68-72 | every request of a challenge is a POST of JSON to `_links.verify.href` (or `""`) carrying the factor's `id` as `factorId` and the primary `stateToken` |
| Okta.Authorize | connect.py:39-94 | the credentials POST to `https://<domain>/api/v1/authn` comes first; nothing else is sent exactly when no supported factor exists; at most four steps occur |
| Okta.NoSupportedFactorNoVerify | connect.py:57-94 | only the credentials request is sent exactly when no factor is supported, and then the result is `None` |
| Okta.MissingFactorsNoVerify | connect.py:57 | a reply without `_embedded`, without `factors`, or with an empty list gives only the credentials request and `None` |
| Okta.OnlyFirstSupportedContacted | connect.py:63-92 | every request after the credentials goes to the first supported factor's verify link with its `factorId` and the primary `stateToken` |
| Okta.SkippedFactorNeverContacted | connect.py:63-66 | a factor other than the first supported one, with a different verify link, gets no request |
| Okta.SmsExchange | connect.py:74-83 | SMS: a POST with only `factorId` and `stateToken`, the prompt `Enter SMS code: `, then a POST to the same link adding `passCode`; the token is the second reply's |
| Okta.QuestionExchange | connect.py:85-92 | question: a masked prompt of the question text (or `""`) plus one space, then one POST adding `answer`; the token is that reply's |
| Forms.FieldMap | connect.py:119 | succeeds exactly when every `input` child has `name` and `value`; its keys are exactly the input names, each mapped to the value of the last input of that name; else the KeyError of the first unreadable input |
| Forms.FieldsOfBind | connect.py:119 | adding one more readable input to a field map binds its name to its value, replacing an earlier value of that name |
| Forms.ExtractForm | connect.py:117-119 | no form is an error, a first form without `action` is a KeyError, an unreadable input gives the field map's KeyError for the first such input, otherwise the action of the first form verbatim and its field map |
| Forms.LaterInputOverrides | connect.py:119 | of two inputs with one name, the later one's value is kept |
| Forms.NonInputsIgnored | connect.py:119 | a child that is not an `input` element, at any position among the children, does not change the field map |
| Connect.Credentials | connect.py:113 | succeeds exactly when both `saml-username` and `prelogin-cookie` are present, giving them in that order; a missing `saml-username` is the error; otherwise a missing `prelogin-cookie` is |
| Connect.CookieRedirectRequest | connect.py:103-107 | the redirect is a GET to `https://<domain>/login/sessionCookieRedirect` whose parameters are exactly `token` (the given token, `None` included) and `redirectUrl` (the SAML URL) |
| Connect.AuthRun | connect.py:96-115 | `auth` starts with the SAML page GET; after `okta_authorize` it sends the redirect GET and, unless the form cannot be read, one form POST; a success ends with that POST |
| Connect.AuthRedeemsSessionToken | connect.py:98-109 | the SAML page GET, then `okta_authorize`, then a GET to `/login/sessionCookieRedirect` with exactly `token` (the session token, `None` included) and `redirectUrl` (the SAML URL) |
| Connect.AuthSubmitsFirstForm | connect.py:110-112 | with a readable first form, exactly one more request follows: a POST of its fields to its action |
| Connect.AuthStopsWithoutForm | connect.py:110 | with no readable form, `auth` fails with that error and sends nothing more |
| Connect.AuthReturnsHeaders | connect.py:112-115 | `auth` succeeds exactly when the form was readable and the reply has both headers, and then returns their values |
| Connect.OktaGPConnect.constructor | connect.py:15-25 | stores the arguments, sets `oktaUrl` to `https://` plus the Okta host, and the log holds the prelogin POST |
| Connect.OktaGPConnect.OktaAuthorize | connect.py:39-94 | the factor loop appends exactly the steps of `Authorize` to the log and returns its token |
| Connect.OktaGPConnect.Auth | connect.py:96-115 | appends exactly the steps of `AuthRun` to the log and returns its result |

## Left out

- URLs without a scheme: a missing verify link gives `""`, and a form action may be relative, such as `/finish`. For such a URL `requests` raises `MissingSchema` before anything is sent, at connect.py:75, 89 or 112, and the run stops there. The model logs the request as sent and carries on.
- The `Accept` and `Content-Type` JSON headers sent with the credentials and verify requests (connect.py:21, 52, 75, 80, 89): a `Request` holds no headers.
- Redirects: `requests` follows them on every GET and POST (connect.py:32, 98, 109, 112). The log holds one event per call, and each `Peer` function gives the reply at the end of the chain.
- HTTP through `requests.Session` (cookies, TLS, network errors, JSON decoding errors): each request is an `Event` in the log, and each reply comes from `Peer`.
- Encoding of the redirect query: `requests` drops a parameter whose value is `None`, so a `None` token is not sent at all. The model keeps `token` mapped to `None`.
- Header names: `requests` looks them up case-insensitively. The model's `Headers` map is keyed by lower-case name.
- Key order of the JSON and query objects, and of the submitted form fields (sent in the order each name first appears): they are maps here.
- Python before 3.8 evaluates a dict comprehension's value before its key, so an input missing both `name` and `value` raises the KeyError for `value` there. `Forms.MissingOf` follows Python 3.8 and later, which looks up `name` first.
- XML and HTML parsing with `lxml`: the redirect page is given as its forms in document order. Each form is given with its attributes and direct children. A page the parser cannot read is not modelled.
- `get_saml_url` (the base64 and ASCII decoding) and `urlparse(...).netloc`: the SAML URL and the Okta host are constructor parameters. The prelogin POST is logged.
- JSON members that are present but `null` or of the wrong type (for example `"profile": null`, or `questionText: null`, where the source raises): the model treats an absent member and the source's default alike, and has no such values.
- The reply to the first SMS verify POST, which the source discards: the model does not read it.
- `input` and `getpass`: the operator is a function from the prompt shown to the text typed.
- The `__main__` block (argparse, the password prompt, the `openconnect` shell command) and launching the process.
- `setup.py`: packaging metadata only. Its console-script entry point names a `main` function that `connect.py` does not define.
