/**
 * What the client sends and asks: HTTP requests on its session, prompts to the
 * operator at the terminal, and the failures the redirect chain can end in.
 */
module Messages {
  import opened Wrappers

  /** A flat object whose values are strings or `None` (sent as JSON `null`). */
  type Fields = map<string, Option<string>>

  datatype Verb = Get | Post

  datatype Body =
    | NoBody
    | Json(obj: Fields)                    // `json=` or `data=json.dumps(...)`
    | Query(params: Fields)                // `params=` of a GET
    | FormData(fields: map<string, string>) // `data=` with a dict, form-encoded

  datatype Request = Request(verb: Verb, url: string, body: Body)

  /** A terminal prompt; `masked` is `getpass`, otherwise `input`. */
  datatype Prompt = Prompt(text: string, masked: bool)

  /** One observable step of a run, in order. */
  datatype Event = Send(request: Request) | Ask(prompt: Prompt)

  /** The lookups that can fail on the redirect chain (an absent form, a KeyError). */
  datatype Failure =
    | NoForm
    | MissingAttribute(attribute: string)
    | MissingHeader(header: string)
}
