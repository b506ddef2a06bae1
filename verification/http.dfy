/** The shapes of the JSON replies the server sends, and JavaScript
    truthiness of optional string values. */
module Http {
  import opened Wrappers
  import opened Users

  /** The JSON body of a reply. `Message` and `ResultText` differ only in
      their key (`message` in the account handlers, `result` in the token
      gate). */
  datatype Body =
    | Message(message: string)
    | ResultText(result: string)
    | SignedUp(sanitizedResult: Profile, auth: string)
    | SignedIn(user: Profile, auth: string)

  /** An HTTP status code and a JSON body; `res.json` alone sends 200. */
  datatype Response = Response(status: nat, body: Body)

  /** A request field or header value that JavaScript treats as true:
      present and not the empty string. */
  predicate Truthy(v: Option<string>)
  {
    v.Some? && v.value != ""
  }
}
