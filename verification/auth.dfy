/** The `verifyToken` middleware: a fail-fast gate on the `Authorization`
    request header, and the routes it stands in front of.

    Token verification (signature and expiry) is an oracle `verifyOk`; the
    gate only decides which string it is asked about, and when. */
module Auth {
  import opened Wrappers
  import opened JsString
  import opened Http

  /** Why the gate stopped a request, or that it let it through. */
  datatype GuardOutcome = Missing | Malformed | Invalid | Pass

  const Scheme: string := "Bearer"

  /** The scheme name and the single space that must follow it. */
  const Prefix: string := Scheme + " "

  /** A header of the form `Bearer <token>` with a single space and a
      token holding no space; the scheme name is matched case-sensitively. */
  predicate IsBearerCredential(h: string)
  {
    |h| >= |Prefix| && h[..|Prefix|] == Prefix && ' ' !in h[|Prefix|..]
  }

  /** The two-field split that the format check accepts is exactly a
      bearer credential, and then its second field is the token. */
  lemma BearerShape(h: string)
    ensures var p := Split(h, ' '); (|p| == 2 && p[0] == Scheme) <==> IsBearerCredential(h)
    ensures IsBearerCredential(h) ==> Split(h, ' ') == [Scheme, h[|Prefix|..]]
  {
    var p := Split(h, ' ');
    if |p| == 2 && p[0] == Scheme {
      JoinPair(p, ' ');
      assert h == Prefix + p[1];
      assert h[..|Prefix|] == Prefix;
      assert h[|Prefix|..] == p[1];
    }
    if IsBearerCredential(h) {
      var q := [Scheme, h[|Prefix|..]];
      JoinPair(q, ' ');
      assert h == h[..|Prefix|] + h[|Prefix|..];
      assert Join(q, ' ') == h;
      assert ' ' !in Scheme;
      SplitJoin(q, ' ');
    }
  }

  /** The format check: `split(' ')` must give exactly two fields, the first
      being `Bearer`; the token is then the second field. */
  function BearerToken(h: string): (t: Option<string>)
    ensures t.Some? <==> IsBearerCredential(h)
    ensures t.Some? ==> t.value == h[|Prefix|..]
  {
    BearerShape(h);
    var parts := Split(h, ' ');
    if |parts| != 2 || parts[0] != Scheme then None else Some(parts[1])
  }

  /** `verifyToken`: the header is checked for presence, then format, then
      signature; the first failing check decides the outcome. */
  function Guard(header: Option<string>, verifyOk: string -> bool): (o: GuardOutcome)
    ensures o == Missing <==> !Truthy(header)
    ensures o == Malformed <==> Truthy(header) && !IsBearerCredential(header.value)
    ensures o == Invalid <==>
      Truthy(header) && IsBearerCredential(header.value) && !verifyOk(header.value[|Prefix|..])
    ensures o == Pass <==>
      Truthy(header) && IsBearerCredential(header.value) && verifyOk(header.value[|Prefix|..])
  {
    if !Truthy(header) then Missing
    else
      match BearerToken(header.value)
      case None => Malformed
      case Some(token) => if verifyOk(token) then Pass else Invalid
  }

  /** The 401 reply the gate sends for each failed check. */
  function Rejection(o: GuardOutcome): (r: Response)
    requires o != Pass
    ensures r.status == 401 && r.body.ResultText?
    ensures o == Missing ==> r.body.result == "Please add a token with the header"
    ensures o == Malformed ==> r.body.result == "Invalid token format"
    ensures o == Invalid ==> r.body.result == "Please provide a valid token"
  {
    match o
    case Missing => Response(401, ResultText("Please add a token with the header"))
    case Malformed => Response(401, ResultText("Invalid token format"))
    case Invalid => Response(401, ResultText("Please provide a valid token"))
  }

  /** Only the oracle's answer on the bearer token can matter: a header that
      fails the presence or format check is refused whatever the oracle,
      and a well-formed one is judged on its second field alone. */
  lemma GuardConsultsOnlyToken(header: Option<string>, f: string -> bool, g: string -> bool)
    requires !Truthy(header) || !IsBearerCredential(header.value) ||
             f(header.value[|Prefix|..]) == g(header.value[|Prefix|..])
    ensures Guard(header, f) == Guard(header, g)
  {
  }

  /** An empty header counts as absent. */
  lemma EmptyHeaderMissing(verifyOk: string -> bool)
    ensures Guard(Some(""), verifyOk) == Missing
  {
  }

  /** Two spaces after the scheme give three fields, so the format check
      fails before any verification. */
  lemma DoubleSpaceMalformed(verifyOk: string -> bool)
    ensures Guard(Some("Bearer  x"), verifyOk) == Malformed
  {
    var h := "Bearer  x";
    assert h[|Prefix|..][0] == ' ';
    assert !IsBearerCredential(h);
  }

  /** The scheme name is compared case-sensitively. */
  lemma LowerCaseSchemeMalformed(verifyOk: string -> bool)
    ensures Guard(Some("bearer x"), verifyOk) == Malformed
  {
    var h := "bearer x";
    assert h[..|Prefix|][0] != Prefix[0];
    assert !IsBearerCredential(h);
  }

  /** `Bearer ` with nothing after the space passes the format check and
      hands the empty token to verification. */
  lemma EmptyTokenReachesVerify(verifyOk: string -> bool)
    ensures Guard(Some("Bearer "), verifyOk) == (if verifyOk("") then Pass else Invalid)
  {
    var h := "Bearer ";
    assert h[..|Prefix|] == Prefix;
    assert h[|Prefix|..] == "";
    assert IsBearerCredential(h);
  }

  /** The endpoints of the server. */
  datatype Route =
    | PostRegister
    | PostLogin
    | AddProduct
    | ListProducts
    | DeleteProduct(id: string)
    | GetProduct(id: string)
    | UpdateProduct(id: string)
    | Search(key: string)

  /** The routes registered with `verifyToken` in front of their handler. */
  predicate Guarded(route: Route)
  {
    route.DeleteProduct? || route.Search?
  }

  /** Whether a request reaches its route's handler, or the reply it gets
      instead. */
  datatype Admission = Admitted | Refused(response: Response)

  function Admit(route: Route, header: Option<string>, verifyOk: string -> bool): (a: Admission)
    ensures a.Admitted? <==>
      !Guarded(route) ||
      (Truthy(header) && IsBearerCredential(header.value) && verifyOk(header.value[|Prefix|..]))
    ensures a.Refused? ==>
      Guard(header, verifyOk) != Pass && a.response == Rejection(Guard(header, verifyOk))
  {
    if !Guarded(route) then Admitted
    else
      var o := Guard(header, verifyOk);
      if o == Pass then Admitted else Refused(Rejection(o))
  }

  /** A guarded route with no `Authorization` header never reaches its
      handler, whatever the product id or search key. */
  lemma UnauthenticatedDeleteRefused(id: string, verifyOk: string -> bool)
    ensures Admit(DeleteProduct(id), None, verifyOk) ==
      Refused(Response(401, ResultText("Please add a token with the header")))
  {
  }
}
