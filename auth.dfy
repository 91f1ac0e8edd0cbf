/**
 * Request authentication (backend/app/main.py): every request whose path
 * starts with "/api/" must carry `Authorization: Bearer <token>`, and the
 * token must be one Google's tokeninfo endpoint accepts with the
 * cloud-platform scope. The HTTP call to the endpoint is a gateway: a
 * function from the URL asked for to the reply.
 */
module Auth {
  import opened Wrappers
  import opened Text
  import opened Errors

  /** The `scope` member of the tokeninfo JSON object: absent, a string, or
      some other JSON value (which has no `split`). */
  datatype ScopeField = Absent | Given(s: string) | NonText

  /** The decoded tokeninfo body: not JSON at all, a JSON value that is not an
      object (no `get`), or an object with its `scope` member. */
  datatype TokenInfoBody = NotJson | NotObject | JsonObject(scope: ScopeField)

  /** What `session.get(url)` gives: an exception, or a response. */
  datatype TokenInfoReply = Unreachable(reason: string) | Reply(statusCode: int, body: TokenInfoBody)

  const BearerPrefix := "Bearer "
  const RequiredScope := "https://www.googleapis.com/auth/cloud-platform"
  const TokenInfoEndpoint := "https://www.googleapis.com/oauth2/v1/tokeninfo?access_token="
  const ApiPrefix := "/api/"

  const NoHeader := "No authorization header"
  const BadFormat := "Invalid authorization header format"
  const InvalidToken := "Invalid token"
  const MissingScope := "Token does not have required scope"
  const AuthFailed := "Authentication failed"

  /** `auth_header.split('Bearer ')[1]`: the text after the leading
      "Bearer " up to the next "Bearer ", if any. */
  function ExtractToken(header: string): string
    requires BearerPrefix <= header
  {
    assert OccursAt(header, BearerPrefix, 0);
    assert Find(header, BearerPrefix) == Some(0);
    Split(header, BearerPrefix)[1]
  }

  function TokenInfoUrl(token: string): string
  {
    TokenInfoEndpoint + token
  }

  /** `required_scope in scope.split(' ')`. */
  predicate ScopeListed(scope: string)
  {
    RequiredScope in Split(scope, " ")
  }

  /** `token_info.get('scope', '')`: the scope string, the empty one when the
      member is absent, or `None` for a value that is not a string. */
  function ScopeText(scope: ScopeField): Option<string>
  {
    match scope
    case Absent => Some("")
    case Given(s) => Some(s)
    case NonText => None
  }

  /** What the scope check does with the tokeninfo object: pass, refuse the
      scope, or fail with an exception (a `scope` that is not a string has no
      `split`). Only a listed scope string passes. */
  function ScopeCheck(scope: ScopeField): (r: Option<string>)
    ensures r.None? <==> scope.Given? && ScopeListed(scope.s)
  {
    assert !ScopeListed("") by {
      assert Find("", " ").None?;
      assert Split("", " ") == [""];
    }
    match ScopeText(scope)
    case None => Some(AuthFailed)
    case Some(s) => if ScopeListed(s) then None else Some(MissingScope)
  }

  /** `verify_auth_token(request)`: the token accepted, or the
      `AuthenticationError` raised. Every exception other than an
      `AuthenticationError` inside the check becomes "Authentication failed". */
  function VerifyAuthToken(header: Option<string>, tokenInfo: string -> TokenInfoReply): (r: Result<string, ApiError>)
    ensures r.Failure? ==> r.error.cls == Authentication && r.error.statusCode == 401 && r.error.details == map[]
    ensures r.Success? <==>
      header.Some? && BearerPrefix <= header.value &&
      var reply := tokenInfo(TokenInfoUrl(ExtractToken(header.value)));
      reply.Reply? && reply.statusCode == 200 && reply.body.JsonObject? &&
      reply.body.scope.Given? && ScopeListed(reply.body.scope.s)
    ensures r.Success? ==> r.value == ExtractToken(header.value)
  {
    if header.None? || header.value == "" then Failure(AuthenticationError(NoHeader))
    else if !(BearerPrefix <= header.value) then Failure(AuthenticationError(BadFormat))
    else
      var token := ExtractToken(header.value);
      match tokenInfo(TokenInfoUrl(token))
      case Unreachable(_) => Failure(AuthenticationError(AuthFailed))
      case Reply(status, body) =>
        if status != 200 then Failure(AuthenticationError(InvalidToken))
        else
          match body
          case NotJson => Failure(AuthenticationError(AuthFailed))
          case NotObject => Failure(AuthenticationError(AuthFailed))
          case JsonObject(scope) =>
            match ScopeCheck(scope)
            case None => Success(token)
            case Some(message) => Failure(AuthenticationError(message))
  }

  /** The `before_request` hook: the error it raises, if any. Paths outside
      "/api/" are let through unchecked. */
  function Authenticate(path: string, header: Option<string>, tokenInfo: string -> TokenInfoReply): (r: Option<ApiError>)
    ensures !(ApiPrefix <= path) ==> r.None?
    ensures ApiPrefix <= path ==> (r.None? <==> VerifyAuthToken(header, tokenInfo).Success?)
    ensures r.Some? ==> r == Some(VerifyAuthToken(header, tokenInfo).error) && r.value.statusCode == 401
  {
    if !(ApiPrefix <= path) then None
    else
      match VerifyAuthToken(header, tokenInfo)
      case Success(_) => None
      case Failure(e) => Some(e)
  }

  /** Each way verification fails, with its message, in the order the checks
      run: the header, its format, the endpoint, its status, its body, the
      scope. */
  lemma VerifyErrorCases(header: Option<string>, tokenInfo: string -> TokenInfoReply)
    ensures header.None? || header == Some("") ==>
      VerifyAuthToken(header, tokenInfo) == Failure(ApiError(Authentication, NoHeader, 401, map[]))
    ensures header.Some? && header.value != "" && !(BearerPrefix <= header.value) ==>
      VerifyAuthToken(header, tokenInfo) == Failure(ApiError(Authentication, BadFormat, 401, map[]))
    ensures header.Some? && BearerPrefix <= header.value ==>
      var reply := tokenInfo(TokenInfoUrl(ExtractToken(header.value)));
      var r := VerifyAuthToken(header, tokenInfo);
      (reply.Unreachable? ==> r == Failure(ApiError(Authentication, AuthFailed, 401, map[]))) &&
      (reply.Reply? && reply.statusCode != 200 ==> r == Failure(ApiError(Authentication, InvalidToken, 401, map[]))) &&
      (reply.Reply? && reply.statusCode == 200 && !reply.body.JsonObject? ==>
         r == Failure(ApiError(Authentication, AuthFailed, 401, map[]))) &&
      (reply == Reply(200, JsonObject(Absent)) ==> r == Failure(ApiError(Authentication, MissingScope, 401, map[]))) &&
      (reply == Reply(200, JsonObject(NonText)) ==> r == Failure(ApiError(Authentication, AuthFailed, 401, map[]))) &&
      (forall s :: reply == Reply(200, JsonObject(Given(s))) && !ScopeListed(s) ==>
         r == Failure(ApiError(Authentication, MissingScope, 401, map[])))
  {
    assert Split("", " ") == [""] by {
      assert Find("", " ").None?;
    }
  }

  /** The scheme word is case-sensitive: "bearer" is a format error. */
  lemma LowerCaseSchemeRejected(rest: string, tokenInfo: string -> TokenInfoReply)
    ensures VerifyAuthToken(Some("bearer " + rest), tokenInfo).error.message == BadFormat
  {
    var h := "bearer " + rest;
    assert h[0] != BearerPrefix[0];
  }

  /** The token is what follows "Bearer ", cut at a second "Bearer " if the
      header holds one; a bare "Bearer " carries the empty token. */
  lemma {:induction false} TokenExtraction(rest: string)
    ensures Find(rest, BearerPrefix).None? ==> ExtractToken(BearerPrefix + rest) == rest
    ensures Find(rest, BearerPrefix).Some? ==> ExtractToken(BearerPrefix + rest) == rest[..Find(rest, BearerPrefix).value]
    ensures ExtractToken(BearerPrefix) == ""
  {
    var h := BearerPrefix + rest;
    assert OccursAt(h, BearerPrefix, 0);
    assert Find(h, BearerPrefix) == Some(0);
    assert h[|BearerPrefix|..] == rest;
    assert Split(h, BearerPrefix) == [h[..0]] + Split(rest, BearerPrefix);
    var e: string := "";
    assert BearerPrefix + e == BearerPrefix;
    assert Find(e, BearerPrefix).None? by {
      assert !OccursAt(e, BearerPrefix, 0);
    }
  }

  /** The scope check against an independent reading of the scope string: a
      scope string is its space-separated words, and it is listed exactly
      when the required scope is one of them. */
  lemma ScopeListedWords(words: seq<string>, s: string)
    requires words != []
    requires forall i :: 0 <= i < |words| ==> ' ' !in words[i]
    requires s == Join(words, " ")
    ensures ScopeListed(s) <==> RequiredScope in words
  {
    SplitOfJoin(words, ' ');
  }

  /** A missing scope counts as the empty string, which never passes; a
      scope that is not a string fails the check with an exception. */
  lemma ScopeCheckOtherValues()
    ensures ScopeCheck(Absent) == Some(MissingScope)
    ensures ScopeCheck(NonText) == Some(AuthFailed)
  {
    assert Split("", " ") == [""] by {
      assert Find("", " ").None?;
    }
  }

  /** Every scope string is a join of space-free words, so the reading of
      `ScopeListedWords` covers all of them. */
  lemma ScopeWordsExist(scope: string)
    ensures var words := Split(scope, " ");
      words != [] && Join(words, " ") == scope &&
      (forall i :: 0 <= i < |words| ==> ' ' !in words[i])
  {
    var words := Split(scope, " ");
    SplitJoin(scope, " ");
    SplitPiecesFree(scope, " ");
    forall i | 0 <= i < |words| ensures ' ' !in words[i] {
      var w := words[i];
      forall j | 0 <= j < |w| ensures w[j] != ' ' {
        assert !OccursAt(w, " ", j);
        assert w[j..j + 1] == [w[j]];
      }
    }
  }

  /** Only the endpoint's reply for this token matters: two gateways that
      agree on it give the same verdict. */
  lemma OnlyTokenUrlConsulted(header: string, g1: string -> TokenInfoReply, g2: string -> TokenInfoReply)
    requires BearerPrefix <= header
    requires g1(TokenInfoUrl(ExtractToken(header))) == g2(TokenInfoUrl(ExtractToken(header)))
    ensures VerifyAuthToken(Some(header), g1) == VerifyAuthToken(Some(header), g2)
  {
  }

  /** The hook checks only "/api/" paths, and there it raises exactly the
      error verification raises. */
  lemma AuthenticateGate(header: Option<string>, tokenInfo: string -> TokenInfoReply)
    ensures Authenticate("/health", header, tokenInfo).None?
    ensures Authenticate("/api/v1/datasets", header, tokenInfo).None? <==> VerifyAuthToken(header, tokenInfo).Success?
    ensures Authenticate("/api", header, tokenInfo).None?
  {
    assert !(ApiPrefix <= "/health") by {
      assert "/health"[1] != ApiPrefix[1];
    }
    assert ApiPrefix <= "/api/v1/datasets" by {
      assert "/api/v1/datasets"[..5] == ApiPrefix;
    }
  }
}
