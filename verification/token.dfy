/**
 * The token endpoint of api/token.ts: it trades a GitHub OAuth code for an
 * access token, insists on the "email" scope, reads the GitHub profile,
 * finds or creates the user by username and answers with a session token
 * whose claims are the user's id and username.
 *
 * GitHub's two replies are inputs, as functions of what the handler sends
 * (the code, then the access token); so are the store's faults and the
 * environment.
 */
module TokenApi {
  import opened Wrappers
  import opened Text
  import opened Validate
  import opened Store
  import opened Http

  /** The terms the handler validates the request against. */
  const TokenTerms: Terms := Terms(["GET", "OPTIONS"], ["code"])

  datatype TokenRequest = TokenRequest(verb: string, query: SearchParams)

  /** The environment variables the handler reads; `None` when unset. */
  datatype Env = Env(jwtSecret: Option<string>, githubClientId: Option<string>, githubClientSecret: Option<string>)

  /** The JSON body of GitHub's access-token endpoint, an absent field read as "". */
  datatype GrantReply =
    | GrantBody(error: string, errorDescription: string, accessToken: string, scope: string)
    | GrantFailed(message: string)  // the request or the JSON decoding threw

  /** The JSON body of GitHub's user endpoint. */
  datatype ProfileReply =
    | ProfileBody(login: string, name: string, email: string, avatarUrl: string)
    | ProfileFailed(message: string)  // the request or the JSON decoding threw

  /** What the handler destructures: `{access_token = "", error, scope = ""}`, "" when absent. */
  datatype Grant = Grant(accessToken: string, error: string, scope: string)

  /** A call that returns a value or throws an `Error` with a message. */
  datatype Call<T> = Returned(value: T) | Threw(message: string)

  const ClientIdNotSet: string := "environment variable GITHUB_CLIENT_ID not set"
  const ClientSecretNotSet: string := "environment variable GITHUB_CLIENT_SECRET not set"
  const ScopeMissing: string := "user:email scope not available"

  /** `searchParams.get(name)`: the value of the first pair with that name. */
  function FirstValue(query: SearchParams, name: string): Option<string> {
    if query == [] then None
    else if query[0].0 == name then Some(query[0].1)
    else FirstValue(query[1..], name)
  }

  /** `get` finds a value exactly when `has` holds, and it is the first pair's with that name. */
  lemma {:induction false} FirstValueIsFirst(query: SearchParams, name: string)
    ensures FirstValue(query, name).Some? <==> Has(query, name)
    ensures FirstValue(query, name).Some? ==>
              exists i :: 0 <= i < |query| && query[i] == (name, FirstValue(query, name).value) &&
                          forall j :: 0 <= j < i ==> query[j].0 != name
  {
    if query != [] && query[0].0 != name {
      var rest := query[1..];
      FirstValueIsFirst(rest, name);
      if Has(query, name) {
        var i :| 0 <= i < |query| && query[i].0 == name;
        assert rest[i - 1] == query[i];
      }
      if FirstValue(rest, name).Some? {
        var v := FirstValue(rest, name).value;
        var i :| 0 <= i < |rest| && rest[i] == (name, v) && forall j :: 0 <= j < i ==> rest[j].0 != name;
        assert query[i + 1] == (name, v);
        forall j | 0 <= j < i + 1 ensures query[j].0 != name {
          if j > 0 { assert query[j] == rest[j - 1]; }
        }
      }
    }
  }

  /**
   * `getGHAcessToken(code)` given GitHub's reply to that code: both client
   * credentials are required before GitHub is asked; an error GitHub reports
   * comes back as its description, with neither access token nor scope.
   */
  function GetAccessToken(env: Env, reply: GrantReply): (r: Call<Grant>)
    ensures !Truthy(env.githubClientId) ==> r == Threw(ClientIdNotSet)
    ensures Truthy(env.githubClientId) && !Truthy(env.githubClientSecret) ==> r == Threw(ClientSecretNotSet)
    // with both credentials set, a reply body is returned and a failed exchange throws its message
    ensures Truthy(env.githubClientId) && Truthy(env.githubClientSecret) ==> (r.Returned? <==> reply.GrantBody?)
    ensures Truthy(env.githubClientId) && Truthy(env.githubClientSecret) && reply.GrantFailed? ==>
              r == Threw(reply.message)
    ensures r.Returned? ==> reply.GrantBody?
    ensures r.Returned? && reply.error != "" ==> r.value == Grant("", reply.errorDescription, "")
    ensures r.Returned? && reply.error == "" ==>
              r.value == Grant(reply.accessToken, "", reply.scope)
  {
    if !Truthy(env.githubClientId) then Threw(ClientIdNotSet)
    else if !Truthy(env.githubClientSecret) then Threw(ClientSecretNotSet)
    else
      match reply
      case GrantFailed(message) => Threw(message)
      case GrantBody(error, description, accessToken, scope) =>
        if error != "" then Returned(Grant("", description, "")) else Returned(Grant(accessToken, "", scope))
  }

  /** `getGHUserInfo`: GitHub's `login` becomes the username, `avatar_url` the avatar. */
  function UserInfo(reply: ProfileReply): (r: Call<Profile>)
    ensures r.Returned? <==> reply.ProfileBody?
    ensures r.Returned? ==>
              r.value.username == reply.login && r.value.avatar == reply.avatarUrl &&
              r.value.name == reply.name && r.value.email == reply.email
  {
    match reply
    case ProfileFailed(message) => Threw(message)
    case ProfileBody(login, name, email, avatarUrl) => Returned(Profile(name, email, login, avatarUrl))
  }

  /** The header `create` is given: HS512, JWT. */
  const TokenHeader: JoseHeader := JoseHeader("HS512", "JWT")

  /**
   * The end of the handler (api/token.ts:85-99): without a signing secret it
   * throws, caught as a 500; otherwise `{token}` signed with the secret over
   * the claims `{userId, username}` of the user found or created.
   */
  function IssueToken(jwtSecret: Option<string>, user: User): (r: Response)
    ensures r.status == Ok <==> Truthy(jwtSecret)
    ensures r.status == Ok ==>
              r.body == TokenField(Jwt(TokenHeader, Claims(user.id, user.profile.username), jwtSecret.value))
    ensures !Truthy(jwtSecret) ==> r == Response(ServerError, ErrorField(SecretNotSet), [])
  {
    if !Truthy(jwtSecret) then Response(ServerError, ErrorField(SecretNotSet), [])
    else Json(TokenField(Jwt(TokenHeader, Claims(user.id, user.profile.username), jwtSecret.value)))
  }

  function TokenPreflightHeaders(): seq<(string, string)> {
    [("Access-Control-Allow-Origin", "*"), ("Access-Control-Allow-Methods", "GET, OPTIONS")]
  }

  /** The request passed validation and is not a pre-flight: GitHub is asked. */
  predicate Exchanges(req: TokenRequest) {
    ValidateRequest(req.verb, req.query, TokenTerms) == Pass && req.verb != "OPTIONS"
  }

  /** The grant GitHub gives for the request's code, after the credential checks. */
  function GrantOf(req: TokenRequest, env: Env, grantFor: string -> GrantReply): Call<Grant>
    requires Exchanges(req)
  {
    FirstValueIsFirst(req.query, "code");
    GetAccessToken(env, grantFor(FirstValue(req.query, "code").value))
  }

  /** GitHub granted a token that carries the "email" scope. */
  predicate GrantUsable(req: TokenRequest, env: Env, grantFor: string -> GrantReply) {
    Exchanges(req) &&
    var grant := GrantOf(req, env, grantFor);
    grant.Returned? && grant.value.error == "" && Contains(grant.value.scope, "email")
  }

  /**
   * The handler's last steps once GitHub's profile is known (api/token.ts:66-99):
   * the user is looked up by username and created when the lookup gives
   * nothing; a failed creation is a 500 with the store's message; otherwise
   * the session token is issued for the user found or created.
   */
  method SignIn(profile: Profile, jwtSecret: Option<string>, lookupFails: bool,
                createFault: Option<string>, createdAt: string, db: Db)
    returns (resp: Response, db': Db)
    requires Valid(db)
    ensures Valid(db')
    ensures match FindUser(db, profile.username, lookupFails)
            case Some(user) => resp == IssueToken(jwtSecret, user) && db' == db
            case None =>
              var created := CreateUser(db, profile, createdAt, createFault);
              match created.reply
              case Error(message) => resp == Response(ServerError, ErrorField(message), []) && db' == db
              // the user is stored before the secret is checked
              case Data(user) => resp == IssueToken(jwtSecret, user) && db' == created.db
    ensures db' != db ==> profile.username !in db.users && db'.users.Keys == db.users.Keys + {profile.username}
    ensures forall u :: u in db.users ==> u in db'.users && db'.users[u] == db.users[u]
  {
    db' := db;
    var user: User;
    var found := FindUser(db, profile.username, lookupFails);
    if found.Some? {
      user := found.value;
    } else {
      var created := CreateUser(db, profile, createdAt, createFault);
      if created.reply.Error? {
        resp := Response(ServerError, ErrorField(created.reply.message), []);
        return;
      }
      user := created.reply.value;
      db' := created.db;
      assert db'.users.Keys == db.users.Keys + {profile.username};
    }
    resp := IssueToken(jwtSecret, user);
  }

  /**
   * `tokenHandler(request)` against the store `db`; `grantFor` is GitHub's
   * answer to a code, `profileFor` its answer to an access token,
   * `lookupFails` whether the user lookup returns no data, `createFault` the
   * error `createUser` reports, if any. Returns the response and the store
   * afterwards.
   */
  method TokenHandler(req: TokenRequest, env: Env, grantFor: string -> GrantReply,
                      profileFor: string -> ProfileReply, lookupFails: bool,
                      createFault: Option<string>, createdAt: string, db: Db)
    returns (resp: Response, db': Db)
    requires Valid(db)
    ensures Valid(db')
    // validation runs first, pre-flights included; what it throws is caught into a 500
    ensures ValidateRequest(req.verb, req.query, TokenTerms).Fail? ==>
              resp == Response(ServerError, ErrorField(ValidateRequest(req.verb, req.query, TokenTerms).message), []) &&
              db' == db
    ensures ValidateRequest(req.verb, req.query, TokenTerms) == Pass && req.verb == "OPTIONS" ==>
              resp == Response(Ok, EmptyObject, TokenPreflightHeaders()) && db' == db
    // a missing credential or a failed exchange: a 500 with the thrown message
    ensures Exchanges(req) && GrantOf(req, env, grantFor).Threw? ==>
              resp == Response(ServerError, ErrorField(GrantOf(req, env, grantFor).message), []) && db' == db
    // GitHub's own error: a 400 carrying it
    ensures Exchanges(req) && GrantOf(req, env, grantFor).Returned? && GrantOf(req, env, grantFor).value.error != "" ==>
              resp == Response(BadRequest, ErrorField(GrantOf(req, env, grantFor).value.error), []) && db' == db
    // no "email" in the granted scope: a 400, and no user is created
    ensures Exchanges(req) && GrantOf(req, env, grantFor).Returned? && GrantOf(req, env, grantFor).value.error == "" &&
            !Contains(GrantOf(req, env, grantFor).value.scope, "email") ==>
              resp == Response(BadRequest, ErrorField(ScopeMissing), []) && db' == db
    // a usable grant: the profile for its access token, then find or create the user
    ensures GrantUsable(req, env, grantFor) ==>
              match UserInfo(profileFor(GrantOf(req, env, grantFor).value.accessToken))
              case Threw(message) => resp == Response(ServerError, ErrorField(message), []) && db' == db
              case Returned(profile) =>
                match FindUser(db, profile.username, lookupFails)
                case Some(user) => resp == IssueToken(env.jwtSecret, user) && db' == db
                case None =>
                  var created := CreateUser(db, profile, createdAt, createFault);
                  match created.reply
                  case Error(message) => resp == Response(ServerError, ErrorField(message), []) && db' == db
                  // the user is stored before the secret is checked
                  case Data(user) => resp == IssueToken(env.jwtSecret, user) && db' == created.db
    // users are only ever added, at most one, and only once the grant is usable
    ensures db' != db ==> GrantUsable(req, env, grantFor) && |db'.users.Keys| == |db.users.Keys| + 1
    ensures forall u :: u in db.users ==> u in db'.users && db'.users[u] == db.users[u]
  {
    db' := db;
    var validation := ValidateRequest(req.verb, req.query, TokenTerms);
    if validation.Fail? {
      resp := Response(ServerError, ErrorField(validation.message), []);
      return;
    }

    if req.verb == "OPTIONS" {
      resp := Response(Ok, EmptyObject, TokenPreflightHeaders());
      return;
    }

    FirstValueIsFirst(req.query, "code");
    var code := FirstValue(req.query, "code").value;
    var grant := GetAccessToken(env, grantFor(code));
    if grant.Threw? {
      resp := Response(ServerError, ErrorField(grant.message), []);
      return;
    }
    if grant.value.error != "" {
      resp := Response(BadRequest, ErrorField(grant.value.error), []);
      return;
    }
    if !Contains(grant.value.scope, "email") {
      resp := Response(BadRequest, ErrorField(ScopeMissing), []);
      return;
    }

    var info := UserInfo(profileFor(grant.value.accessToken));
    if info.Threw? {
      resp := Response(ServerError, ErrorField(info.message), []);
      return;
    }
    resp, db' := SignIn(info.value, env.jwtSecret, lookupFails, createFault, createdAt, db);
    if db' != db {
      assert |db'.users.Keys| == |db.users.Keys| + 1;
    }
  }

  /** A pre-flight without `?code=` fails validation: a 500 naming the missing parameter. */
  lemma PreflightWithoutCodeFails(query: SearchParams)
    requires !Has(query, "code")
    ensures ValidateRequest("OPTIONS", query, TokenTerms) == Fail(ParamRequired("code"))
  {
    assert TokenTerms.allowedMethods[1] == "OPTIONS";
    assert FirstMissing(TokenTerms.params, query, 0) == Some(0);
  }

  /** A reported error without a description has no message: the scope check then refuses it. */
  lemma ErrorWithoutDescriptionFailsScope(env: Env, error: string, accessToken: string, scope: string)
    requires Truthy(env.githubClientId) && Truthy(env.githubClientSecret) && error != ""
    ensures GetAccessToken(env, GrantBody(error, "", accessToken, scope)) == Returned(Grant("", "", ""))
    ensures !Contains("", "email")
  {
  }
}
