/** The client side: what runs behind the authorization of a gRPC or HTTP request. */
module Interceptor {
  import opened Wrappers
  import opened Lists
  import opened Records
  import opened Indexes
  import opened KubernetesEnvs
  import opened Decision
  import opened Reference
  import opened Guarantees
  import opened Interleaving

  datatype UserInfo = UserInfo(
    userID: string,
    internalUserID: string,
    organizationID: string,
    organizationTitle: string,
    projectID: string,
    projectTitle: string,
    assignedKubernetesEnvs: seq<Env>,
    tenantID: string,
    apiKeyID: string,
    excludedFromRateLimiting: bool)

  datatype Code = MissingMetadata | Unauthenticated | PermissionDenied | InternalError

  /** What becomes of a call. The handler sees the user information of an authorized call, if there is any. */
  datatype Outcome =
    | Handled(info: Option<UserInfo>)
    | Refused(code: Code)
    | Panicked

  /** All three messages that the user information is copied from are there. */
  predicate Complete(r: Response) {
    r.user.Some? && r.organization.Some? && r.project.Some?
  }

  /** The user information of a response; copying it from a message that is not set panics. */
  function UserInfoOf(r: Response): Option<UserInfo> {
    if Complete(r) then
      Some(UserInfo(r.user.value.id, r.user.value.internalID,
                    r.organization.value.id, r.organization.value.title,
                    r.project.value.id, r.project.value.title, r.project.value.assignedKubernetesEnvs,
                    r.tenantID, r.apiKeyID, r.excludedFromRateLimiting))
    else None
  }

  method NewUserInfoFromAuthorizeResponse(r: Response) returns (info: Option<UserInfo>)
    ensures info == UserInfoOf(r)
  {
    if r.project.None? {
      return None;
    }
    var envs: seq<Env> := [];
    var from := r.project.value.assignedKubernetesEnvs;
    for i := 0 to |from|
      invariant envs == from[..i]
    {
      envs := envs + [Env(from[i].clusterID, from[i].clusterName, from[i].namespace)];
    }
    assert from[..|from|] == from;
    if r.user.None? || r.organization.None? {
      return None;
    }
    info := Some(UserInfo(r.user.value.id, r.user.value.internalID,
                          r.organization.value.id, r.organization.value.title,
                          r.project.value.id, r.project.value.title, envs,
                          r.tenantID, r.apiKeyID, r.excludedFromRateLimiting));
  }

  // Reading a request.

  type Headers = map<string, seq<string>>

  function FirstValue(headers: Headers, name: string): Option<string> {
    var values := Slice(headers, name);
    if values == [] then None else Some(values[0])
  }

  function ValueOrEmpty(v: Option<string>): string {
    match v
    case Some(s) => s
    case None => ""
  }

  function TrimBearer(s: string): string {
    if "Bearer " <= s then s[|"Bearer "|..] else s
  }

  /** The part of a full method name after its last slash. */
  function MethodOf(fullMethod: string): string {
    if fullMethod == "" then ""
    else
      var n := |fullMethod| - 1;
      if fullMethod[n] == '/' then "" else MethodOf(fullMethod[..n]) + [fullMethod[n]]
  }

  function CapabilityOf(fullMethod: string): string {
    if "Get" <= MethodOf(fullMethod) || "List" <= MethodOf(fullMethod) then "read" else "write"
  }

  /** The request that the interceptor sends for a call, once it has a token. */
  function RequestFor(headers: Headers, fullMethod: string, resource: string): Request {
    Request(
      TrimBearer(ValueOrEmpty(FirstValue(headers, "authorization"))),
      resource,
      CapabilityOf(fullMethod),
      ValueOrEmpty(FirstValue(headers, "openai-organization")),
      ValueOrEmpty(FirstValue(headers, "openai-project")))
  }

  lemma {:induction false} MethodIsLastComponent(fullMethod: string)
    ensures exists before ::
              fullMethod == before + MethodOf(fullMethod) && '/' !in MethodOf(fullMethod)
              && (before == "" || before[|before| - 1] == '/')
  {
    if fullMethod == "" {
      assert fullMethod == "" + MethodOf(fullMethod);
    } else {
      var n := |fullMethod| - 1;
      assert fullMethod == fullMethod[..n] + [fullMethod[n]];
      if fullMethod[n] == '/' {
        assert fullMethod == fullMethod + MethodOf(fullMethod);
      } else {
        MethodIsLastComponent(fullMethod[..n]);
        var before :| fullMethod[..n] == before + MethodOf(fullMethod[..n])
                      && (before == "" || before[|before| - 1] == '/');
        assert fullMethod == before + MethodOf(fullMethod);
      }
    }
  }

  // What is read, in terms of the raw headers and the full method name.

  /** The first value of a header, or nothing when it has none. */
  ghost predicate HeaderIs(headers: Headers, name: string, value: string) {
    if name in headers && |headers[name]| > 0 then value == headers[name][0] else value == ""
  }

  /** A token is an authorization without "Bearer " in front, if that is in front. */
  ghost predicate TokenIs(authorization: string, token: string) {
    authorization == "Bearer " + token || (token == authorization && forall rest :: authorization != "Bearer " + rest)
  }

  /** What comes after the last slash. */
  ghost predicate MethodIs(fullMethod: string, name: string) {
    && '/' !in name
    && exists before :: fullMethod == before + name && (before == "" || before[|before| - 1] == '/')
  }

  lemma MethodSnoc(s: string, c: char)
    ensures MethodOf(s + [c]) == if c == '/' then "" else MethodOf(s) + [c]
  {
    assert (s + [c])[..|s|] == s;
  }

  lemma {:induction false} OneMethod(before: string, name: string)
    requires '/' !in name && (before == "" || before[|before| - 1] == '/')
    ensures MethodOf(before + name) == name
  {
    if name == "" {
      assert before + name == before;
    } else {
      var n := |name| - 1;
      ConcatSnoc(before, name);
      OneMethod(before, name[..n]);
      MethodSnoc(before + name[..n], name[n]);
      assert name == name[..n] + [name[n]];
    }
  }

  lemma TokenRead(authorization: string)
    ensures TokenIs(authorization, TrimBearer(authorization))
  {
    var bearer := "Bearer ";
    if bearer <= authorization {
      assert authorization == bearer + authorization[|bearer|..];
    }
  }

  lemma HeaderRead(headers: Headers, name: string)
    ensures HeaderIs(headers, name, ValueOrEmpty(FirstValue(headers, name)))
    ensures FirstValue(headers, name).Some? <==> name in headers && |headers[name]| > 0
  {
  }

  /** The request sent for a call. */
  lemma RequestRead(headers: Headers, fullMethod: string, resource: string)
    ensures var req := RequestFor(headers, fullMethod, resource);
            && HeaderIs(headers, "openai-organization", req.organizationID)
            && HeaderIs(headers, "openai-project", req.projectID)
            && (exists v :: HeaderIs(headers, "authorization", v) && TokenIs(v, req.token))
            && req.accessResource == resource
            && req.capability in {"read", "write"}
            && (req.capability == "read"
                <==> exists name :: MethodIs(fullMethod, name) && ("Get" <= name || "List" <= name))
  {
    HeaderRead(headers, "openai-organization");
    HeaderRead(headers, "openai-project");
    HeaderRead(headers, "authorization");
    var v := ValueOrEmpty(FirstValue(headers, "authorization"));
    TokenRead(v);
    assert HeaderIs(headers, "authorization", v) && TokenIs(v, TrimBearer(v));
    MethodIsLastComponent(fullMethod);
    assert MethodIs(fullMethod, MethodOf(fullMethod));
    forall name | MethodIs(fullMethod, name) ensures name == MethodOf(fullMethod) {
      var before :| fullMethod == before + name && (before == "" || before[|before| - 1] == '/');
      OneMethod(before, name);
    }
  }

  /** The request sent for an HTTP request. */
  lemma HTTPRequestRead(httpMethod: string, resource: string, headers: Headers)
    ensures var req := HTTPRequestFor(httpMethod, resource, headers);
            && HeaderIs(headers, "Openai-Organization", req.organizationID)
            && HeaderIs(headers, "Openai-Project", req.projectID)
            && (exists v :: HeaderIs(headers, "Authorization", v) && TokenIs(v, req.token))
            && req.accessResource == resource
            && req.capability in {"read", "write"} && (req.capability == "read" <==> httpMethod == "GET")
  {
    HeaderRead(headers, "Openai-Organization");
    HeaderRead(headers, "Openai-Project");
    HeaderRead(headers, "Authorization");
    var v := ValueOrEmpty(FirstValue(headers, "Authorization"));
    TokenRead(v);
    assert HeaderIs(headers, "Authorization", v) && TokenIs(v, TrimBearer(v));
  }

  type Client = Request -> Result<Response, StatusError>

  /** What a response to the authorization request makes of the call. */
  function Judge(answer: Result<Response, StatusError>): Outcome {
    match answer
    case Err(_) => Refused(InternalError)
    case Ok(r) =>
      if !r.authorized then Refused(PermissionDenied)
      else match UserInfoOf(r)
        case Some(info) => Handled(Some(info))
        case None => Panicked
  }

  // With an answer that an interleaved request gets from the server.

  /** An authorizing response is complete, whatever generations of the cache its reads saw. */
  lemma {:induction false} AuthorizedIsComplete(c: Call, views: seq<Index>)
    requires Replay(c, views).Done? && Replay(c, views).result.Ok? && Replay(c, views).result.value.authorized
    ensures Complete(Replay(c, views).result.value)
  {
    if views != [] {
      var before := views[..|views| - 1];
      if Replay(c, before).Done? {
        AuthorizedIsComplete(c, before);
      }
    }
  }

  ghost predicate ServedBy(c: Call, views: seq<Index>, answer: Result<Response, StatusError>) {
    Replay(c, views) == Done(answer)
  }

  ghost predicate ServedFor(client: Client, req: Request) {
    exists c: Call, views :: c.req == req && ServedBy(c, views, client(req))
  }

  /** Every answer of the client is what the server gives that request, with whatever its reads see. */
  ghost predicate Served(client: Client) {
    forall req: Request :: ServedFor(client, req)
  }

  lemma ServedIsComplete(client: Client, req: Request)
    requires Served(client)
    ensures client(req).Ok? && client(req).value.authorized ==> Complete(client(req).value)
    ensures Judge(client(req)) != Panicked
  {
    assert ServedFor(client, req);
    var c: Call, views :| c.req == req && ServedBy(c, views, client(req));
    if client(req).Ok? && client(req).value.authorized {
      AuthorizedIsComplete(c, views);
    }
  }

  /** The request that the interceptor sends for an HTTP request, once it has a token. */
  function HTTPRequestFor(httpMethod: string, resource: string, headers: Headers): Request {
    Request(
      TrimBearer(ValueOrEmpty(FirstValue(headers, "Authorization"))),
      resource,
      if httpMethod == "GET" then "read" else "write",
      ValueOrEmpty(FirstValue(headers, "Openai-Organization")),
      ValueOrEmpty(FirstValue(headers, "Openai-Project")))
  }

  class AuthInterceptor {
    const client: Client
    const accessResource: string -> string

    constructor (client: Client, accessResource: string -> string)
      ensures this.client == client && this.accessResource == accessResource
    {
      this.client := client;
      this.accessResource := accessResource;
    }

    /** What becomes of a call with these headers that is not excluded. */
    function Answered(fullMethod: string, headers: Headers): Outcome {
      if FirstValue(headers, "authorization").None? then Refused(Unauthenticated)
      else Judge(client(RequestFor(headers, fullMethod, accessResource(fullMethod))))
    }

    /** One unary call: `metadata` is what came with it, if anything did. A client of the server never panics. */
    method Unary(excludeMethods: seq<string>, fullMethod: string, metadata: Option<Headers>) returns (r: Outcome)
      ensures fullMethod in excludeMethods ==> r == Handled(None)
      ensures fullMethod !in excludeMethods ==>
                r == if metadata.Some? then Answered(fullMethod, metadata.value) else Refused(MissingMetadata)
      ensures fullMethod !in excludeMethods && metadata.Some? && FirstValue(metadata.value, "authorization").Some? ==>
                var answer := client(RequestFor(metadata.value, fullMethod, accessResource(fullMethod)));
                && (r == Refused(InternalError) <==> answer.Err?)
                && (r == Refused(PermissionDenied) <==> answer.Ok? && !answer.value.authorized)
                && (r.Handled? ==> r.info == UserInfoOf(answer.value))
      ensures Served(client) ==> r != Panicked
    {
      for i := 0 to |excludeMethods|
        invariant fullMethod !in excludeMethods[..i]
      {
        if excludeMethods[i] == fullMethod {
          return Handled(None);
        }
      }
      assert excludeMethods[..|excludeMethods|] == excludeMethods;
      if metadata.None? {
        return Refused(MissingMetadata);
      }
      var authorization := FirstValue(metadata.value, "authorization");
      if authorization.None? {
        return Refused(Unauthenticated);
      }
      var token := TrimBearer(authorization.value);
      var name := MethodOf(fullMethod);
      var capability := "write";
      if "Get" <= name || "List" <= name {
        capability := "read";
      }
      var orgID := ValueOrEmpty(FirstValue(metadata.value, "openai-organization"));
      var projectID := ValueOrEmpty(FirstValue(metadata.value, "openai-project"));
      var req := Request(token, accessResource(fullMethod), capability, orgID, projectID);
      if Served(client) {
        ServedIsComplete(client, req);
      }
      var answer := client(req);
      if answer.Err? {
        return Refused(InternalError);
      }
      if !answer.value.authorized {
        return Refused(PermissionDenied);
      }
      var info := NewUserInfoFromAuthorizeResponse(answer.value);
      if info.None? {
        return Panicked;
      }
      r := Handled(info);
    }

    /**
     One HTTP request: the status code, with the user information when it is authorized; nothing if it panics, which
     it does not with a client of the server.
     */
    method InterceptHTTPRequest(httpMethod: string, resource: string, headers: Headers)
      returns (r: Option<(int, Option<UserInfo>)>)
      ensures var token, answer := FirstValue(headers, "Authorization"),
                                   client(HTTPRequestFor(httpMethod, resource, headers));
              && (r.Some? && r.value.0 == 200 <==> token.Some? && Judge(answer).Handled?)
              && (r.Some? && r.value.0 == 500 <==> token.Some? && answer.Err?)
              && (r.Some? && r.value.0 == 401 <==> token.None? || Judge(answer) == Refused(PermissionDenied))
              && (r.Some? ==> r.value.0 in {200, 401, 500})
              && (r.Some? && r.value.1.Some? <==> r.Some? && r.value.0 == 200)
              && (r.Some? && r.value.1.Some? ==> r.value.1 == UserInfoOf(answer.value))
      ensures Served(client) ==> r.Some?
    {
      var authorization := FirstValue(headers, "Authorization");
      if authorization.None? {
        return Some((401, None));
      }
      var capability := "write";
      if httpMethod == "GET" {
        capability := "read";
      }
      var req := Request(TrimBearer(authorization.value), resource, capability,
                         ValueOrEmpty(FirstValue(headers, "Openai-Organization")),
                         ValueOrEmpty(FirstValue(headers, "Openai-Project")));
      if Served(client) {
        ServedIsComplete(client, req);
      }
      var answer := client(req);
      if answer.Err? {
        return Some((500, None));
      }
      if !answer.value.authorized {
        return Some((401, None));
      }
      var info := NewUserInfoFromAuthorizeResponse(answer.value);
      if info.None? {
        return None;
      }
      r := Some((200, info));
    }
  }

  // End to end, with a client that is answered from one content of the cache.

  /** Introspection of a token. */
  type Introspector = string -> Introspection

  /** The client of a server whose cache holds the index of these lists. */
  ghost predicate AnswersFrom(client: Client, up: Upstream, config: Config, introspect: Introspector) {
    forall req: Request :: client(req) == Decide(IndexOf(up), config, req, introspect(req.token))
  }

  /** Such a client is one of the server's. */
  lemma AnswersFromIsServed(client: Client, up: Upstream, config: Config, introspect: Introspector)
    requires AnswersFrom(client, up, config, introspect)
    ensures Served(client)
  {
    forall req: Request ensures ServedFor(client, req) {
      var c, idx := Call(config, req, introspect(req.token)), IndexOf(up);
      var views := seq(ReadsLeft(c, Start(c), idx), _ => idx);
      AtomicFinishes(c, idx, views);
      assert ServedBy(c, views, client(req));
    }
  }

  /** The roles of an API key allow the scope on its project, which is listed with its organization. */
  ghost predicate KeyGrants(up: Upstream, config: Config, scope: string, k: APIKey) {
    && ProjectNamed(up.projects, k.projectID).Some?
    && TenantOf(up.organizations, k.organizationID).Some?
    && Permitted(config, scope, k.organizationRole, k.projectRole)
  }

  /** A user is known, and the resource is left to the handler or the user's roles on the selected project grant it. */
  ghost predicate UserGrants(up: Upstream, config: Config, req: Request, userID: string) {
    if NotProjectScoped(req) then UserTenant(up, userID).Some?
    else
      var p := SelectListed(up, req, userID);
      p.Some? && Grants(up, config, ToScope(req), userID, p.value)
  }

  /** What the raw lists say about a request. */
  ghost predicate Allowed(up: Upstream, config: Config, introspect: Introspector, req: Request) {
    MissingArgument(req).None? &&
    match LastWith(up.apiKeys, SecretOf, req.token)
    case Some(k) => KeyGrants(up, config, ToScope(req), k)
    case None =>
      var answer := introspect(req.token);
      answer.Active? && UserGrants(up, config, req, config.normalize(answer.email))
  }

  lemma UserAllowed(up: Upstream, config: Config, req: Request, userID: string)
    requires Accepted(up)
    ensures DecideUser(IndexOf(up), config, req, userID).authorized <==> UserGrants(up, config, req, userID)
    ensures DecideUser(IndexOf(up), config, req, userID).authorized ==>
              Complete(DecideUser(IndexOf(up), config, req, userID))
  {
    if NotProjectScoped(req) {
      UserRead(up, userID);
      if FirstWith(up.organizationUsers, OrganizationMemberOf, userID).Some? {
        var i := FirstWithAt(up.organizationUsers, OrganizationMemberOf, userID);
        assert OrganizationListed(up, i);
      }
    } else {
      AuthorizedExactly(up, config, req, userID);
    }
  }

  lemma KeyAllowed(up: Upstream, config: Config, req: Request, k: APIKey)
    ensures var r := DecideKey(IndexOf(up), config, req, ToK(k));
            (r.authorized <==> KeyGrants(up, config, ToScope(req), k)) && (r.authorized ==> Complete(r))
  {
    KeyRefinement(up, config, req, k);
  }

  lemma DecisionAllowed(up: Upstream, config: Config, introspect: Introspector, req: Request)
    requires Accepted(up)
    ensures Judge(Decide(IndexOf(up), config, req, introspect(req.token))).Handled?
       <==> Allowed(up, config, introspect, req)
  {
    KeyRead(up, req.token);
    match LastWith(up.apiKeys, SecretOf, req.token)
    case Some(k) => KeyAllowed(up, config, req, k);
    case None =>
      var answer := introspect(req.token);
      if answer.Active? {
        UserAllowed(up, config, req, config.normalize(answer.email));
      }
  }

  /**
   A call that is not excluded reaches the handler exactly when it has a token and the lists allow the request read
   from its headers, whose scope is the method's resource and capability.
   */
  lemma HandlerRunsExactly(
    a: AuthInterceptor, up: Upstream, config: Config, introspect: Introspector, fullMethod: string, headers: Headers)
    requires Accepted(up) && AnswersFrom(a.client, up, config, introspect)
    ensures var req := RequestFor(headers, fullMethod, a.accessResource(fullMethod));
            && ToScope(req) == a.accessResource(fullMethod) + "." + CapabilityOf(fullMethod)
            && (a.Answered(fullMethod, headers).Handled?
                <==> FirstValue(headers, "authorization").Some? && Allowed(up, config, introspect, req))
  {
    DecisionAllowed(up, config, introspect, RequestFor(headers, fullMethod, a.accessResource(fullMethod)));
  }

  /** The handler of a call with an API key sees what the key record and the listed project have. */
  ghost predicate SeesKey(up: Upstream, k: APIKey, info: UserInfo) {
    && info.userID == k.userID && info.internalUserID == k.internalUserID && info.apiKeyID == k.id
    && info.organizationID == k.organizationID && info.organizationTitle == TitleOf(up, k.organizationID)
    && info.projectID == k.projectID && info.tenantID == k.tenantID
    && info.excludedFromRateLimiting == k.excludedFromRateLimiting
    && LastProject(up, k.projectID).Some?
    && var p := LastProject(up, k.projectID).value;
       && info.projectTitle == p.title
       && info.assignedKubernetesEnvs == Envs(p.kubernetesNamespace, p.assignments, ListedClusters(up, k.tenantID))
  }

  /** The handler of a user's call sees that user and its tenant. */
  ghost predicate SeesUser(up: Upstream, userID: string, info: UserInfo) {
    && info.userID == userID && info.apiKeyID == "" && !info.excludedFromRateLimiting
    && UserTenant(up, userID) == Some(info.tenantID)
    && exists i: nat :: FirstListed(up, i, userID) && info.internalUserID == up.organizationUsers[i].internalUserID
  }

  /** On a project-scoped resource also the selected project with its organization, which is of that tenant. */
  ghost predicate SeesProject(up: Upstream, req: Request, info: UserInfo) {
    && SelectListed(up, req, info.userID).Some?
    && var p := SelectListed(up, req, info.userID).value;
       && info.projectID == p.id && info.projectTitle == p.title
       && info.organizationID == p.organizationID && info.organizationTitle == TitleOf(up, p.organizationID)
       && TenantOf(up.organizations, p.organizationID) == Some(info.tenantID)
       && info.assignedKubernetesEnvs == Envs(p.kubernetesNamespace, p.assignments, ListedClusters(up, info.tenantID))
  }

  /** On other resources no organization and no project. */
  ghost predicate SeesNoProject(info: UserInfo) {
    && info.organizationID == "" && info.organizationTitle == ""
    && info.projectID == "" && info.projectTitle == "" && info.assignedKubernetesEnvs == []
  }

  lemma UserSeen(up: Upstream, config: Config, req: Request, userID: string)
    requires Accepted(up) && DecideUser(IndexOf(up), config, req, userID).authorized
    requires UserInfoOf(DecideUser(IndexOf(up), config, req, userID)).Some?
    ensures var info := UserInfoOf(DecideUser(IndexOf(up), config, req, userID)).value;
            && SeesUser(up, userID, info)
            && (if NotProjectScoped(req) then SeesNoProject(info) else SeesProject(up, req, info))
  {
    var i := UserAnswer(up, config, req, userID);
    TenantIsolation(up, config, req, userID);
    UserRefinement(up, config, req, userID);
    NotProjectScopedMeans(req);
  }

  /** The handler of a call sees exactly this, on both paths and for both kinds of resource. */
  lemma HandlerSees(
    a: AuthInterceptor, up: Upstream, config: Config, introspect: Introspector, fullMethod: string, headers: Headers)
    requires Accepted(up) && AnswersFrom(a.client, up, config, introspect)
    requires a.Answered(fullMethod, headers).Handled?
    ensures a.Answered(fullMethod, headers).info.Some?
    ensures var req := RequestFor(headers, fullMethod, a.accessResource(fullMethod));
            var info := a.Answered(fullMethod, headers).info.value;
            var key := LastWith(up.apiKeys, SecretOf, req.token);
            if key.Some? then SeesKey(up, key.value, info)
            else
              && introspect(req.token).Active?
              && SeesUser(up, config.normalize(introspect(req.token).email), info)
              && (if NotProjectScoped(req) then SeesNoProject(info) else SeesProject(up, req, info))
  {
    var req := RequestFor(headers, fullMethod, a.accessResource(fullMethod));
    var key := LastWith(up.apiKeys, SecretOf, req.token);
    KeyRead(up, req.token);
    if key.Some? {
      KeyRefinement(up, config, req, key.value);
    } else {
      UserSeen(up, config, req, config.normalize(introspect(req.token).email));
    }
  }

  lemma NoKey(up: Upstream, token: string)
    requires forall k | k in up.apiKeys :: k.secret != token
    ensures LastWith(up.apiKeys, SecretOf, token).None?
  {
    assert forall i | 0 <= i < |up.apiKeys| :: up.apiKeys[i] in up.apiKeys && SecretOf(up.apiKeys[i]) != token;
  }

  lemma SelectedAsNamed(up: Upstream, req: Request, userID: string)
    requires req.projectID != "" && SelectListed(up, req, userID).Some?
    ensures SelectListed(up, req, userID).value.id == req.projectID
    ensures req.organizationID != "" ==> SelectListed(up, req, userID).value.organizationID == req.organizationID
  {
  }

  /** No listed API key has the token of the call as its secret. */
  ghost predicate NotAKey(up: Upstream, headers: Headers) {
    forall k, v | k in up.apiKeys && HeaderIs(headers, "authorization", v) :: !TokenIs(v, k.secret)
  }

  /** A user's handled call on a project-scoped resource is about the project and the organization of its headers. */
  lemma HandlerSeesRequested(
    a: AuthInterceptor, up: Upstream, config: Config, introspect: Introspector, fullMethod: string, headers: Headers,
    p: string, o: string)
    requires Accepted(up) && AnswersFrom(a.client, up, config, introspect) && NotAKey(up, headers)
    requires a.Answered(fullMethod, headers).Handled? && !("api.organizations" <= a.accessResource(fullMethod))
    requires HeaderIs(headers, "openai-project", p) && HeaderIs(headers, "openai-organization", o) && p != ""
    ensures a.Answered(fullMethod, headers).info.Some?
    ensures a.Answered(fullMethod, headers).info.value.projectID == p
    ensures o != "" ==> a.Answered(fullMethod, headers).info.value.organizationID == o
  {
    var req := RequestFor(headers, fullMethod, a.accessResource(fullMethod));
    var v := ValueOrEmpty(FirstValue(headers, "authorization"));
    HeaderRead(headers, "openai-organization");
    HeaderRead(headers, "openai-project");
    HeaderRead(headers, "authorization");
    TokenRead(v);
    NoKey(up, req.token);
    HandlerSees(a, up, config, introspect, fullMethod, headers);
    SelectedAsNamed(up, req, a.Answered(fullMethod, headers).info.value.userID);
  }
}
