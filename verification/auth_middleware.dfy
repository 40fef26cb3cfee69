/** The request gate placed in front of protected routes: read the session
    token from the `token` cookie, verify it, resolve the user it names, then
    attach that user and hand over to the next handler, or reject with 401. */
module AuthMiddleware {
  import opened Common
  import opened UserStore

  const StatusUnauthorized := 401
  /** Status of a response no handler has set a status on. */
  const DefaultStatus := 200
  /** Name of the cookie carrying the session token. */
  const TokenCookie := "token"

  const MsgNotLoggedIn := "You are not login, please login"
  const MsgUserNotFound := "User not found"
  /** The error raised when the request has no parsed cookies at all. */
  const MsgNoCookies := "Cannot read properties of undefined (reading 'token')"

  /** The outcome of verifying a session token's signature and expiry: the user
      id the token carries, or the verifier's reason for refusing it. */
  datatype Verification = Verified(id: UserId) | Refused(reason: string)

  /** The part of an incoming request the gate reads: its parsed cookies, or
      `None` when no cookie parser has filled them in. */
  datatype Request = Request(cookies: Option<map<string, string>>)

  /** A visible side effect of the gate, in the order it happens. */
  datatype Effect = SetStatus(code: int) | AttachUser(user: UserRecord) | CallNext

  /** How a run of code ended: normally, or by raising an error with a message. */
  datatype Completion = Returned | Raised(message: string)

  /** The side effects of a run of the gate and how it ended. */
  datatype Run = Run(effects: seq<Effect>, completion: Completion)

  /** What the gate decides for a request: reject with a status and message,
      or continue to the protected handler with the resolved user. */
  datatype Decision = Reject(status: int, message: string) | Continue(user: UserRecord)

  /** The `token` cookie of a request whose cookies were parsed. */
  function CookieToken(jar: map<string, string>): Option<string> {
    if TokenCookie in jar then Some(jar[TokenCookie]) else None
  }

  /** The response status after the given effects: the last status set, or
      `default` when none was. */
  function FinalStatus(effects: seq<Effect>, default: int): (s: int)
    ensures (forall i :: 0 <= i < |effects| ==> !effects[i].SetStatus?) ==> s == default
    ensures (exists i :: 0 <= i < |effects| && effects[i].SetStatus?) ==>
      exists i :: 0 <= i < |effects| && effects[i] == SetStatus(s)
                  && forall j :: i < j < |effects| ==> !effects[j].SetStatus?
  {
    if effects == [] then default
    else if effects[|effects| - 1].SetStatus? then effects[|effects| - 1].code
    else
      var prefix := effects[..|effects| - 1];
      assert forall k :: 0 <= k < |prefix| ==> prefix[k] == effects[k];
      FinalStatus(prefix, default)
  }

  /** The body of the `try` block: each early exit sets a status (or not) and
      raises; the last step attaches the user and calls the next handler. */
  function TryBlock(req: Request, verify: string -> Verification, store: Store): Run {
    match req.cookies
    case None => Run([], Raised(MsgNoCookies))
    case Some(jar) =>
      var token := CookieToken(jar);
      if !Truthy(token) then
        Run([SetStatus(StatusUnauthorized)], Raised(MsgNotLoggedIn))
      else
        match verify(token.value)
        case Refused(reason) => Run([], Raised(reason))
        case Verified(id) =>
          if id !in store.users then
            Run([SetStatus(StatusUnauthorized)], Raised(MsgUserNotFound))
          else
            Run([AttachUser(store.users[id]), CallNext], Returned)
  }

  /** The gate: the `try` block, with every error it raises replaced by a
      401 status and the one generic message. */
  function Protect(req: Request, verify: string -> Verification, store: Store): (run: Run)
    ensures run.completion.Raised? ==>
      run.completion.message == MsgNotLoggedIn && FinalStatus(run.effects, DefaultStatus) == StatusUnauthorized
  {
    var inner := TryBlock(req, verify, store);
    match inner.completion
    case Returned => inner
    case Raised(_) => Run(inner.effects + [SetStatus(StatusUnauthorized)], Raised(MsgNotLoggedIn))
  }

  /** The gate's decision, stated directly: a request passes exactly when it
      carries a non-empty token cookie that verifies to the id of a stored user. */
  function Decide(req: Request, verify: string -> Verification, store: Store): (d: Decision)
    ensures d.Reject? ==> d == Reject(StatusUnauthorized, MsgNotLoggedIn)
  {
    var token := if req.cookies.Some? then CookieToken(req.cookies.value) else None;
    if !Truthy(token) then Reject(StatusUnauthorized, MsgNotLoggedIn)
    else
      match verify(token.value)
      case Refused(_) => Reject(StatusUnauthorized, MsgNotLoggedIn)
      case Verified(id) =>
        if id in store.users then Continue(store.users[id]) else Reject(StatusUnauthorized, MsgNotLoggedIn)
  }

  /** A run carries out a decision. A rejection raises the decision's message
      with its status as the final one, never attaches a user and never calls
      the next handler. A continuation returns normally after attaching the
      user and then calling the next handler exactly once, as its last act,
      without setting a status. */
  predicate Realizes(run: Run, d: Decision) {
    match d
    case Reject(status, message) =>
      && run.completion == Raised(message)
      && FinalStatus(run.effects, DefaultStatus) == status
      && multiset(run.effects)[CallNext] == 0
      && forall i :: 0 <= i < |run.effects| ==> !run.effects[i].AttachUser?
    case Continue(user) =>
      && run.completion == Returned
      && |run.effects| > 0
      && run.effects[|run.effects| - 1] == CallNext
      && multiset(run.effects)[CallNext] == 1
      && AttachUser(user) in run.effects[..|run.effects| - 1]
      && forall i :: 0 <= i < |run.effects| ==> !run.effects[i].SetStatus?
  }

  /** The gate carries out the decision `Decide` states, for every request,
      verifier and store. */
  lemma ProtectRealizesDecision(req: Request, verify: string -> Verification, store: Store)
    ensures Realizes(Protect(req, verify, store), Decide(req, verify, store))
  {
    var inner := TryBlock(req, verify, store);
    var run := Protect(req, verify, store);
    match inner.completion
    case Returned =>
      assert run.effects == [AttachUser(run.effects[0].user), CallNext];
    case Raised(_) =>
      assert forall i :: 0 <= i < |inner.effects| ==> inner.effects[i].SetStatus?;
      assert multiset(run.effects)[CallNext] == 0;
  }

  /** A request accepted by the gate reaches the next handler with the stored
      user named by its verified token; every other request is rejected with
      401 and the generic message. */
  lemma DecideAcceptsIff(req: Request, verify: string -> Verification, store: Store, user: UserRecord)
    ensures Decide(req, verify, store) == Continue(user) <==>
      exists token, id ::
        && req.cookies.Some? && CookieToken(req.cookies.value) == Some(token) && token != ""
        && verify(token) == Verified(id) && id in store.users && store.users[id] == user
  {
  }

  /** Without a parsed cookie jar, or without a non-empty `token` cookie, the
      gate rejects and never reaches the next handler. */
  lemma ProtectRejectsMissingToken(req: Request, verify: string -> Verification, store: Store)
    requires req.cookies.None? || !Truthy(CookieToken(req.cookies.value))
    ensures var run := Protect(req, verify, store);
      && run.completion == Raised(MsgNotLoggedIn)
      && FinalStatus(run.effects, DefaultStatus) == StatusUnauthorized
      && CallNext !in run.effects
  {
  }

  /** A token the verifier refuses is rejected with the generic message; the
      verifier's reason never reaches the response. */
  lemma ProtectHidesRefusalReason(req: Request, verify: string -> Verification, store: Store)
    requires req.cookies.Some? && Truthy(CookieToken(req.cookies.value))
    requires verify(CookieToken(req.cookies.value).value).Refused?
    ensures var run := Protect(req, verify, store);
      && run == Run([SetStatus(StatusUnauthorized)], Raised(MsgNotLoggedIn))
  {
  }

  /** A verified token whose id names no stored user: the `try` block raises
      "User not found", but the gate reports the generic message instead. */
  lemma ProtectMasksUserNotFound(req: Request, verify: string -> Verification, store: Store)
    requires req.cookies.Some? && Truthy(CookieToken(req.cookies.value))
    requires verify(CookieToken(req.cookies.value).value).Verified?
    requires verify(CookieToken(req.cookies.value).value).id !in store.users
    ensures TryBlock(req, verify, store).completion == Raised(MsgUserNotFound)
    ensures Protect(req, verify, store).completion == Raised(MsgNotLoggedIn)
  {
  }

  /** Every rejection looks the same to the client: whichever step failed, two
      rejected requests get the same final status and the same message. */
  lemma ProtectRejectionsIndistinguishable(
    req1: Request, verify1: string -> Verification, store1: Store,
    req2: Request, verify2: string -> Verification, store2: Store)
    requires Protect(req1, verify1, store1).completion.Raised?
    requires Protect(req2, verify2, store2).completion.Raised?
    ensures var r1 := Protect(req1, verify1, store1);
      var r2 := Protect(req2, verify2, store2);
      && r1.completion == r2.completion
      && FinalStatus(r1.effects, DefaultStatus) == FinalStatus(r2.effects, DefaultStatus)
  {
  }
}
