/** The registration handler: an ordered validator (presence, password
    length, email uniqueness) followed by an insert and a public projection. */
module UserController {
  import opened Common
  import opened UserStore

  const StatusBadRequest := 400
  const StatusCreated := 201
  /** Shortest accepted password, in UTF-16 code units. */
  const MinPasswordLength := 6

  const MsgMissingFields := "Please fill in all required fields"
  const MsgShortPassword := "Password must be have min 6 character"
  const MsgEmailTaken := "Email has already been registered!"

  /** The three body fields the handler reads; each may be missing. */
  datatype RegisterRequest = RegisterRequest(name: Option<string>, email: Option<string>, password: Option<string>)

  /** A JSON response body: an error message or the new user's public profile. */
  datatype ResponseBody = Message(text: string) | Profile(profile: PublicProfile)

  /** The status sent, the body sent and the store afterwards. */
  datatype RegisterResult = RegisterResult(status: int, body: ResponseBody, store: Store)

  /** All three fields are present and non-empty. */
  predicate FieldsPresent(req: RegisterRequest) {
    Truthy(req.name) && Truthy(req.email) && Truthy(req.password)
  }

  /** The record the handler creates for a request that passed validation. */
  function NewRecord(req: RegisterRequest): UserRecord
    requires FieldsPresent(req)
  {
    UserRecord(req.name.value, req.email.value, req.password.value, None, None)
  }

  function Reject(store: Store, message: string): RegisterResult {
    RegisterResult(StatusBadRequest, Message(message), store)
  }

  /** The registration handler. */
  function Register(store: Store, req: RegisterRequest): (r: RegisterResult)
    ensures r.status == StatusBadRequest || r.status == StatusCreated
    ensures r.status == StatusBadRequest ==> r.body.Message? && r.store == store
    ensures r.status == StatusCreated ==>
      && r.body.Profile?
      && r.body.profile.id in r.store.users
      && r.body.profile == Project(r.body.profile.id, r.store.users[r.body.profile.id])
  {
    if !FieldsPresent(req) then
      Reject(store, MsgMissingFields)
    else if Utf16Length(req.password.value) < MinPasswordLength then
      Reject(store, MsgShortPassword)
    else if EmailTaken(store, req.email.value) then
      Reject(store, MsgEmailTaken)
    else
      var (store', id) := Create(store, NewRecord(req));
      RegisterResult(StatusCreated, Profile(Project(id, store'.users[id])), store')
  }

  /** The handler's checks, in the order it applies them. */
  function RegisterChecks(store: Store, req: RegisterRequest): seq<Check> {
    [ Check(FieldsPresent(req), MsgMissingFields),
      Check(Utf16Length(req.password.GetOr("")) >= MinPasswordLength, MsgShortPassword),
      Check(!EmailTaken(store, req.email.GetOr("")), MsgEmailTaken) ]
  }

  /** The first failing check, in order, decides the error and leaves the
      store as it was; when none fails, the user is created. */
  lemma RegisterFollowsCheckOrder(store: Store, req: RegisterRequest)
    ensures var r := Register(store, req);
      match FirstFailure(RegisterChecks(store, req))
      case Some(m) => r == RegisterResult(StatusBadRequest, Message(m), store)
      case None => r.status == StatusCreated
  {
    var checks := RegisterChecks(store, req);
    match FirstFailure(checks)
    case None =>
      assert checks[0].passes && checks[1].passes && checks[2].passes;
    case Some(m) =>
      var i :| 0 <= i < |checks| && !checks[i].passes && checks[i].message == m
               && forall j :: 0 <= j < i ==> checks[j].passes;
      assert i == 0 || checks[0].passes;
      assert i <= 1 || checks[1].passes;
  }

  /** A missing or empty field is reported first, whatever the other checks would say. */
  lemma RegisterRejectsMissingField(store: Store, req: RegisterRequest)
    requires !Truthy(req.name) || !Truthy(req.email) || !Truthy(req.password)
    ensures Register(store, req) == RegisterResult(StatusBadRequest, Message(MsgMissingFields), store)
  {
  }

  /** With every field present, a password shorter than 6 code units is rejected. */
  lemma RegisterRejectsShortPassword(store: Store, req: RegisterRequest)
    requires FieldsPresent(req)
    requires Utf16Length(req.password.value) < MinPasswordLength
    ensures Register(store, req) == RegisterResult(StatusBadRequest, Message(MsgShortPassword), store)
  {
  }

  /** A present password of 6 or more characters always passes the length
      check: the email check alone decides the outcome. */
  lemma SixCharacterPasswordPassesLengthCheck(store: Store, req: RegisterRequest)
    requires FieldsPresent(req)
    requires |req.password.value| >= 6
    ensures Register(store, req).status == StatusCreated <==> !EmailTaken(store, req.email.value)
  {
  }

  /** The length check counts UTF-16 code units: three characters outside the
      Basic Multilingual Plane make a password of length 6, which passes. */
  lemma AstralPasswordPassesLengthCheck(store: Store, req: RegisterRequest)
    requires FieldsPresent(req)
    requires |req.password.value| == 3
    requires forall i :: 0 <= i < 3 ==> req.password.value[i] as int > 0xFFFF
    ensures Register(store, req).body != Message(MsgShortPassword)
  {
    Utf16LengthOfAstral(req.password.value);
  }

  /** A registration for an email that is already stored is rejected. */
  lemma RegisterRejectsDuplicateEmail(store: Store, req: RegisterRequest)
    requires FieldsPresent(req)
    requires Utf16Length(req.password.value) >= MinPasswordLength
    requires EmailTaken(store, req.email.value)
    ensures Register(store, req) == RegisterResult(StatusBadRequest, Message(MsgEmailTaken), store)
  {
  }

  /** Registration succeeds exactly when all three checks pass. */
  lemma RegisterSucceedsIff(store: Store, req: RegisterRequest)
    ensures Register(store, req).status == StatusCreated <==>
      && FieldsPresent(req)
      && Utf16Length(req.password.value) >= MinPasswordLength
      && !EmailTaken(store, req.email.value)
  {
  }

  /** On success the store gains exactly one record, under a fresh id, holding
      the submitted name, email and password; every other record is untouched. */
  lemma RegisterInsertsOneRecord(store: Store, req: RegisterRequest)
    requires IdsIssued(store)
    requires Register(store, req).status == StatusCreated
    ensures var r := Register(store, req);
      var id := r.body.profile.id;
      && FieldsPresent(req)
      && id !in store.users
      && r.store.users.Keys == store.users.Keys + {id}
      && |r.store.users| == |store.users| + 1
      && r.store.users[id].name == req.name.value
      && r.store.users[id].email == req.email.value
      && r.store.users[id].password == req.password.value
      && (forall k :: k in store.users ==> r.store.users[k] == store.users[k])
  {
  }

  /** The response does not depend on the password: two requests that differ
      only in their (non-empty) passwords, and agree on whether the password
      is long enough, receive the same status and the same body. */
  lemma RegisterResponseIndependentOfPassword(store: Store, req: RegisterRequest, req2: RegisterRequest)
    requires req2.name == req.name && req2.email == req.email
    requires Truthy(req.password) && Truthy(req2.password)
    requires (Utf16Length(req.password.value) >= MinPasswordLength) == (Utf16Length(req2.password.value) >= MinPasswordLength)
    ensures var r1 := Register(store, req);
      var r2 := Register(store, req2);
      r1.status == r2.status && r1.body == r2.body
  {
  }

  /** When every check passes, the response is the public projection of the
      submitted fields under the store's next id. */
  lemma RegisterCreatesProfile(store: Store, req: RegisterRequest)
    requires FieldsPresent(req)
    requires Utf16Length(req.password.value) >= MinPasswordLength
    requires !EmailTaken(store, req.email.value)
    ensures var r := Register(store, req);
      && r.status == StatusCreated
      && r.body == Profile(PublicProfile(store.nextId, req.name.value, req.email.value, None, None))
  {
  }

  /** Registration preserves the store invariant, in particular email
      uniqueness, whether it succeeds or fails. */
  lemma RegisterPreservesValid(store: Store, req: RegisterRequest)
    requires Valid(store)
    ensures Valid(Register(store, req).store)
  {
  }

  /** Registering the same email twice: the second attempt is rejected and the
      store keeps exactly one record with that email. */
  lemma RegisterTwiceKeepsOneRecord(store: Store, first: RegisterRequest, second: RegisterRequest)
    requires Valid(store)
    requires Register(store, first).status == StatusCreated
    requires FieldsPresent(second) && second.email == first.email
    requires Utf16Length(second.password.value) >= MinPasswordLength
    ensures var s1 := Register(store, first).store;
      var r2 := Register(s1, second);
      && r2 == RegisterResult(StatusBadRequest, Message(MsgEmailTaken), s1)
      && |IdsWithEmail(r2.store, first.email.value)| == 1
  {
    var r1 := Register(store, first);
    RegisterInsertsOneRecord(store, first);
    RegisterPreservesValid(store, first);
    var id := r1.body.profile.id;
    assert r1.store.users[id].email == first.email.value;
    TakenEmailHasOneOwner(r1.store, first.email.value);
  }
}
