/** The user collection as the controller and the middleware see it: records
    keyed by a store-assigned id, with the uniqueness of email that the
    registration check maintains. */
module UserStore {
  import opened Common

  /** Store-assigned, opaque user identifier. */
  type UserId = nat

  /** A stored user: what the registration handler writes, plus the profile
      fields it reads back. */
  datatype UserRecord = UserRecord(
    name: string,
    email: string,
    password: string,
    photo: Option<string>,
    bio: Option<string>)

  /** The fields the registration response exposes; the password has no place here. */
  datatype PublicProfile = PublicProfile(
    id: UserId,
    name: string,
    email: string,
    photo: Option<string>,
    bio: Option<string>)

  /** The user collection; `nextId` is the id the store hands out next. */
  datatype Store = Store(users: map<UserId, UserRecord>, nextId: UserId)

  /** No two distinct records share an email. */
  predicate UniqueEmails(s: Store) {
    forall a, b :: a in s.users && b in s.users && a != b ==> s.users[a].email != s.users[b].email
  }

  /** Every stored id was handed out before `nextId`. */
  predicate IdsIssued(s: Store) {
    forall id :: id in s.users ==> id < s.nextId
  }

  /** The store invariant. */
  predicate Valid(s: Store) {
    UniqueEmails(s) && IdsIssued(s)
  }

  /** The empty store a fresh database starts from satisfies the invariant. */
  lemma EmptyStoreValid()
    ensures Valid(Store(map[], 0))
  {
  }

  /** Some record carries `email` (the outcome of a lookup by email). */
  predicate EmailTaken(s: Store, email: string) {
    exists id :: id in s.users && s.users[id].email == email
  }

  /** The ids of the records carrying `email`. */
  function IdsWithEmail(s: Store, email: string): set<UserId> {
    set id | id in s.users && s.users[id].email == email
  }

  /** Inserting a record: the store assigns the next id and keeps every other record. */
  function Create(s: Store, rec: UserRecord): (r: (Store, UserId))
    ensures r.1 in r.0.users && r.0.users[r.1] == rec
    ensures forall id :: id in s.users && id != r.1 ==> id in r.0.users && r.0.users[id] == s.users[id]
    ensures r.0.users.Keys == s.users.Keys + {r.1}
    ensures IdsIssued(s) ==> r.1 !in s.users && IdsIssued(r.0) && |r.0.users| == |s.users| + 1
  {
    var id := s.nextId;
    (Store(s.users[id := rec], id + 1), id)
  }

  /** The public projection of a stored record. */
  function Project(id: UserId, rec: UserRecord): PublicProfile {
    PublicProfile(id, rec.name, rec.email, rec.photo, rec.bio)
  }

  /** In a store with unique emails, a taken email belongs to exactly one record. */
  lemma TakenEmailHasOneOwner(s: Store, email: string)
    requires UniqueEmails(s)
    requires EmailTaken(s, email)
    ensures |IdsWithEmail(s, email)| == 1
  {
    var id :| id in s.users && s.users[id].email == email;
    assert IdsWithEmail(s, email) == {id};
  }
}
