/** The user record, the point lookups the controllers make against the user
    table, and the identity-uniqueness guard built on them. */
module Models {
  import opened Wrappers
  import opened Validation

  /** `models.User`: the stored record and, in `token`, the transient token
      a response carries. `password` holds the one-way hash. */
  datatype User = User(
    id: int,
    username: string,
    email: string,
    password: string,
    bio: string,
    image: string,
    token: string)

  /** The two identity fields the store is searched by. */
  datatype Field = Username | Email

  function Get(u: User, f: Field): string
  {
    match f
    case Username => u.username
    case Email => u.email
  }

  /** Messages of the `models` package. Their texts are placeholders: the
      controllers depend only on their being three different strings. */
  const TakenMsg: string := "has already been taken"
  const EmptyMsg: string := "can't be empty"
  const InvalidMsg: string := "is invalid"

  /** The behaviour of `models.User` that this model does not define:
      password hashing inside `NewUser`, `Validate`, `Fill` and
      `MatchPassword`. */
  datatype UserModel = UserModel(
    hash: string -> string,
    validate: User -> seq<FieldError>,
    fill: (User, User) -> User,
    matchPassword: (User, string) -> bool)

  /** `models.NewUser`: a new, not yet stored record. */
  function NewUser(m: UserModel, username: string, email: string, password: string): (u: User)
    ensures u.username == username && u.email == email && u.password == m.hash(password)
    ensures u.bio == "" && u.image == "" && u.token == ""
  {
    User(0, username, email, m.hash(password), "", "", "")
  }

  /** What the uniqueness argument for updates needs of `Fill`: it keeps the
      record's ID, and each identity field ends up either unchanged or as
      submitted. */
  ghost predicate FillKeepsIdentity(m: UserModel)
  {
    forall cur: User, body: User {:trigger m.fill(cur, body)} ::
      var u := m.fill(cur, body);
      && u.id == cur.id
      && (u.username == cur.username || u.username == body.username)
      && (u.email == cur.email || u.email == body.email)
  }

  /** `FindUserByUsername` / `FindUserByEmail`: the first stored record whose
      field `f` equals `value`, or nil. */
  function Lookup(rows: seq<User>, f: Field, value: string): (r: Option<User>)
    ensures r.Some? ==> r.value in rows && Get(r.value, f) == value
    ensures r.None? <==> forall u :: u in rows ==> Get(u, f) != value
    ensures r.Some? ==> exists i :: 0 <= i < |rows| && rows[i] == r.value &&
                                    forall j :: 0 <= j < i ==> Get(rows[j], f) != value
  {
    if rows == [] then None
    else if Get(rows[0], f) == value then Some(rows[0])
    else
      var r := Lookup(rows[1..], f, value);
      assert forall u :: u in rows ==> u == rows[0] || u in rows[1..];
      if r.Some? then
        var i :| 0 <= i < |rows[1..]| && rows[1..][i] == r.value &&
                 forall j :: 0 <= j < i ==> Get(rows[1..][j], f) != value;
        assert rows[i + 1] == r.value;
        assert forall j :: 0 <= j < i + 1 ==> Get(rows[j], f) != value by {
          forall j | 0 <= j < i + 1 ensures Get(rows[j], f) != value {
            if j > 0 { assert rows[j] == rows[1..][j - 1]; }
          }
        }
        r
      else r
  }

  /** The guard with self-exclusion (`checkAlreadyTaken*`): `value` is free
      for the record `selfId` when nobody holds it or its holder is that
      record. */
  predicate FreeFor(rows: seq<User>, f: Field, value: string, selfId: int)
    ensures FreeFor(rows, f, value, selfId) <==>
              || (forall u :: u in rows ==> Get(u, f) != value)
              || exists i :: 0 <= i < |rows| && Get(rows[i], f) == value && rows[i].id == selfId &&
                             forall j :: 0 <= j < i ==> Get(rows[j], f) != value
  {
    var found := Lookup(rows, f, value);
    found.None? || found.value.id == selfId
  }

  /** The guard without self-exclusion (registration): nobody holds `value`. */
  predicate Unclaimed(rows: seq<User>, f: Field, value: string)
    ensures Unclaimed(rows, f, value) <==> forall u :: u in rows ==> Get(u, f) != value
  {
    Lookup(rows, f, value).None?
  }

  /** No two different records (different IDs) share a value of `f`. */
  ghost predicate Unique(rows: seq<User>, f: Field)
  {
    forall u, w :: u in rows && w in rows && Get(u, f) == Get(w, f) ==> u.id == w.id
  }

  /** The identity invariant of the user table. */
  ghost predicate UniqueIdentities(rows: seq<User>)
  {
    Unique(rows, Username) && Unique(rows, Email)
  }

  /** On a table without duplicates, `value` is free for `selfId` exactly
      when every record holding it is `selfId` itself. */
  lemma FreeForIff(rows: seq<User>, f: Field, value: string, selfId: int)
    requires Unique(rows, f)
    ensures FreeFor(rows, f, value, selfId) <==>
            forall u :: u in rows && Get(u, f) == value ==> u.id == selfId
  {
  }

  /** Re-submitting a record's own username or email never counts as taken. */
  lemma OwnValueIsFree(rows: seq<User>, f: Field, self: User)
    requires Unique(rows, f)
    requires self in rows
    ensures FreeFor(rows, f, Get(self, f), self.id)
  {
    FreeForIff(rows, f, Get(self, f), self.id);
  }

  /** A value held by a different record is taken. */
  lemma OtherHolderCollides(rows: seq<User>, f: Field, other: User, selfId: int)
    requires Unique(rows, f)
    requires other in rows && other.id != selfId
    ensures !FreeFor(rows, f, Get(other, f), selfId)
  {
    FreeForIff(rows, f, Get(other, f), selfId);
  }
}
