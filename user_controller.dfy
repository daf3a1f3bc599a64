/** The user controller: registration (`Create`), reading the current user
    (`Read`), profile update (`Update`) and login (`Login` with its
    credential check `checkValidate`). */
module Controllers {
  import opened Wrappers
  import opened Validation
  import opened Models
  import opened Store
  import Auth

  const StatusOK: int := 200
  const StatusCreated: int := 201

  /** The outcome of binding the JSON request body: the binder's error, or
      the body's `user` object, absent (a nil pointer) when it has none. */
  datatype Body = Unbindable(reason: string) | Bound(user: Option<User>)

  /** What a handler answers.
      `Rendered`: a `UserJSON` envelope with the given status.
      `Unprocessable`: status 422 with the accumulated field errors.
      `InternalError`: status 500 with its status text.
      `Panicked`: the handler dereferenced a nil body user.
      `Terminated`: `revel.ERROR.Fatal` ended the process. */
  datatype Response =
    | Rendered(status: int, user: User)
    | Unprocessable(errors: ErrorMap)
    | InternalError
    | Panicked
    | Terminated

  /** The 422 answer to a body that did not bind. */
  function BindErrors(reason: string): (r: ErrorMap)
    ensures r.Keys == {"BindJSON"} && Messages(r, "BindJSON") == [reason]
    ensures HasErrors(r) && Recorded(r)
  {
    map["BindJSON" := [reason]]
  }

  /** The registration response: only username, email and token are set. */
  function Registered(u: User, token: string): (r: User)
    ensures r.username == u.username && r.email == u.email && r.token == token
    ensures r.id == 0 && r.password == "" && r.bio == "" && r.image == ""
  {
    User(0, u.username, u.email, "", "", "", token)
  }

  /** The update and login response: also the bio and the image. */
  function Profile(u: User, token: string): (r: User)
    ensures r.username == u.username && r.email == u.email && r.token == token
    ensures r.bio == u.bio && r.image == u.image
    ensures r.id == 0 && r.password == ""
  {
    User(0, u.username, u.email, "", u.bio, u.image, token)
  }

  /** The accumulator after `Create`'s checks: the model's own validation of
      the new record, then the two uniqueness checks, both always run, with
      no self-exclusion. */
  function RegisterErrors(v: ErrorMap, rows: seq<User>, m: UserModel, b: User): (r: ErrorMap)
    ensures var checked := AddAll(v, m.validate(NewUser(m, b.username, b.email, b.password)));
            var usernameHeld := !Unclaimed(rows, Username, b.username);
            var emailHeld := !Unclaimed(rows, Email, b.email);
            && r.Keys == checked.Keys + (if usernameHeld then {"username"} else {}) +
                                        (if emailHeld then {"email"} else {})
            && forall k :: Messages(r, k) ==
                             Messages(checked, k) + (if k == "username" && usernameHeld then [TakenMsg] else []) +
                                                    (if k == "email" && emailHeld then [TakenMsg] else [])
    ensures HasErrors(r) <==>
              || HasErrors(v)
              || m.validate(NewUser(m, b.username, b.email, b.password)) != []
              || (exists w :: w in rows && w.username == b.username)
              || (exists w :: w in rows && w.email == b.email)
  {
    var u := NewUser(m, b.username, b.email, b.password);
    var checked := AddAll(v, m.validate(u));
    Require(Require(checked, Unclaimed(rows, Username, b.username), "username", TakenMsg),
            Unclaimed(rows, Email, b.email), "email", TakenMsg)
  }

  /** Proof helper for `Create`: its four statements compute
      `RegisterErrors`, in the same order. */
  lemma CreateChecksInOrder(v: ErrorMap, rows: seq<User>, m: UserModel, b: User)
    ensures RegisterErrors(v, rows, m, b) ==
            Require(Require(AddAll(v, m.validate(NewUser(m, b.username, b.email, b.password))),
                            Unclaimed(rows, Username, b.username), "username", TakenMsg),
                    Unclaimed(rows, Email, b.email), "email", TakenMsg)
  {
  }

  /** The accumulator after `Update`'s checks on the filled record `u`: the
      model's validation, then `checkAlreadyTaken` with self-exclusion. */
  function ProfileErrors(v: ErrorMap, rows: seq<User>, m: UserModel, b: User, u: User): (r: ErrorMap)
    ensures var checked := AddAll(v, m.validate(u));
            var usernameTaken := !FreeFor(rows, Username, b.username, u.id);
            var emailTaken := !FreeFor(rows, Email, b.email, u.id);
            && r.Keys == checked.Keys + (if usernameTaken then {"username"} else {}) +
                                        (if emailTaken then {"email"} else {})
            && forall k :: Messages(r, k) ==
                             Messages(checked, k) + (if k == "username" && usernameTaken then [TakenMsg] else []) +
                                                    (if k == "email" && emailTaken then [TakenMsg] else [])
    ensures HasErrors(r) <==>
              || HasErrors(v)
              || m.validate(u) != []
              || !FreeFor(rows, Username, b.username, u.id)
              || !FreeFor(rows, Email, b.email, u.id)
  {
    Require(Require(AddAll(v, m.validate(u)), FreeFor(rows, Username, b.username, u.id), "username", TakenMsg),
            FreeFor(rows, Email, b.email, u.id), "email", TakenMsg)
  }

  /** The response key of an identity field. */
  function FieldKey(f: Field): string
  {
    match f
    case Username => "username"
    case Email => "email"
  }

  /** Re-submitting one's own username (or email) adds no "taken" error
      under that key, whatever the other field says. */
  lemma OwnValueAddsNoTakenError(v: ErrorMap, rows: seq<User>, m: UserModel, cur: User, b: User, u: User, f: Field)
    requires UniqueIdentities(rows) && cur in rows && u.id == cur.id
    requires Get(b, f) == Get(cur, f)
    ensures Messages(ProfileErrors(v, rows, m, b, u), FieldKey(f)) == Messages(AddAll(v, m.validate(u)), FieldKey(f))
  {
    match f
    case Username => OwnValueIsFree(rows, Username, cur);
    case Email => OwnValueIsFree(rows, Email, cur);
  }

  /** Re-submitting one's own username and email adds no "taken" error:
      the update's checks are then the model's validation alone. */
  lemma OwnIdentityIsNotTaken(v: ErrorMap, rows: seq<User>, m: UserModel, cur: User, b: User, u: User)
    requires UniqueIdentities(rows) && cur in rows && u.id == cur.id
    requires b.username == cur.username && b.email == cur.email
    ensures ProfileErrors(v, rows, m, b, u) == AddAll(v, m.validate(u))
  {
    OwnValueIsFree(rows, Username, cur);
    OwnValueIsFree(rows, Email, cur);
  }

  /** The verdict of `checkValidate`: the user found, or none, and the
      accumulator it leaves behind. */
  datatype Verdict = Verdict(user: Option<User>, errors: ErrorMap)

  /** `checkValidate`'s three stages, each returning as soon as the
      accumulator holds an error: non-empty email and password; a record
      with that email; a password that matches it. */
  function LoginVerdict(v: ErrorMap, rows: seq<User>, m: UserModel, b: User): (r: Verdict)
    ensures r.user.Some? ==> r.errors == v && !HasErrors(v)
    ensures r.user.None? ==> HasErrors(r.errors)
    ensures r.user.Some? <==>
              && !HasErrors(v) && b.email != "" && b.password != ""
              && Lookup(rows, Email, b.email).Some?
              && m.matchPassword(Lookup(rows, Email, b.email).value, b.password)
    ensures r.user.Some? ==> r.user.value in rows && r.user.value.email == b.email
  {
    var filled := Require(Require(v, b.email != "", "email", EmptyMsg),
                          b.password != "", "password", EmptyMsg);
    if HasErrors(filled) then Verdict(None, filled)
    else
      var found := Lookup(rows, Email, b.email);
      var known := Require(filled, found.Some?, "email", InvalidMsg);
      if HasErrors(known) then Verdict(None, known)
      else
        var matched := Require(known, m.matchPassword(found.value, b.password), "password", InvalidMsg);
        if HasErrors(matched) then Verdict(None, matched)
        else Verdict(found, matched)
  }

  /** Stage one on a fresh accumulator: each empty field gets the empty
      message and nothing else is reported, whatever the table holds. */
  lemma LoginEmptyFields(rows: seq<User>, m: UserModel, b: User)
    requires b.email == "" || b.password == ""
    ensures var r := LoginVerdict(map[], rows, m, b);
            && r.user.None?
            && r.errors.Keys == (if b.email == "" then {"email"} else {}) +
                                (if b.password == "" then {"password"} else {})
            && forall k :: k in r.errors ==> r.errors[k] == [EmptyMsg]
  {
    var v1 := Require(map[], b.email != "", "email", EmptyMsg);
    var v2 := Require(v1, b.password != "", "password", EmptyMsg);
    assert HasErrors(v2);
  }

  /** Stage two on a fresh accumulator: an unknown email is reported under
      "email" alone, and the password is not looked at. */
  lemma LoginUnknownEmail(rows: seq<User>, m: UserModel, b: User)
    requires b.email != "" && b.password != ""
    requires forall w :: w in rows ==> w.email != b.email
    ensures LoginVerdict(map[], rows, m, b) == Verdict(None, map["email" := [InvalidMsg]])
  {
    var empty: ErrorMap := map[];
    assert !HasErrors(empty);
    assert Require(Require(empty, true, "email", EmptyMsg), true, "password", EmptyMsg) == empty;
    assert Require(empty, false, "email", InvalidMsg) == map["email" := [InvalidMsg]] by {
      assert Messages(empty, "email") + [InvalidMsg] == [InvalidMsg];
    }
  }

  /** Stage three on a fresh accumulator: a known email with a wrong
      password is reported under "password" alone. */
  lemma LoginWrongPassword(rows: seq<User>, m: UserModel, b: User, w: User)
    requires b.email != "" && b.password != ""
    requires Lookup(rows, Email, b.email) == Some(w) && !m.matchPassword(w, b.password)
    ensures LoginVerdict(map[], rows, m, b) == Verdict(None, map["password" := [InvalidMsg]])
  {
    var empty: ErrorMap := map[];
    assert !HasErrors(empty);
    assert Require(Require(empty, true, "email", EmptyMsg), true, "password", EmptyMsg) == empty;
    assert Require(empty, true, "email", InvalidMsg) == empty;
    assert Require(empty, false, "password", InvalidMsg) == map["password" := [InvalidMsg]] by {
      assert Messages(empty, "password") + [InvalidMsg] == [InvalidMsg];
    }
  }

  /** Success on a fresh accumulator returns the stored record found by
      the submitted email. */
  lemma LoginMatch(rows: seq<User>, m: UserModel, b: User, w: User)
    requires b.email != "" && b.password != ""
    requires Lookup(rows, Email, b.email) == Some(w) && m.matchPassword(w, b.password)
    ensures LoginVerdict(map[], rows, m, b) == Verdict(Some(w), map[])
  {
    assert !HasErrors(map[]);
  }

  /** One request's controller: the shared store, the user model, the
      token service and the request's validation accumulator. */
  class UserController {
    const db: Datastore
    const model: UserModel
    const crypto: Auth.Crypto
    const jwt: Auth.Jwt
    var validation: ErrorMap

    constructor (db: Datastore, model: UserModel, crypto: Auth.Crypto, jwt: Auth.Jwt)
      ensures this.db == db && this.model == model && this.crypto == crypto && this.jwt == jwt
      ensures validation == map[]
    {
      this.db := db;
      this.model := model;
      this.crypto := crypto;
      this.jwt := jwt;
      validation := map[];
    }

    /** `JWT.NewToken` for a user's ID and username. */
    function TokenFor(id: int, username: string): (s: string)
      ensures Auth.Faithful(crypto.codec) ==>
                crypto.codec.parse(s) == Some(Auth.IssuedToken(crypto, jwt, id, username))
    {
      Auth.NewToken(crypto, jwt, id, username)
    }

    /** `Create`: registers the body's user. Every check runs before the
        decision; the record is stored only when the accumulator is empty. */
    method Create(body: Body, insertFails: bool) returns (res: Response)
      requires db.Valid()
      modifies this, db
      ensures db.Valid()
      ensures body.Unbindable? ==>
                res == Unprocessable(BindErrors(body.reason)) && validation == old(validation) && unchanged(db)
      ensures body == Bound(None) ==> res == Panicked && validation == old(validation) && unchanged(db)
      ensures body.Bound? && body.user.Some? ==>
                var b := body.user.value;
                var u := NewUser(model, b.username, b.email, b.password);
                && validation == RegisterErrors(old(validation), old(db.rows), model, b)
                && (HasErrors(validation) ==> res == Unprocessable(validation) && unchanged(db))
                && (!HasErrors(validation) && insertFails ==> res == InternalError && unchanged(db))
                && (!HasErrors(validation) && !insertFails ==>
                      && db.rows == old(db.rows) + [u.(id := old(db.nextId))]
                      && db.nextId == old(db.nextId) + 1
                      && res == Rendered(StatusCreated, Registered(u, TokenFor(old(db.nextId), u.username))))
      ensures old(HasErrors(validation)) ==> unchanged(db)
      ensures old(UniqueIdentities(db.rows)) ==> UniqueIdentities(db.rows)
    {
      if body.Unbindable? {
        return Unprocessable(BindErrors(body.reason));
      }
      if body.user.None? {
        return Panicked;
      }
      var b := body.user.value;
      var u := NewUser(model, b.username, b.email, b.password);
      CreateChecksInOrder(validation, db.rows, model, b);
      validation := AddAll(validation, model.validate(u));
      var usernameUnique := Unclaimed(db.rows, Username, b.username);
      var emailUnique := Unclaimed(db.rows, Email, b.email);
      validation := Require(validation, usernameUnique, "username", TakenMsg);
      validation := Require(validation, emailUnique, "email", TakenMsg);
      assert validation == RegisterErrors(old(validation), db.rows, model, b);
      if HasErrors(validation) {
        return Unprocessable(validation);
      }
      ghost var before := db.rows;
      var id := db.Insert(u, insertFails);
      if id.None? {
        return InternalError;
      }
      if UniqueIdentities(before) {
        InsertKeepsIdentitiesUnique(before, u.(id := id.value));
      }
      res := Rendered(StatusCreated, Registered(u, TokenFor(id.value, u.username)));
    }

    /** `Read`: the current user with a freshly issued token. */
    method Read(current: User) returns (res: Response)
      ensures res == Rendered(StatusOK, current.(token := TokenFor(current.id, current.username)))
      ensures Auth.Faithful(crypto.codec) ==>
                crypto.codec.parse(res.user.token) == Some(Auth.IssuedToken(crypto, jwt, current.id, current.username))
    {
      var user := current.(token := TokenFor(current.id, current.username));
      res := Rendered(StatusOK, user);
    }

    /** `checkAlreadyTakenUsername`. */
    method CheckAlreadyTakenUsername(b: User, user: User)
      modifies this`validation
      ensures validation == Require(old(validation), FreeFor(db.rows, Username, b.username, user.id),
                                    "username", TakenMsg)
    {
      var usernameUnique := FreeFor(db.rows, Username, b.username, user.id);
      validation := Require(validation, usernameUnique, "username", TakenMsg);
    }

    /** `checkAlreadyTakenEmail`. */
    method CheckAlreadyTakenEmail(b: User, user: User)
      modifies this`validation
      ensures validation == Require(old(validation), FreeFor(db.rows, Email, b.email, user.id),
                                    "email", TakenMsg)
    {
      var emailUnique := FreeFor(db.rows, Email, b.email, user.id);
      validation := Require(validation, emailUnique, "email", TakenMsg);
    }

    /** `checkAlreadyTaken`: both guards, username first. */
    method CheckAlreadyTaken(b: User, user: User)
      modifies this`validation
      ensures validation ==
              Require(Require(old(validation), FreeFor(db.rows, Username, b.username, user.id), "username", TakenMsg),
                      FreeFor(db.rows, Email, b.email, user.id), "email", TakenMsg)
    {
      CheckAlreadyTakenUsername(b, user);
      CheckAlreadyTakenEmail(b, user);
    }

    /** `Update`: fills the current user from the body, checks it, and
        writes it back only when the accumulator is empty. A failed write
        ends the process. */
    method Update(body: Body, current: User, updateFails: bool) returns (res: Response)
      requires db.Valid()
      modifies this, db
      ensures db.Valid()
      ensures body.Unbindable? ==>
                res == Unprocessable(BindErrors(body.reason)) && validation == old(validation) && unchanged(db)
      ensures body == Bound(None) ==> res == Panicked && validation == old(validation) && unchanged(db)
      ensures body.Bound? && body.user.Some? ==>
                var b := body.user.value;
                var u := model.fill(current, b);
                && validation == ProfileErrors(old(validation), old(db.rows), model, b, u)
                && (HasErrors(validation) ==> res == Unprocessable(validation) && unchanged(db))
                && (!HasErrors(validation) && updateFails ==> res == Terminated && unchanged(db))
                && (!HasErrors(validation) && !updateFails ==>
                      && db.rows == ReplaceById(old(db.rows), u)
                      && db.nextId == old(db.nextId)
                      && res == Rendered(StatusOK, Profile(u, TokenFor(u.id, u.username))))
      ensures body.Bound? && body.user.Some? && FillKeepsIdentity(model) && current in old(db.rows) &&
              old(UniqueIdentities(db.rows)) ==>
                forall f :: Get(body.user.value, f) == Get(current, f) ==>
                  Messages(validation, FieldKey(f)) ==
                  Messages(AddAll(old(validation), model.validate(model.fill(current, body.user.value))), FieldKey(f))
      ensures old(HasErrors(validation)) ==> unchanged(db)
      ensures FillKeepsIdentity(model) && current in old(db.rows) && old(UniqueIdentities(db.rows)) ==>
                UniqueIdentities(db.rows)
    {
      if body.Unbindable? {
        return Unprocessable(BindErrors(body.reason));
      }
      if body.user.None? {
        return Panicked;
      }
      var b := body.user.value;
      var user := model.fill(current, b);
      validation := AddAll(validation, model.validate(user));
      CheckAlreadyTaken(b, user);
      if FillKeepsIdentity(model) && current in db.rows && UniqueIdentities(db.rows) {
        assert model.fill(current, b) == user;
        assert user.id == current.id;
        forall f | Get(b, f) == Get(current, f)
          ensures Messages(validation, FieldKey(f)) == Messages(AddAll(old(validation), model.validate(user)), FieldKey(f))
        {
          OwnValueAddsNoTakenError(old(validation), db.rows, model, current, b, user, f);
        }
      }
      if HasErrors(validation) {
        return Unprocessable(validation);
      }
      if FillKeepsIdentity(model) && current in db.rows && UniqueIdentities(db.rows) {
        assert model.fill(current, b) == user;
        UpdateKeepsIdentitiesUnique(db.rows, current, b, user);
      }
      var ok := db.Update(user, updateFails);
      if !ok {
        return Terminated;
      }
      res := Rendered(StatusOK, Profile(user, TokenFor(user.id, user.username)));
    }

    /** `checkValidate`: the staged credential check. */
    method CheckValidate(b: User) returns (user: Option<User>, errs: Option<ErrorMap>)
      modifies this`validation
      ensures validation == LoginVerdict(old(validation), db.rows, model, b).errors
      ensures user == LoginVerdict(old(validation), db.rows, model, b).user
      ensures errs == if user.Some? then None else Some(validation)
    {
      validation := Require(validation, b.email != "", "email", EmptyMsg);
      validation := Require(validation, b.password != "", "password", EmptyMsg);
      if HasErrors(validation) {
        return None, Some(validation);
      }
      var found := Lookup(db.rows, Email, b.email);
      validation := Require(validation, found.Some?, "email", InvalidMsg);
      if HasErrors(validation) {
        return None, Some(validation);
      }
      var matched := model.matchPassword(found.value, b.password);
      validation := Require(validation, matched, "password", InvalidMsg);
      if HasErrors(validation) {
        return None, Some(validation);
      }
      return found, None;
    }

    /** `Login`: a token for the user whose email and password the body
        carries. */
    method Login(body: Body) returns (res: Response)
      modifies this`validation
      ensures body.Unbindable? ==> res == Unprocessable(BindErrors(body.reason)) && validation == old(validation)
      ensures body == Bound(None) ==> res == Panicked && validation == old(validation)
      ensures body.Bound? && body.user.Some? ==>
                var verdict := LoginVerdict(old(validation), db.rows, model, body.user.value);
                && validation == verdict.errors
                && (verdict.user.None? ==> res == Unprocessable(verdict.errors))
                && (verdict.user.Some? ==>
                      var u := verdict.user.value;
                      res == Rendered(StatusOK, Profile(u, TokenFor(u.id, u.username))))
    {
      if body.Unbindable? {
        return Unprocessable(BindErrors(body.reason));
      }
      if body.user.None? {
        return Panicked;
      }
      var user, errs := CheckValidate(body.user.value);
      if errs.Some? {
        return Unprocessable(errs.value);
      }
      var u := user.value;
      res := Rendered(StatusOK, Profile(u, TokenFor(u.id, u.username)));
    }
  }
}
