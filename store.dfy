/** The user table behind `c.Txn`: records in storage order and the next
    ID its auto-increment key hands out. */
module Store {
  import opened Wrappers
  import opened Models

  /** The ID is the key: two rows with one ID are the same record. */
  ghost predicate KeyedById(rows: seq<User>)
  {
    forall u, w :: u in rows && w in rows && u.id == w.id ==> u == w
  }

  /** `UPDATE ... WHERE ID = u.id`: every row with `u`'s ID becomes `u`. */
  function ReplaceById(rows: seq<User>, u: User): (r: seq<User>)
    ensures |r| == |rows|
    ensures forall i :: 0 <= i < |rows| ==> r[i] == if rows[i].id == u.id then u else rows[i]
  {
    seq(|rows|, i requires 0 <= i < |rows| => if rows[i].id == u.id then u else rows[i])
  }

  /** The rows after an update are the untouched rows of other IDs, plus `u`
      exactly when some row had its ID. */
  lemma ReplaceByIdMembers(rows: seq<User>, u: User)
    ensures forall w :: w in ReplaceById(rows, u) ==>
              w == u || (w in rows && w.id != u.id)
    ensures forall w :: w in rows && w.id != u.id ==> w in ReplaceById(rows, u)
    ensures u in ReplaceById(rows, u) <==> exists x :: x in rows && x.id == u.id
  {
    var r := ReplaceById(rows, u);
    forall w | w in r ensures w == u || (w in rows && w.id != u.id) {
      var i :| 0 <= i < |r| && r[i] == w;
    }
    forall w | w in rows && w.id != u.id ensures w in r {
      var i :| 0 <= i < |rows| && rows[i] == w;
      assert r[i] == w;
    }
    if exists x :: x in rows && x.id == u.id {
      var x :| x in rows && x.id == u.id;
      var i :| 0 <= i < |rows| && rows[i] == x;
      assert r[i] == u;
    }
  }

  /** Registration keeps the identity invariant: a record none of whose
      identity fields is claimed, under a fresh ID, adds no duplicate. */
  lemma InsertKeepsIdentitiesUnique(rows: seq<User>, u: User)
    requires UniqueIdentities(rows)
    requires Unclaimed(rows, Username, u.username) && Unclaimed(rows, Email, u.email)
    ensures UniqueIdentities(rows + [u])
  {
    forall f: Field ensures Unique(rows + [u], f) {
      assert Unclaimed(rows, f, Get(u, f));
      forall v, w | v in rows + [u] && w in rows + [u] && Get(v, f) == Get(w, f)
        ensures v.id == w.id
      {
        assert v in rows || v == u;
        assert w in rows || w == u;
      }
    }
  }

  /** Updating keeps field `f` free of duplicates when the new record keeps
      its ID and its value of `f` is either the old one or a value the
      self-excluding guard found free for it. */
  lemma UpdateKeepsUnique(rows: seq<User>, f: Field, cur: User, submitted: string, u: User)
    requires Unique(rows, f)
    requires cur in rows && u.id == cur.id
    requires Get(u, f) == Get(cur, f) || (Get(u, f) == submitted && FreeFor(rows, f, submitted, cur.id))
    ensures Unique(ReplaceById(rows, u), f)
  {
    var r := ReplaceById(rows, u);
    ReplaceByIdMembers(rows, u);
    FreeForIff(rows, f, submitted, cur.id);
    // Any stored record holding `u`'s value is `cur` itself.
    assert forall w :: w in rows && Get(w, f) == Get(u, f) ==> w.id == cur.id;
    forall v, w | v in r && w in r && Get(v, f) == Get(w, f) ensures v.id == w.id {
      assert v == u || (v in rows && v.id != u.id);
      assert w == u || (w in rows && w.id != u.id);
    }
  }

  /** Updating keeps the identity invariant under the same conditions on
      both identity fields. */
  lemma UpdateKeepsIdentitiesUnique(rows: seq<User>, cur: User, body: User, u: User)
    requires UniqueIdentities(rows)
    requires cur in rows && u.id == cur.id
    requires u.username == cur.username ||
             (u.username == body.username && FreeFor(rows, Username, body.username, cur.id))
    requires u.email == cur.email ||
             (u.email == body.email && FreeFor(rows, Email, body.email, cur.id))
    ensures UniqueIdentities(ReplaceById(rows, u))
  {
    UpdateKeepsUnique(rows, Username, cur, body.username, u);
    UpdateKeepsUnique(rows, Email, cur, body.email, u);
  }

  /** Registration with a fresh ID keeps the table keyed by ID. */
  lemma InsertKeepsKey(rows: seq<User>, u: User)
    requires KeyedById(rows)
    requires forall w :: w in rows ==> w.id != u.id
    ensures KeyedById(rows + [u])
  {
    forall v, w | v in rows + [u] && w in rows + [u] && v.id == w.id ensures v == w {
      assert v in rows || v == u;
      assert w in rows || w == u;
    }
  }

  /** A table of user records with an auto-increment key. */
  class Datastore {
    var rows: seq<User>
    var nextId: int

    ghost predicate Valid()
      reads this
    {
      && 0 < nextId
      && KeyedById(rows)
      && forall u :: u in rows ==> 0 < u.id < nextId
    }

    constructor ()
      ensures Valid() && rows == [] && nextId == 1
    {
      rows := [];
      nextId := 1;
    }

    /** `Txn.Insert(u)`: stores `u` under the next ID, unless the database
        reports a failure (`fails`), in which case nothing is stored. */
    method Insert(u: User, fails: bool) returns (id: Option<int>)
      requires Valid()
      modifies this
      ensures Valid()
      ensures fails ==> id == None && unchanged(this)
      ensures !fails ==> id == Some(old(nextId)) && nextId == old(nextId) + 1 &&
                         rows == old(rows) + [u.(id := old(nextId))]
    {
      if fails {
        return None;
      }
      var stored := u.(id := nextId);
      InsertKeepsKey(rows, stored);
      rows := rows + [stored];
      id := Some(nextId);
      nextId := nextId + 1;
    }

    /** `Txn.Update(u)`: overwrites the row with `u`'s ID, unless the
        database reports a failure (`fails`). */
    method Update(u: User, fails: bool) returns (ok: bool)
      requires Valid()
      modifies this
      ensures Valid() && nextId == old(nextId)
      ensures ok == !fails
      ensures fails ==> unchanged(this)
      ensures !fails ==> rows == ReplaceById(old(rows), u)
    {
      if fails {
        return false;
      }
      ReplaceByIdMembers(rows, u);
      var r := ReplaceById(rows, u);
      forall w | w in r ensures 0 < w.id < nextId {
        if w == u {
          var x :| x in rows && x.id == u.id;
        }
      }
      rows := r;
      ok := true;
    }
  }
}
