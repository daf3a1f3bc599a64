/** The per-request field-error accumulator (`c.Validation`) a controller
    writes to through `Required(cond).Key(key).Message(msg)`. */
module Validation {

  /** One failed check: the field key and the message recorded for it. */
  datatype FieldError = FieldError(key: string, message: string)

  /** Field key to the messages recorded under it, oldest first. */
  type ErrorMap = map<string, seq<string>>

  /** The messages recorded under `key`; none when the key is absent. */
  function Messages(v: ErrorMap, key: string): seq<string>
  {
    if key in v then v[key] else []
  }

  /** A key is present only once a message has been recorded under it. */
  ghost predicate Recorded(v: ErrorMap)
  {
    forall k :: k in v ==> v[k] != []
  }

  /** `HasErrors`: some check has failed, that is, some key holds a
      message. */
  predicate HasErrors(v: ErrorMap)
    ensures Recorded(v) ==> (HasErrors(v) <==> exists k :: Messages(v, k) != [])
  {
    SomeKeyHoldsAMessage(v);
    v != map[]
  }

  /** A non-empty accumulator whose keys all hold messages has a key with a
      message. */
  lemma SomeKeyHoldsAMessage(v: ErrorMap)
    ensures Recorded(v) && v != map[] ==> exists k :: Messages(v, k) != []
  {
    if Recorded(v) && v != map[] {
      assert |v.Keys| != 0;
      var k :| k in v;
      assert Messages(v, k) == v[k];
    }
  }

  /** Records `message` under `key`, after what is already there. */
  function Append(v: ErrorMap, key: string, message: string): (r: ErrorMap)
    ensures r.Keys == v.Keys + {key}
    ensures forall k :: Messages(r, k) == Messages(v, k) + (if k == key then [message] else [])
    ensures HasErrors(r)
    ensures Recorded(v) ==> Recorded(r)
  {
    v[key := Messages(v, key) + [message]]
  }

  /** `Required(ok).Key(key).Message(message)`: records the message when the
      check `ok` fails and leaves the accumulator alone when it holds. */
  function Require(v: ErrorMap, ok: bool, key: string, message: string): (r: ErrorMap)
    ensures r.Keys == v.Keys + (if ok then {} else {key})
    ensures HasErrors(r) <==> HasErrors(v) || !ok
    ensures forall k :: Messages(r, k) == Messages(v, k) + (if !ok && k == key then [message] else [])
    ensures Recorded(v) ==> Recorded(r)
  {
    if ok then v
    else Append(v, key, message)
  }

  /** The messages of `errs` filed under `key`, in order. */
  function MessagesFor(errs: seq<FieldError>, key: string): seq<string>
  {
    if errs == [] then []
    else (if errs[0].key == key then [errs[0].message] else []) + MessagesFor(errs[1..], key)
  }

  /** One step of `AddAll` for one key: recording the first error, then
      the rest, files the key's messages in order. */
  lemma AddAllStep(v: ErrorMap, errs: seq<FieldError>, r: ErrorMap, k: string)
    requires errs != []
    requires Messages(r, k) == Messages(Append(v, errs[0].key, errs[0].message), k) + MessagesFor(errs[1..], k)
    ensures Messages(r, k) == Messages(v, k) + MessagesFor(errs, k)
  {
    var mine := if errs[0].key == k then [errs[0].message] else [];
    var rest := MessagesFor(errs[1..], k);
    assert MessagesFor(errs, k) == mine + rest;
    assert Messages(Append(v, errs[0].key, errs[0].message), k) == Messages(v, k) + mine;
    ConcatAssoc(Messages(v, k), mine, rest);
  }

  /** One step of `AddAll` for the keys: the first error's key, then the
      rest's. */
  lemma AddAllKeysStep(v: ErrorMap, errs: seq<FieldError>, r: ErrorMap)
    requires errs != []
    requires r.Keys == v.Keys + {errs[0].key} + set e | e in errs[1..] :: e.key
    ensures r.Keys == v.Keys + set e | e in errs :: e.key
  {
    assert (set e | e in errs :: e.key) == {errs[0].key} + set e | e in errs[1..] :: e.key by {
      assert forall e :: e in errs <==> e == errs[0] || e in errs[1..];
    }
  }

  /** Associativity of concatenation, instantiated by `AddAllStep` at
      exactly the three sequences its step needs. */
  lemma ConcatAssoc(a: seq<string>, b: seq<string>, c: seq<string>)
    ensures (a + b) + c == a + (b + c)
  {
  }

  /** Records every error of `errs`, in order, as a model's `Validate` does. */
  function AddAll(v: ErrorMap, errs: seq<FieldError>): (r: ErrorMap)
    ensures forall k :: Messages(r, k) == Messages(v, k) + MessagesFor(errs, k)
    ensures r.Keys == v.Keys + set e | e in errs :: e.key
    ensures HasErrors(r) <==> HasErrors(v) || errs != []
    ensures Recorded(v) ==> Recorded(r)
    decreases |errs|
  {
    if errs == [] then v
    else
      var head := errs[0];
      var v' := Append(v, head.key, head.message);
      var r := AddAll(v', errs[1..]);
      AddAllKeysStep(v, errs, r);
      forall k ensures Messages(r, k) == Messages(v, k) + MessagesFor(errs, k) {
        AddAllStep(v, errs, r, k);
      }
      r
  }
}
