/**
 * JSON values (RFC 8259) as Gson's tree holds them, and the Gson calls the services chain to
 * walk a response envelope: `getAsJsonArray(key)`, `getAsJsonObject(key)`, `get(key)`,
 * `get(index)`, `asJsonObject` and `asString`.
 */
module Json {
  import opened Wrappers

  /**
   * A JSON value. Objects keep their members in insertion order (Gson's JsonObject does);
   * a number keeps its text, which is what Gson prints for it and what `asString` returns.
   */
  datatype Json =
    | JNull
    | JBool(b: bool)
    | JNumber(text: string)
    | JString(s: string)
    | JArray(items: seq<Json>)
    | JObject(members: seq<Member>)

  datatype Member = Member(key: string, value: Json)

  /** `JsonObject.get(key)`: the value bound to `key`; a key bound twice keeps its last value. */
  function Get(members: seq<Member>, key: string): Option<Json> {
    if members == [] then None
    else if members[|members| - 1].key == key then Some(members[|members| - 1].value)
    else Get(members[..|members| - 1], key)
  }

  /** `get` finds a value exactly when some member has the key, and that value is bound to the key. */
  lemma {:induction false} GetSpec(members: seq<Member>, key: string)
    ensures Get(members, key).None? <==> forall i :: 0 <= i < |members| ==> members[i].key != key
    ensures Get(members, key).Some? ==> exists i :: 0 <= i < |members| && members[i] == Member(key, Get(members, key).value)
  {
    if members != [] {
      var init := members[..|members| - 1];
      GetSpec(init, key);
      assert forall i :: 0 <= i < |init| ==> init[i] == members[i];
    }
  }

  /** What a Gson call on a non-null receiver gives: a value, a Java `null`, or an exception. */
  datatype Outcome = Value(json: Json) | Null | Thrown

  /** The Gson calls that occur in the envelope paths. */
  datatype Call =
    | GetAsJsonArray(arrayKey: string)
    | GetAsJsonObject(objectKey: string)
    | GetMember(memberKey: string)
    | GetIndex(index: nat)
    | AsJsonObject

  /**
   * One call on a receiver. A missing member is `null`; a member of the wrong kind is a
   * ClassCastException, an index past the end an IndexOutOfBoundsException, `asJsonObject`
   * on a non-object an IllegalStateException: all `Thrown`.
   */
  function Invoke(call: Call, receiver: Json): Outcome {
    match call
    case GetAsJsonArray(k) =>
      if !receiver.JObject? then Thrown
      else (match Get(receiver.members, k)
            case None => Null
            case Some(v) => if v.JArray? then Value(v) else Thrown)
    case GetAsJsonObject(k) =>
      if !receiver.JObject? then Thrown
      else (match Get(receiver.members, k)
            case None => Null
            case Some(v) => if v.JObject? then Value(v) else Thrown)
    case GetMember(k) =>
      if !receiver.JObject? then Thrown
      else (match Get(receiver.members, k)
            case None => Null
            case Some(v) => Value(v))
    case GetIndex(i) =>
      if receiver.JArray? && i < |receiver.items| then Value(receiver.items[i]) else Thrown
    case AsJsonObject =>
      if receiver.JObject? then Value(receiver) else Thrown
  }

  /**
   * A chain of calls. With `nullSafe` every link is Kotlin's `?.`, so a `null` flows to the end;
   * without it every link is `.`, so calling on a `null` throws a NullPointerException.
   */
  function Walk(start: Outcome, path: seq<Call>, nullSafe: bool): Outcome
    decreases path
  {
    if path == [] then start
    else
      match start
      case Thrown => Thrown
      case Null => if nullSafe then Null else Thrown
      case Value(j) => Walk(Invoke(path[0], j), path[1..], nullSafe)
  }

  /**
   * `JsonElement.getAsString()`: a string's value, a number's text, "true"/"false", the single
   * element of a one-element array; anything else (null, object, other arrays) throws.
   */
  function AsString(j: Json): Option<string> {
    match j
    case JString(s) => Some(s)
    case JNumber(t) => Some(t)
    case JBool(b) => Some(if b then "true" else "false")
    case JArray(items) => if |items| == 1 then AsString(items[0]) else None
    case _ => None
  }

  /** A value built from one object member, the way `mapOf(key to value)` turns into JSON. */
  function Obj1(k: string, v: Json): Json { JObject([Member(k, v)]) }

  /** Walking a path in two pieces is walking it in one. */
  lemma {:induction false} WalkConcat(start: Outcome, p: seq<Call>, q: seq<Call>, nullSafe: bool)
    ensures Walk(start, p + q, nullSafe) == Walk(Walk(start, p, nullSafe), q, nullSafe)
    decreases p
  {
    if p == [] {
      assert p + q == q;
    } else {
      assert (p + q)[1..] == p[1..] + q;
      match start
      case Thrown =>
        WalkFromThrown(q, nullSafe);
        WalkFromThrown(p + q, nullSafe);
      case Null =>
        WalkFromNull(q, nullSafe);
        WalkFromNull(p + q, nullSafe);
      case Value(j) =>
        WalkConcat(Invoke(p[0], j), p[1..], q, nullSafe);
    }
  }

  lemma WalkFromThrown(path: seq<Call>, nullSafe: bool)
    ensures Walk(Thrown, path, nullSafe) == Thrown
  {
  }

  /** Past a `null`, `?.` carries it to the end and `.` throws. */
  lemma WalkFromNull(path: seq<Call>, nullSafe: bool)
    ensures Walk(Null, path, nullSafe) == if path == [] || nullSafe then Null else Thrown
  {
  }

  /** One call, then the rest of the path. */
  lemma WalkCons(j: Json, c: Call, rest: seq<Call>, nullSafe: bool)
    ensures Walk(Value(j), [c] + rest, nullSafe) == Walk(Invoke(c, j), rest, nullSafe)
  {
    assert ([c] + rest)[1..] == rest;
  }

  /** A path of one call is that call. */
  lemma WalkOne(j: Json, c: Call, nullSafe: bool)
    ensures Walk(Value(j), [c], nullSafe) == Invoke(c, j)
  {
    assert [c][1..] == [];
  }

  /** `get` on an object with one more member at the end. */
  lemma GetAppended(members: seq<Member>, m: Member, key: string)
    ensures Get(members + [m], key) == if m.key == key then Some(m.value) else Get(members, key)
  {
    assert (members + [m])[..|members|] == members;
  }
}
