/** JSON values as the JSON library hands a parsed message to the protocol
    layer, the fixed-width integers the C code stores them in, and the
    reading conventions of the library's accessors that the protocol layer
    relies on (a wrong or missing value reads as a default, never as an
    error). */
module WcpJson {
  import opened Wrappers

  /** gint64: the width of every integer the JSON library parses. */
  type int64 = x: int | -0x8000_0000_0000_0000 <= x < 0x8000_0000_0000_0000
  /** guint */
  type uint32 = x: int | 0 <= x < 0x1_0000_0000
  /** guint64 */
  type uint64 = x: int | 0 <= x < 0x1_0000_0000_0000_0000

  /** The C cast `(guint)` applied to a gint64: the value modulo 2^32. */
  function ToGuint(n: int64): (r: uint32)
    ensures r == n <==> 0 <= n < 0x1_0000_0000
    ensures (r - n) % 0x1_0000_0000 == 0
  {
    n % 0x1_0000_0000
  }

  /** A guint64 passed where a gint64 is expected (the builder's integer
      values): two's-complement reinterpretation, so values from 2^63 up
      become negative. */
  function ToGint64(u: uint64): (r: int64)
    ensures r == u <==> u < 0x8000_0000_0000_0000
    ensures (r - u) % 0x1_0000_0000_0000_0000 == 0
  {
    if u < 0x8000_0000_0000_0000 then u else u - 0x1_0000_0000_0000_0000
  }

  /** A JSON value; an object keeps its members in document order.
      Floating-point numbers are not part of this model. A string is the
      text the C code reads through its `gchar*`; a string with an embedded
      NUL is outside the model. */
  datatype Json =
    | JNull
    | JBool(b: bool)
    | JInt(n: int64)
    | JString(str: string)
    | JArray(elems: seq<Json>)
    | JObject(members: seq<Member>)

  datatype Member = Member(key: string, value: Json)

  /** The value of the member named `key`. An object holds one member per
      name: when a document repeats a name, the later member replaces the
      earlier one, so the lookup takes the last occurrence. */
  function Lookup(obj: seq<Member>, key: string): Option<Json> {
    if obj == [] then None
    else
      match Lookup(obj[1..], key)
      case Some(v) => Some(v)
      case None => if obj[0].key == key then Some(obj[0].value) else None
  }

  /** A lookup finds nothing exactly when no member has the name, and what
      it finds is the value of a member with that name. */
  lemma {:induction false} LookupFinds(obj: seq<Member>, key: string)
    ensures Lookup(obj, key).None? <==> forall i :: 0 <= i < |obj| ==> obj[i].key != key
    ensures Lookup(obj, key).Some? ==> exists i :: 0 <= i < |obj| && obj[i] == Member(key, Lookup(obj, key).value)
    decreases |obj|
  {
    if obj != [] {
      LookupFinds(obj[1..], key);
      if Lookup(obj[1..], key).Some? {
        var i :| 0 <= i < |obj[1..]| && obj[1..][i] == Member(key, Lookup(obj[1..], key).value);
        assert obj[i + 1] == obj[1..][i];
      } else {
        forall i | 1 <= i < |obj|
          ensures obj[i].key != key
        {
          assert obj[i] == obj[1..][i - 1];
        }
      }
    }
  }

  /** A lookup in a concatenation: the later part wins. */
  lemma {:induction false} LookupConcat(a: seq<Member>, b: seq<Member>, key: string)
    ensures Lookup(a + b, key) == if Lookup(b, key).Some? then Lookup(b, key) else Lookup(a, key)
    decreases |a|
  {
    if a == [] {
      assert a + b == b;
    } else {
      LookupConcat(a[1..], b, key);
      assert (a + b)[1..] == a[1..] + b;
      assert (a + b)[0] == a[0];
    }
  }

  /** No two members of the object share a name (true of every document
      the encoders build). */
  predicate UniqueKeys(obj: seq<Member>) {
    forall i, j :: 0 <= i < j < |obj| ==> obj[i].key != obj[j].key
  }

  /** In an object without repeated names, a member is what the lookup of
      its name finds. */
  lemma LookupUniqueMember(obj: seq<Member>, key: string, value: Json)
    requires UniqueKeys(obj)
    requires Member(key, value) in obj
    ensures Lookup(obj, key) == Some(value)
  {
    var i :| 0 <= i < |obj| && obj[i] == Member(key, value);
    LookupFinds(obj, key);
    var j :| 0 <= j < |obj| && obj[j] == Member(key, Lookup(obj, key).value);
    assert i == j;
  }

  /** json_object_has_member */
  predicate HasMember(obj: seq<Member>, key: string) {
    Lookup(obj, key).Some?
  }

  // Reading a single JSON value (json_node_get_int and friends, as the
  // protocol uses them): a value of another JSON type reads as the default.

  function IntValue(j: Json): int64 {
    if j.JInt? then j.n else 0
  }

  function StringValue(j: Json): Option<string> {
    if j.JString? then Some(j.str) else None
  }

  function BoolValue(j: Json): bool {
    if j.JBool? then j.b else false
  }

  /** json_array_get_object_element / json_node_get_object: NULL unless the
      value is an object. */
  function ObjectValue(j: Json): Option<seq<Member>> {
    if j.JObject? then Some(j.members) else None
  }

  /** json_object_get_array_member: NULL unless the member holds an array. */
  function ArrayValue(j: Json): Option<seq<Json>> {
    if j.JArray? then Some(j.elems) else None
  }

  // Reading a member of an object: absent reads like a value of the wrong type.

  function IntMember(obj: seq<Member>, key: string): int64 {
    match Lookup(obj, key)
    case Some(j) => IntValue(j)
    case None => 0
  }

  function StringMember(obj: seq<Member>, key: string): Option<string> {
    match Lookup(obj, key)
    case Some(j) => StringValue(j)
    case None => None
  }

  function BoolMember(obj: seq<Member>, key: string): bool {
    match Lookup(obj, key)
    case Some(j) => BoolValue(j)
    case None => false
  }

  function ArrayMember(obj: seq<Member>, key: string): Option<seq<Json>> {
    match Lookup(obj, key)
    case Some(j) => ArrayValue(j)
    case None => None
  }

  /** The elements a loop bounded by json_array_get_length sees: a NULL
      array has length 0. */
  function Elements(arr: Option<seq<Json>>): seq<Json> {
    arr.GetOr([])
  }
}
