/** The payload decoders: parse_id_array, parse_string_array and
    parse_marker_array. Each is specified by a function over the array's
    elements and implemented by the loop the C code runs, appending one
    entry per element. */
module WcpDecode {
  import opened Wrappers
  import opened WcpJson
  import opened WcpTypes

  /** An id as the parser stores it: the wire integer narrowed by `(guint)`
      and widened back into the guint64 field. */
  function IdFromWire(n: int64): (r: ItemRef)
    ensures r.id < 0x1_0000_0000
    ensures 0 <= n < 0x1_0000_0000 ==> r.id == n
  {
    ItemRef(ToGuint(n))
  }

  /** The ids decoded from the elements of an id array. */
  function IdsOf(elems: seq<Json>): seq<ItemRef> {
    seq(|elems|, i requires 0 <= i < |elems| => IdFromWire(IntValue(elems[i])))
  }

  /** The strings decoded from the elements of a string array; a
      non-string element gives a NULL entry. */
  function StringsOf(elems: seq<Json>): seq<Option<string>> {
    seq(|elems|, i requires 0 <= i < |elems| => StringValue(elems[i]))
  }

  /** One marker: a non-object element reads as a NULL object, whose
      accessors give 0, no member and FALSE. `name` and `move_focus` are
      read only when the member exists; otherwise they keep the zeroed
      defaults. */
  function MarkerOf(elem: Json): (m: Marker)
    ensures m.name.Some? ==> elem.JObject? && HasMember(elem.members, "name")
    ensures m.moveFocus ==> elem.JObject? && HasMember(elem.members, "move_focus")
    ensures m.time != 0 ==> elem.JObject? && HasMember(elem.members, "time")
  {
    match ObjectValue(elem)
    case None => Marker(0, None, false)
    case Some(obj) =>
      Marker(
        IntMember(obj, "time"),
        if HasMember(obj, "name") then StringMember(obj, "name") else None,
        if HasMember(obj, "move_focus") then BoolMember(obj, "move_focus") else false)
  }

  function MarkersOf(elems: seq<Json>): seq<Marker> {
    seq(|elems|, i requires 0 <= i < |elems| => MarkerOf(elems[i]))
  }

  /** parse_id_array: one id per element, in element order, duplicates kept. */
  method ParseIdArray(arr: Option<seq<Json>>) returns (ids: seq<ItemRef>)
    ensures ids == IdsOf(Elements(arr))
  {
    var elems := Elements(arr);
    ids := [];
    var i := 0;
    while i < |elems|
      invariant i <= |elems|
      invariant |ids| == i
      invariant forall k :: 0 <= k < i ==> ids[k] == IdFromWire(IntValue(elems[k]))
    {
      ids := ids + [IdFromWire(IntValue(elems[i]))];
      i := i + 1;
    }
  }

  /** parse_string_array: one entry per element, in element order. */
  method ParseStringArray(arr: Option<seq<Json>>) returns (strs: seq<Option<string>>)
    ensures strs == StringsOf(Elements(arr))
  {
    var elems := Elements(arr);
    strs := [];
    var i := 0;
    while i < |elems|
      invariant i <= |elems|
      invariant |strs| == i
      invariant forall k :: 0 <= k < i ==> strs[k] == StringValue(elems[k])
    {
      strs := strs + [StringValue(elems[i])];
      i := i + 1;
    }
  }

  /** parse_marker_array: one marker per element, in element order. */
  method ParseMarkerArray(arr: Option<seq<Json>>) returns (markers: seq<Marker>)
    ensures markers == MarkersOf(Elements(arr))
  {
    var elems := Elements(arr);
    markers := [];
    var i := 0;
    while i < |elems|
      invariant i <= |elems|
      invariant |markers| == i
      invariant forall k :: 0 <= k < i ==> markers[k] == MarkerOf(elems[k])
    {
      var marker := Marker(0, None, false);
      var obj := ObjectValue(elems[i]);
      if obj.Some? {
        marker := marker.(time := IntMember(obj.value, "time"));
        if HasMember(obj.value, "name") {
          marker := marker.(name := StringMember(obj.value, "name"));
        }
        if HasMember(obj.value, "move_focus") {
          marker := marker.(moveFocus := BoolMember(obj.value, "move_focus"));
        }
      }
      markers := markers + [marker];
      i := i + 1;
    }
  }

  /** Every decoded id fits in 32 bits, although the field is 64 bits wide. */
  lemma {:induction false} DecodedIdsBelow2To32(elems: seq<Json>)
    ensures forall k :: 0 <= k < |IdsOf(elems)| ==> IdsOf(elems)[k].id < 0x1_0000_0000
  {
    forall k | 0 <= k < |IdsOf(elems)|
      ensures IdsOf(elems)[k].id < 0x1_0000_0000
    {
      assert IdsOf(elems)[k] == IdFromWire(IntValue(elems[k]));
    }
  }
}
