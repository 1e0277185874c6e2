/** A reference client: the JSON message a client sends for each command.
    The parser is proved to be its left inverse on every well-typed
    command whose ids fit the 32 bits the parser keeps, so the lenient
    decoders lose nothing a client can say, and keep "absent list" apart
    from "empty list". */
module WcpRoundTrip {
  import opened Wrappers
  import opened WcpJson
  import opened WcpTypes
  import opened WcpRegistry
  import opened WcpDecode
  import opened WcpParser
  import opened WcpEncode

  /** A possibly NULL string, sent as a string or as JSON null. */
  function StringOrNull(s: Option<string>): Json {
    match s
    case Some(v) => JString(v)
    case None => JNull
  }

  function StringOrNullValues(ss: seq<Option<string>>): seq<Json> {
    seq(|ss|, i requires 0 <= i < |ss| => StringOrNull(ss[i]))
  }

  function MarkerValue(m: Marker): Json {
    JObject([
      Member("time", JInt(m.time)),
      Member("name", StringOrNull(m.name)),
      Member("move_focus", JBool(m.moveFocus))])
  }

  function MarkerValues(ms: seq<Marker>): seq<Json> {
    seq(|ms|, i requires 0 <= i < |ms| => MarkerValue(ms[i]))
  }

  /** A list field: omitted when NULL. */
  function ListField(key: string, values: Option<seq<Json>>): seq<Member> {
    match values
    case Some(vs) => [Member(key, JArray(vs))]
    case None => []
  }

  function PayloadMembers(p: Payload): seq<Member> {
    match p
    case NoData => []
    case ItemRefsData(ids) =>
      ListField("ids", if ids.Some? then Some(IdValues(ids.value)) else None)
    case SetColorData(id, color) =>
      [Member("id", IdValue(id)), Member("color", StringOrNull(color))]
    case AddVarsData(variables) =>
      ListField("variables", if variables.Some? then Some(StringOrNullValues(variables.value)) else None)
    case AddScopeData(scope, recursive) =>
      [Member("scope", StringOrNull(scope)), Member("recursive", JBool(recursive))]
    case AddItemsData(items, recursive) =>
      [Member("recursive", JBool(recursive))] +
      ListField("items", if items.Some? then Some(StringOrNullValues(items.value)) else None)
    case AddMarkersData(markers) =>
      ListField("markers", if markers.Some? then Some(MarkerValues(markers.value)) else None)
    case ViewportToData(timestamp) =>
      [Member("timestamp", JInt(timestamp))]
    case ViewportRangeData(start, end) =>
      [Member("start", JInt(start)), Member("end", JInt(end))]
    case FocusData(id) =>
      [Member("id", IdValue(id))]
    case LoadData(source) =>
      [Member("source", StringOrNull(source))]
    case ZoomData(viewportIdx) =>
      [Member("viewport_idx", JInt(viewportIdx))]
  }

  /** The members every command message starts with. */
  function Header(t: CommandType): seq<Member>
    requires t != Unknown
  {
    [Member("type", JString("command")), Member("command", JString(CommandName(t)))]
  }

  /** The message a client sends: a greeting for the sentinel, otherwise a
      command message. */
  function CommandJson(c: Command): Json {
    if c.cmdType == Unknown then JObject([Member("type", JString("greeting"))])
    else JObject(Header(c.cmdType) + PayloadMembers(c.data))
  }

  /** The ids of a payload fit in 32 bits. */
  predicate IdsFit(p: Payload) {
    match p
    case ItemRefsData(ids) =>
      ids.Some? ==> forall i :: 0 <= i < |ids.value| ==> ids.value[i].id < 0x1_0000_0000
    case SetColorData(id, _) => id.id < 0x1_0000_0000
    case FocusData(id) => id.id < 0x1_0000_0000
    case _ => true
  }

  // The element decoders invert the client's element encoders.

  lemma {:induction false} StringsReadBack(ss: seq<Option<string>>)
    ensures StringsOf(StringOrNullValues(ss)) == ss
  {
    var back := StringsOf(StringOrNullValues(ss));
    forall i | 0 <= i < |ss|
      ensures back[i] == ss[i]
    {
      assert StringOrNullValues(ss)[i] == StringOrNull(ss[i]);
    }
  }

  lemma MarkerReadBack(m: Marker)
    ensures MarkerOf(MarkerValue(m)) == m
  {
    var obj := MarkerValue(m).members;
    LookupUniqueMember(obj, "time", JInt(m.time));
    LookupUniqueMember(obj, "name", StringOrNull(m.name));
    LookupUniqueMember(obj, "move_focus", JBool(m.moveFocus));
  }

  lemma {:induction false} MarkersReadBack(ms: seq<Marker>)
    ensures MarkersOf(MarkerValues(ms)) == ms
  {
    var back := MarkersOf(MarkerValues(ms));
    forall i | 0 <= i < |ms|
      ensures back[i] == ms[i]
    {
      assert MarkerValues(ms)[i] == MarkerValue(ms[i]);
      MarkerReadBack(ms[i]);
    }
  }

  // Each payload decoder depends only on the members it reads. Given those
  // lookups, it yields the payload; the read-back lemmas below supply the
  // lookups for the client's message.

  /** The value a client sends for a possibly NULL list. */
  function ListLookup(values: Option<seq<Json>>): Option<Json> {
    match values
    case Some(vs) => Some(JArray(vs))
    case None => None
  }

  lemma ItemRefsFromLookups(obj: seq<Member>, t: CommandType, ids: Option<seq<ItemRef>>)
    requires t == GetItemInfo || t == RemoveItems
    requires IdsFit(ItemRefsData(ids))
    requires Lookup(obj, "ids") == ListLookup(if ids.Some? then Some(IdValues(ids.value)) else None)
    ensures DecodePayload(t, obj) == ItemRefsData(ids)
  {
    if ids.Some? {
      IdValuesReadBack(ids.value);
    }
  }

  lemma VariablesFromLookups(obj: seq<Member>, variables: Option<seq<Option<string>>>)
    requires Lookup(obj, "variables") ==
      ListLookup(if variables.Some? then Some(StringOrNullValues(variables.value)) else None)
    ensures DecodePayload(AddVariables, obj) == AddVarsData(variables)
  {
    if variables.Some? {
      StringsReadBack(variables.value);
    }
  }

  lemma ItemsFromLookups(obj: seq<Member>, items: Option<seq<Option<string>>>, recursive: bool)
    requires Lookup(obj, "recursive") == Some(JBool(recursive))
    requires Lookup(obj, "items") ==
      ListLookup(if items.Some? then Some(StringOrNullValues(items.value)) else None)
    ensures DecodePayload(AddItems, obj) == AddItemsData(items, recursive)
  {
    if items.Some? {
      StringsReadBack(items.value);
    }
  }

  lemma MarkersFromLookups(obj: seq<Member>, markers: Option<seq<Marker>>)
    requires Lookup(obj, "markers") ==
      ListLookup(if markers.Some? then Some(MarkerValues(markers.value)) else None)
    ensures DecodePayload(AddMarkers, obj) == AddMarkersData(markers)
  {
    if markers.Some? {
      MarkersReadBack(markers.value);
    }
  }

  lemma {:induction false} ItemRefsReadBack(t: CommandType, ids: Option<seq<ItemRef>>)
    requires (t == GetItemInfo || t == RemoveItems) && IdsFit(ItemRefsData(ids))
    ensures DecodePayload(t, Header(t) + PayloadMembers(ItemRefsData(ids))) == ItemRefsData(ids)
  {
    var obj := Header(t) + PayloadMembers(ItemRefsData(ids));
    LookupConcat(Header(t), PayloadMembers(ItemRefsData(ids)), "ids");
    ItemRefsFromLookups(obj, t, ids);
  }

  lemma {:induction false} VariablesReadBack(variables: Option<seq<Option<string>>>)
    ensures DecodePayload(AddVariables, Header(AddVariables) + PayloadMembers(AddVarsData(variables)))
         == AddVarsData(variables)
  {
    var obj := Header(AddVariables) + PayloadMembers(AddVarsData(variables));
    LookupConcat(Header(AddVariables), PayloadMembers(AddVarsData(variables)), "variables");
    VariablesFromLookups(obj, variables);
  }

  lemma {:induction false} ItemsReadBack(items: Option<seq<Option<string>>>, recursive: bool)
    ensures DecodePayload(AddItems, Header(AddItems) + PayloadMembers(AddItemsData(items, recursive)))
         == AddItemsData(items, recursive)
  {
    var front := Header(AddItems) + [Member("recursive", JBool(recursive))];
    var list := ListField("items", if items.Some? then Some(StringOrNullValues(items.value)) else None);
    var obj := front + list;
    assert obj == Header(AddItems) + PayloadMembers(AddItemsData(items, recursive));
    LookupConcat(front, list, "items");
    LookupConcat(front, list, "recursive");
    LookupConcat(Header(AddItems), [Member("recursive", JBool(recursive))], "recursive");
    LookupConcat(Header(AddItems), [Member("recursive", JBool(recursive))], "items");
    ItemsFromLookups(obj, items, recursive);
  }

  lemma {:induction false} MarkerListReadBack(markers: Option<seq<Marker>>)
    ensures DecodePayload(AddMarkers, Header(AddMarkers) + PayloadMembers(AddMarkersData(markers)))
         == AddMarkersData(markers)
  {
    var obj := Header(AddMarkers) + PayloadMembers(AddMarkersData(markers));
    LookupConcat(Header(AddMarkers), PayloadMembers(AddMarkersData(markers)), "markers");
    MarkersFromLookups(obj, markers);
  }

  lemma SetColorFromLookups(obj: seq<Member>, id: ItemRef, color: Option<string>)
    requires id.id < 0x1_0000_0000
    requires Lookup(obj, "id") == Some(IdValue(id)) && Lookup(obj, "color") == Some(StringOrNull(color))
    ensures DecodePayload(SetItemColor, obj) == SetColorData(id, color)
  {
  }

  lemma SetColorReadBack(id: ItemRef, color: Option<string>)
    requires id.id < 0x1_0000_0000
    ensures DecodePayload(SetItemColor, Header(SetItemColor) + PayloadMembers(SetColorData(id, color)))
         == SetColorData(id, color)
  {
    var obj := Header(SetItemColor) + PayloadMembers(SetColorData(id, color));
    LookupUniqueMember(obj, "id", IdValue(id));
    LookupUniqueMember(obj, "color", StringOrNull(color));
    SetColorFromLookups(obj, id, color);
  }

  lemma AddScopeFromLookups(obj: seq<Member>, scope: Option<string>, recursive: bool)
    requires Lookup(obj, "scope") == Some(StringOrNull(scope)) && Lookup(obj, "recursive") == Some(JBool(recursive))
    ensures DecodePayload(AddScope, obj) == AddScopeData(scope, recursive)
  {
  }

  lemma AddScopeReadBack(scope: Option<string>, recursive: bool)
    ensures DecodePayload(AddScope, Header(AddScope) + PayloadMembers(AddScopeData(scope, recursive)))
         == AddScopeData(scope, recursive)
  {
    var obj := Header(AddScope) + PayloadMembers(AddScopeData(scope, recursive));
    LookupUniqueMember(obj, "scope", StringOrNull(scope));
    LookupUniqueMember(obj, "recursive", JBool(recursive));
    AddScopeFromLookups(obj, scope, recursive);
  }

  lemma ViewportToReadBack(timestamp: int64)
    ensures DecodePayload(SetViewportTo, Header(SetViewportTo) + PayloadMembers(ViewportToData(timestamp)))
         == ViewportToData(timestamp)
  {
    var obj := Header(SetViewportTo) + PayloadMembers(ViewportToData(timestamp));
    LookupUniqueMember(obj, "timestamp", JInt(timestamp));
  }

  lemma ViewportRangeFromLookups(obj: seq<Member>, start: int64, end: int64)
    requires Lookup(obj, "start") == Some(JInt(start)) && Lookup(obj, "end") == Some(JInt(end))
    ensures DecodePayload(SetViewportRange, obj) == ViewportRangeData(start, end)
  {
  }

  lemma ViewportRangeReadBack(start: int64, end: int64)
    ensures DecodePayload(SetViewportRange, Header(SetViewportRange) + PayloadMembers(ViewportRangeData(start, end)))
         == ViewportRangeData(start, end)
  {
    var obj := Header(SetViewportRange) + PayloadMembers(ViewportRangeData(start, end));
    LookupUniqueMember(obj, "start", JInt(start));
    LookupUniqueMember(obj, "end", JInt(end));
    ViewportRangeFromLookups(obj, start, end);
  }

  lemma FocusReadBack(id: ItemRef)
    requires id.id < 0x1_0000_0000
    ensures DecodePayload(FocusItem, Header(FocusItem) + PayloadMembers(FocusData(id))) == FocusData(id)
  {
    var obj := Header(FocusItem) + PayloadMembers(FocusData(id));
    LookupUniqueMember(obj, "id", IdValue(id));
  }

  lemma LoadReadBack(source: Option<string>)
    ensures DecodePayload(Load, Header(Load) + PayloadMembers(LoadData(source))) == LoadData(source)
  {
    var obj := Header(Load) + PayloadMembers(LoadData(source));
    LookupUniqueMember(obj, "source", StringOrNull(source));
  }

  lemma ZoomReadBack(viewportIdx: uint32)
    ensures DecodePayload(ZoomToFit, Header(ZoomToFit) + PayloadMembers(ZoomData(viewportIdx))) == ZoomData(viewportIdx)
  {
    var obj := Header(ZoomToFit) + PayloadMembers(ZoomData(viewportIdx));
    LookupUniqueMember(obj, "viewport_idx", JInt(viewportIdx));
  }

  /** The decoder of the command's type reads the payload members back. */
  lemma {:induction false} PayloadReadBack(c: Command)
    requires WellTyped(c) && IdsFit(c.data) && c.cmdType != Unknown
    ensures DecodePayload(c.cmdType, Header(c.cmdType) + PayloadMembers(c.data)) == c.data
  {
    var p := c.data;
    if p.ItemRefsData? {
      ItemRefsReadBack(c.cmdType, p.ids);
    } else if p.AddVarsData? {
      VariablesReadBack(p.variables);
    } else if p.AddItemsData? {
      ItemsReadBack(p.items, p.recursive);
    } else if p.AddMarkersData? {
      MarkerListReadBack(p.markers);
    } else {
      match p
      case NoData =>
      case SetColorData(id, color) => SetColorReadBack(id, color);
      case AddScopeData(scope, recursive) => AddScopeReadBack(scope, recursive);
      case ViewportToData(timestamp) => ViewportToReadBack(timestamp);
      case ViewportRangeData(start, end) => ViewportRangeReadBack(start, end);
      case FocusData(id) => FocusReadBack(id);
      case LoadData(source) => LoadReadBack(source);
      case ZoomData(viewportIdx) => ZoomReadBack(viewportIdx);
    }
  }

  /** Parsing what the reference client sends gives back the command. */
  lemma {:induction false} ParseInvertsCommandJson(c: Command)
    requires WellTyped(c) && IdsFit(c.data)
    ensures ParseCommand(Document(CommandJson(c))) == Success(c)
  {
    if c.cmdType == Unknown {
      var obj := [Member("type", JString("greeting"))];
      GreetingAcknowledged(obj);
    } else {
      var obj := CommandJson(c).members;
      LookupUniqueMember(obj, "type", JString("command"));
      LookupUniqueMember(obj, "command", JString(CommandName(c.cmdType)));
      CommandDecoded(obj, c.cmdType);
      PayloadReadBack(c);
    }
  }
}
