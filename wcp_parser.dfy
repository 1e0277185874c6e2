/** wcp_parse_command: classifies one message as a greeting, a command or
    an error, resolves the command name and fills the matching member of
    the payload union. The JSON text itself is parsed by the JSON library;
    here the input is either that library's diagnostic for malformed text
    or the parsed root value. */
module WcpParser {
  import opened Wrappers
  import opened WcpJson
  import opened WcpTypes
  import opened WcpRegistry
  import opened WcpDecode

  datatype Input = Malformed(diagnostic: string) | Document(root: Json)

  /** The domain and code of the GError the parser reports: whatever the
      JSON library sets for malformed text, or the pair (G_IO_ERROR,
      G_IO_ERROR_INVALID_DATA) for every protocol-level error. */
  datatype ErrorKind = JsonParserError | IoInvalidData

  datatype Error = Error(kind: ErrorKind, message: string)

  const NotAnObjectMessage: string := "WCP message must be a JSON object"

  /** How the code prints a possibly NULL string into an error message. */
  function OrNull(s: Option<string>): string {
    match s
    case Some(v) => v
    case None => "(null)"
  }

  /** A list member: NULL when the member is absent; decoded (possibly
      empty) when it is present, whatever JSON type it holds. */
  function ListMember<T>(obj: seq<Member>, key: string, decode: seq<Json> -> seq<T>): (r: Option<seq<T>>)
    ensures r.Some? <==> HasMember(obj, key)
  {
    if HasMember(obj, key) then Some(decode(Elements(ArrayMember(obj, key)))) else None
  }

  /** The switch of wcp_parse_command over the resolved type: it writes only
      the union member of that type. */
  function DecodePayload(t: CommandType, obj: seq<Member>): (p: Payload)
    ensures VariantOf(p) == VariantFor(t)
  {
    match t
    case GetItemInfo | RemoveItems =>
      ItemRefsData(ListMember(obj, "ids", IdsOf))
    case SetItemColor =>
      SetColorData(IdFromWire(IntMember(obj, "id")), StringMember(obj, "color"))
    case AddVariables =>
      AddVarsData(ListMember(obj, "variables", StringsOf))
    case AddScope =>
      AddScopeData(StringMember(obj, "scope"),
                   if HasMember(obj, "recursive") then BoolMember(obj, "recursive") else false)
    case AddItems =>
      AddItemsData(ListMember(obj, "items", StringsOf),
                   if HasMember(obj, "recursive") then BoolMember(obj, "recursive") else false)
    case AddMarkers =>
      AddMarkersData(ListMember(obj, "markers", MarkersOf))
    case SetViewportTo =>
      ViewportToData(IntMember(obj, "timestamp"))
    case SetViewportRange =>
      ViewportRangeData(IntMember(obj, "start"), IntMember(obj, "end"))
    case FocusItem =>
      FocusData(IdFromWire(IntMember(obj, "id")))
    case Load =>
      LoadData(StringMember(obj, "source"))
    case ZoomToFit =>
      ZoomData(if HasMember(obj, "viewport_idx") then ToGuint(IntMember(obj, "viewport_idx")) else 0)
    case Unknown | GetItemList | Clear | Reload | Shutdown =>
      NoData
  }

  /** The value of "type" in a root object. */
  function MessageType(obj: seq<Member>): Option<string> {
    StringMember(obj, "type")
  }

  /** The inputs the parser accepts: an object whose "type" is "greeting",
      or "command" with a resolvable "command". */
  predicate Accepted(input: Input) {
    input.Document? && input.root.JObject? &&
    var obj := input.root.members;
    MessageType(obj) == Some("greeting") ||
    (MessageType(obj) == Some("command") && ParseCommandType(StringMember(obj, "command")) != Unknown)
  }

  function ParseCommand(input: Input): (r: Result<Command, Error>)
    ensures r.Success? <==> Accepted(input)
    ensures r.Success? ==> WellTyped(r.value)
    ensures r.Success? && r.value.cmdType == Unknown ==> r.value == ZeroCommand
    ensures r.Success? && r.value.cmdType != Unknown ==>
      StringMember(input.root.members, "command") == Some(CommandName(r.value.cmdType))
  {
    match input
    case Malformed(diagnostic) => Failure(Error(JsonParserError, diagnostic))
    case Document(root) =>
      if !root.JObject? then Failure(Error(IoInvalidData, NotAnObjectMessage))
      else
        var obj := root.members;
        var msgType := MessageType(obj);
        if msgType != Some("command") then
          if msgType == Some("greeting") then Success(ZeroCommand)
          else Failure(Error(IoInvalidData, "Unknown message type: " + OrNull(msgType)))
        else
          var cmdName := StringMember(obj, "command");
          var cmdType := ParseCommandType(cmdName);
          if cmdType == Unknown then Failure(Error(IoInvalidData, "Unknown command: " + OrNull(cmdName)))
          else Success(Command(cmdType, DecodePayload(cmdType, obj)))
  }

  // The error cases: each yields an error and no command.

  lemma MalformedTextFails(diagnostic: string)
    ensures ParseCommand(Malformed(diagnostic)) == Failure(Error(JsonParserError, diagnostic))
  {
  }

  lemma NonObjectRootFails(root: Json)
    requires !root.JObject?
    ensures ParseCommand(Document(root)) == Failure(Error(IoInvalidData, NotAnObjectMessage))
  {
  }

  lemma UnknownMessageTypeFails(obj: seq<Member>)
    requires MessageType(obj) != Some("command") && MessageType(obj) != Some("greeting")
    ensures ParseCommand(Document(JObject(obj))) ==
      Failure(Error(IoInvalidData, "Unknown message type: " + OrNull(MessageType(obj))))
  {
  }

  lemma UnknownCommandFails(obj: seq<Member>)
    requires MessageType(obj) == Some("command")
    requires ParseCommandType(StringMember(obj, "command")) == Unknown
    ensures ParseCommand(Document(JObject(obj))) ==
      Failure(Error(IoInvalidData, "Unknown command: " + OrNull(StringMember(obj, "command"))))
  {
  }

  /** A greeting is acknowledged with the zeroed sentinel command whatever
      else the object holds; this path never fails. */
  lemma GreetingAcknowledged(obj: seq<Member>)
    requires MessageType(obj) == Some("greeting")
    ensures ParseCommand(Document(JObject(obj))) == Success(ZeroCommand)
  {
  }

  /** A resolvable command is decoded into the payload of its type. */
  lemma CommandDecoded(obj: seq<Member>, t: CommandType)
    requires MessageType(obj) == Some("command")
    requires t != Unknown && StringMember(obj, "command") == Some(CommandName(t))
    ensures ParseCommand(Document(JObject(obj))) == Success(Command(t, DecodePayload(t, obj)))
  {
    CommandNameResolves(t);
  }

  /** The payload decoder leaves the defaults of absent optional members:
      a list stays NULL (unlike a present empty list), `recursive` stays
      false and `viewport_idx` stays 0. */
  lemma DecodeKeepsDefaults(t: CommandType, obj: seq<Member>)
    requires forall k :: k in ["ids", "variables", "items", "markers", "recursive", "viewport_idx"] ==> !HasMember(obj, k)
    ensures var p := DecodePayload(t, obj);
      (p.ItemRefsData? ==> p.ids.None?) &&
      (p.AddVarsData? ==> p.variables.None?) &&
      (p.AddItemsData? ==> p.items.None? && !p.recursive) &&
      (p.AddScopeData? ==> !p.recursive) &&
      (p.AddMarkersData? ==> p.markers.None?) &&
      (p.ZoomData? ==> p.viewportIdx == 0)
  {
    assert !HasMember(obj, "ids") && !HasMember(obj, "variables") && !HasMember(obj, "items");
    assert !HasMember(obj, "markers") && !HasMember(obj, "recursive") && !HasMember(obj, "viewport_idx");
  }

  /** Absent optional members keep their defaults in the parsed command. */
  lemma {:induction false} AbsentMembersKeepDefaults(obj: seq<Member>, t: CommandType)
    requires MessageType(obj) == Some("command")
    requires t != Unknown && StringMember(obj, "command") == Some(CommandName(t))
    requires forall k :: k in ["ids", "variables", "items", "markers", "recursive", "viewport_idx"] ==> !HasMember(obj, k)
    ensures ParseCommand(Document(JObject(obj))).Success?
    ensures var p := ParseCommand(Document(JObject(obj))).value.data;
      (p.ItemRefsData? ==> p.ids.None?) &&
      (p.AddVarsData? ==> p.variables.None?) &&
      (p.AddItemsData? ==> p.items.None? && !p.recursive) &&
      (p.AddScopeData? ==> !p.recursive) &&
      (p.AddMarkersData? ==> p.markers.None?) &&
      (p.ZoomData? ==> p.viewportIdx == 0)
  {
    CommandDecoded(obj, t);
    DecodeKeepsDefaults(t, obj);
  }

  /** A present but empty (or non-array) list member decodes to an empty
      list, not to NULL. */
  lemma PresentListIsNotNull(obj: seq<Member>, t: CommandType)
    requires MessageType(obj) == Some("command")
    requires t in {GetItemInfo, RemoveItems} && StringMember(obj, "command") == Some(CommandName(t))
    requires HasMember(obj, "ids") && Elements(ArrayMember(obj, "ids")) == []
    ensures ParseCommand(Document(JObject(obj))) == Success(Command(t, ItemRefsData(Some([]))))
  {
    CommandDecoded(obj, t);
    assert IdsOf([]) == [];
  }

  /** A successful parse of a command message is the payload decoder
      applied to the message's object. */
  lemma ParsedPayloadDecoded(input: Input)
    requires ParseCommand(input).Success? && ParseCommand(input).value.cmdType != Unknown
    ensures input.Document? && input.root.JObject?
    ensures ParseCommand(input).value.data == DecodePayload(ParseCommand(input).value.cmdType, input.root.members)
  {
  }

  /** The payload decoder yields ids below 2^32 only. */
  lemma {:induction false} DecodedPayloadIdsBelow2To32(t: CommandType, obj: seq<Member>)
    ensures var p := DecodePayload(t, obj);
      (p.ItemRefsData? && p.ids.Some? ==>
        forall k :: 0 <= k < |p.ids.value| ==> p.ids.value[k].id < 0x1_0000_0000) &&
      (p.SetColorData? || p.FocusData? ==> p.id.id < 0x1_0000_0000)
  {
    var p := DecodePayload(t, obj);
    if p.ItemRefsData? && p.ids.Some? {
      DecodedIdsBelow2To32(Elements(ArrayMember(obj, "ids")));
    }
  }

  /** Every id the parser produces is below 2^32, although WcpDisplayedItemRef
      is 64 bits wide. */
  lemma {:induction false} ParsedIdsBelow2To32(input: Input)
    requires ParseCommand(input).Success?
    ensures var p := ParseCommand(input).value.data;
      (p.ItemRefsData? && p.ids.Some? ==>
        forall k :: 0 <= k < |p.ids.value| ==> p.ids.value[k].id < 0x1_0000_0000) &&
      (p.SetColorData? || p.FocusData? ==> p.id.id < 0x1_0000_0000)
  {
    var c := ParseCommand(input).value;
    if c.cmdType != Unknown {
      ParsedPayloadDecoded(input);
      DecodedPayloadIdsBelow2To32(c.cmdType, input.root.members);
    }
  }

  // Worked examples.

  lemma ExampleGetItemInfo()
    ensures ParseCommand(Document(JObject([
      Member("type", JString("command")),
      Member("command", JString("get_item_info")),
      Member("ids", JArray([JInt(7), JInt(7), JInt(3)]))])))
      == Success(Command(GetItemInfo, ItemRefsData(Some([ItemRef(7), ItemRef(7), ItemRef(3)]))))
  {
    var obj := [
      Member("type", JString("command")),
      Member("command", JString("get_item_info")),
      Member("ids", JArray([JInt(7), JInt(7), JInt(3)]))];
    assert MessageType(obj) == Some("command");
    assert StringMember(obj, "command") == Some(CommandName(GetItemInfo));
    CommandDecoded(obj, GetItemInfo);
    assert Elements(ArrayMember(obj, "ids")) == [JInt(7), JInt(7), JInt(3)];
    assert IdsOf([JInt(7), JInt(7), JInt(3)]) == [ItemRef(7), ItemRef(7), ItemRef(3)];
  }

  /** The two marker objects of the add_markers example decode with the
      absent name NULL and the absent move_focus false. */
  lemma ExampleMarkersDecoded()
    ensures MarkersOf([
        JObject([Member("time", JInt(100)), Member("name", JString("m1"))]),
        JObject([Member("time", JInt(200))])])
      == [Marker(100, Some("m1"), false), Marker(200, None, false)]
  {
    var m1 := [Member("time", JInt(100)), Member("name", JString("m1"))];
    var m2 := [Member("time", JInt(200))];
    LookupUniqueMember(m1, "time", JInt(100));
    LookupUniqueMember(m1, "name", JString("m1"));
    assert !HasMember(m1, "move_focus");
    LookupUniqueMember(m2, "time", JInt(200));
    assert !HasMember(m2, "name") && !HasMember(m2, "move_focus");
    assert MarkerOf(JObject(m1)) == Marker(100, Some("m1"), false);
    assert MarkerOf(JObject(m2)) == Marker(200, None, false);
    assert MarkersOf([JObject(m1), JObject(m2)]) == [MarkerOf(JObject(m1)), MarkerOf(JObject(m2))];
  }

  lemma ExampleAddMarkers()
    ensures ParseCommand(Document(JObject([
      Member("type", JString("command")),
      Member("command", JString("add_markers")),
      Member("markers", JArray([
        JObject([Member("time", JInt(100)), Member("name", JString("m1"))]),
        JObject([Member("time", JInt(200))])]))])))
      == Success(Command(AddMarkers, AddMarkersData(Some([
           Marker(100, Some("m1"), false), Marker(200, None, false)]))))
  {
    var elems := [
      JObject([Member("time", JInt(100)), Member("name", JString("m1"))]),
      JObject([Member("time", JInt(200))])];
    var obj := [
      Member("type", JString("command")),
      Member("command", JString("add_markers")),
      Member("markers", JArray(elems))];
    LookupUniqueMember(obj, "type", JString("command"));
    LookupUniqueMember(obj, "command", JString("add_markers"));
    LookupUniqueMember(obj, "markers", JArray(elems));
    CommandDecoded(obj, AddMarkers);
    ExampleMarkersDecoded();
    assert DecodePayload(AddMarkers, obj) == AddMarkersData(Some(MarkersOf(elems)));
  }

  lemma ExampleBogusType()
    ensures ParseCommand(Document(JObject([Member("type", JString("bogus"))])))
      == Failure(Error(IoInvalidData, "Unknown message type: bogus"))
  {
    var obj := [Member("type", JString("bogus"))];
    assert MessageType(obj) == Some("bogus");
    UnknownMessageTypeFails(obj);
    assert "Unknown message type: " + "bogus" == "Unknown message type: bogus";
  }

  lemma ExampleNegativeIdWraps()
    ensures ParseCommand(Document(JObject([
      Member("type", JString("command")),
      Member("command", JString("focus_item")),
      Member("id", JInt(-1))])))
      == Success(Command(FocusItem, FocusData(ItemRef(0xFFFF_FFFF))))
  {
    var obj := [
      Member("type", JString("command")),
      Member("command", JString("focus_item")),
      Member("id", JInt(-1))];
    assert MessageType(obj) == Some("command");
    assert StringMember(obj, "command") == Some(CommandName(FocusItem));
    CommandDecoded(obj, FocusItem);
    assert IntMember(obj, "id") == -1;
  }
}
