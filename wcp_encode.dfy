/** The response and event encoders (wcp_create_*). Each outgoing document
    is a function of the encoder's arguments; the encoders whose C code
    loops over a list are also written as that loop and proved to build
    the same document. Documents are JSON values, not text. */
module WcpEncode {
  import opened Wrappers
  import opened WcpJson
  import opened WcpTypes
  import opened WcpRegistry
  import opened WcpDecode

  function StringValues(ss: seq<string>): seq<Json> {
    seq(|ss|, i requires 0 <= i < |ss| => JString(ss[i]))
  }

  /** An id as json_builder_add_int_value receives it. */
  function IdValue(ref: ItemRef): Json {
    JInt(ToGint64(ref.id))
  }

  function IdValues(ids: seq<ItemRef>): seq<Json> {
    seq(|ids|, i requires 0 <= i < |ids| => IdValue(ids[i]))
  }

  function ItemInfoValue(info: ItemInfo): Json {
    JObject([
      Member("name", JString(info.name)),
      Member("type", JString(info.kind)),
      Member("id", IdValue(info.id))])
  }

  function ItemInfoValues(items: seq<ItemInfo>): seq<Json> {
    seq(|items|, i requires 0 <= i < |items| => ItemInfoValue(items[i]))
  }

  // The documents.

  function GreetingDoc(): Json {
    JObject([
      Member("type", JString("greeting")),
      Member("version", JString(WCP_VERSION)),
      Member("commands", JArray(StringValues(SupportedCommands())))])
  }

  /** wcp_create_ack: a fixed document. */
  function CreateAck(): (doc: Json)
    ensures doc.JObject? && |doc.members| == 2
    ensures StringMember(doc.members, "type") == Some("response")
    ensures StringMember(doc.members, "command") == Some("ack")
  {
    JObject([Member("type", JString("response")), Member("command", JString("ack"))])
  }

  /** A NULL argument list is encoded as an empty array. */
  function ErrorDoc(errorType: string, message: string, arguments: Option<seq<string>>): Json {
    JObject([
      Member("type", JString("error")),
      Member("error", JString(errorType)),
      Member("message", JString(message)),
      Member("arguments", JArray(StringValues(arguments.GetOr([]))))])
  }

  function ItemListDoc(ids: Option<seq<ItemRef>>): Json {
    JObject([
      Member("type", JString("response")),
      Member("command", JString("get_item_list")),
      Member("ids", JArray(IdValues(ids.GetOr([]))))])
  }

  function ItemInfoDoc(items: Option<seq<ItemInfo>>): Json {
    JObject([
      Member("type", JString("response")),
      Member("command", JString("get_item_info")),
      Member("results", JArray(ItemInfoValues(items.GetOr([]))))])
  }

  /** A NULL command name falls back to "add_items". */
  function AddItemsDoc(command: Option<string>, ids: Option<seq<ItemRef>>): Json {
    JObject([
      Member("type", JString("response")),
      Member("command", JString(command.GetOr("add_items"))),
      Member("ids", JArray(IdValues(ids.GetOr([]))))])
  }

  /** wcp_create_add_items_response */
  function CreateAddItemsResponse(ids: Option<seq<ItemRef>>): (doc: Json)
    ensures doc == AddItemsDoc(None, ids)
    ensures StringMember(doc.members, "command") == Some("add_items")
  {
    var doc := AddItemsDoc(Some("add_items"), ids);
    LookupUniqueMember(doc.members, "command", JString("add_items"));
    doc
  }

  function EventDoc(event: string, key: string, value: string): Json {
    JObject([
      Member("type", JString("event")),
      Member("event", JString(event)),
      Member(key, JString(value))])
  }

  /** wcp_create_waveforms_loaded_event */
  function CreateWaveformsLoadedEvent(source: string): (doc: Json)
    ensures doc.JObject? && |doc.members| == 3
    ensures StringMember(doc.members, "type") == Some("event")
    ensures StringMember(doc.members, "event") == Some("waveforms_loaded")
    ensures StringMember(doc.members, "source") == Some(source)
  {
    var doc := EventDoc("waveforms_loaded", "source", source);
    LookupUniqueMember(doc.members, "type", JString("event"));
    LookupUniqueMember(doc.members, "event", JString("waveforms_loaded"));
    LookupUniqueMember(doc.members, "source", JString(source));
    doc
  }

  /** wcp_create_goto_declaration_event */
  function CreateGotoDeclarationEvent(variable: string): (doc: Json)
    ensures doc.JObject? && |doc.members| == 3
    ensures StringMember(doc.members, "type") == Some("event")
    ensures StringMember(doc.members, "event") == Some("goto_declaration")
    ensures StringMember(doc.members, "variable") == Some(variable)
  {
    var doc := EventDoc("goto_declaration", "variable", variable);
    LookupUniqueMember(doc.members, "type", JString("event"));
    LookupUniqueMember(doc.members, "event", JString("goto_declaration"));
    LookupUniqueMember(doc.members, "variable", JString(variable));
    doc
  }

  // The encoders that loop over a list.

  /** The loop of wcp_create_greeting: one string per table entry, up to
      the NULL terminator. */
  method TableValues(table: seq<Option<string>>) returns (commands: seq<Json>)
    requires NullIndex(table) < |table|
    ensures commands == StringValues(UpToNull(table))
  {
    var names := UpToNull(table);
    commands := [];
    var i := 0;
    while table[i].Some?
      invariant i <= |names| < |table|
      invariant |commands| == i
      invariant forall k :: 0 <= k < i ==> commands[k] == JString(names[k])
      decreases |table| - i
    {
      commands := commands + [JString(table[i].value)];
      i := i + 1;
    }
    assert commands == StringValues(names);
  }

  /** wcp_create_greeting: type, version, and the advertised commands. */
  method CreateGreeting() returns (doc: Json)
    ensures doc == GreetingDoc()
  {
    SupportedCommandsInOrder();
    var commands := TableValues(GetSupportedCommands());
    doc := JObject([
      Member("type", JString("greeting")),
      Member("version", JString(WCP_VERSION)),
      Member("commands", JArray(commands))]);
  }

  /** The id loop shared by the item-list and add-items responses. */
  method AddIdValues(ids: Option<seq<ItemRef>>) returns (values: seq<Json>)
    ensures values == IdValues(ids.GetOr([]))
  {
    values := [];
    if ids.Some? {
      var i := 0;
      while i < |ids.value|
        invariant i <= |ids.value|
        invariant |values| == i
        invariant forall k :: 0 <= k < i ==> values[k] == IdValue(ids.value[k])
      {
        values := values + [IdValue(ids.value[i])];
        i := i + 1;
      }
    }
  }

  /** wcp_create_error */
  method CreateError(errorType: string, message: string, arguments: Option<seq<string>>) returns (doc: Json)
    ensures doc == ErrorDoc(errorType, message, arguments)
  {
    var values: seq<Json> := [];
    if arguments.Some? {
      var i := 0;
      while i < |arguments.value|
        invariant i <= |arguments.value|
        invariant |values| == i
        invariant forall k :: 0 <= k < i ==> values[k] == JString(arguments.value[k])
      {
        values := values + [JString(arguments.value[i])];
        i := i + 1;
      }
    }
    assert values == StringValues(arguments.GetOr([]));
    doc := JObject([
      Member("type", JString("error")),
      Member("error", JString(errorType)),
      Member("message", JString(message)),
      Member("arguments", JArray(values))]);
  }

  /** wcp_create_item_list_response */
  method CreateItemListResponse(ids: Option<seq<ItemRef>>) returns (doc: Json)
    ensures doc == ItemListDoc(ids)
  {
    var values := AddIdValues(ids);
    doc := JObject([
      Member("type", JString("response")),
      Member("command", JString("get_item_list")),
      Member("ids", JArray(values))]);
  }

  /** wcp_create_item_info_response */
  method CreateItemInfoResponse(items: Option<seq<ItemInfo>>) returns (doc: Json)
    ensures doc == ItemInfoDoc(items)
  {
    var results: seq<Json> := [];
    if items.Some? {
      var i := 0;
      while i < |items.value|
        invariant i <= |items.value|
        invariant |results| == i
        invariant forall k :: 0 <= k < i ==> results[k] == ItemInfoValue(items.value[k])
      {
        var info := items.value[i];
        var result := JObject([
          Member("name", JString(info.name)),
          Member("type", JString(info.kind)),
          Member("id", JInt(ToGint64(info.id.id)))]);
        results := results + [result];
        i := i + 1;
      }
    }
    assert results == ItemInfoValues(items.GetOr([]));
    doc := JObject([
      Member("type", JString("response")),
      Member("command", JString("get_item_info")),
      Member("results", JArray(results))]);
  }

  /** wcp_create_add_items_response_for */
  method CreateAddItemsResponseFor(command: Option<string>, ids: Option<seq<ItemRef>>) returns (doc: Json)
    ensures doc == AddItemsDoc(command, ids)
  {
    var values := AddIdValues(ids);
    doc := JObject([
      Member("type", JString("response")),
      Member("command", JString(if command.Some? then command.value else "add_items")),
      Member("ids", JArray(values))]);
  }

  // What a client reads back from the documents.

  /** The greeting carries type "greeting", version "1" and the vocabulary
      in table order. */
  lemma GreetingContents()
    ensures WCP_VERSION == "1"
    ensures StringMember(GreetingDoc().members, "type") == Some("greeting")
    ensures StringMember(GreetingDoc().members, "version") == Some("1")
    ensures ArrayMember(GreetingDoc().members, "commands") == Some(StringValues(SupportedCommands()))
    ensures |StringValues(SupportedCommands())| == |TableTypes|
    ensures forall i :: 0 <= i < |TableTypes| ==>
      StringValues(SupportedCommands())[i] == JString(CommandName(TableTypes[i]))
  {
    var doc := GreetingDoc();
    LookupUniqueMember(doc.members, "type", JString("greeting"));
    LookupUniqueMember(doc.members, "version", JString(WCP_VERSION));
    LookupUniqueMember(doc.members, "commands", JArray(StringValues(SupportedCommands())));
    GreetingNamesInOrder();
  }

  /** The greeting's string values follow the table, one per command type. */
  lemma GreetingNamesInOrder()
    ensures |StringValues(SupportedCommands())| == |TableTypes|
    ensures forall i :: 0 <= i < |TableTypes| ==>
      StringValues(SupportedCommands())[i] == JString(CommandName(TableTypes[i]))
  {
    SupportedCommandsInOrder();
  }

  /** A name is listed in the greeting exactly when the resolver accepts it. */
  lemma {:induction false} GreetingListsExactlyResolvable(s: string)
    ensures JString(s) in StringValues(SupportedCommands()) <==> ParseCommandType(Some(s)) != Unknown
  {
    var names := SupportedCommands();
    ResolvableIffAdvertised(s);
    if JString(s) in StringValues(names) {
      var i :| 0 <= i < |names| && StringValues(names)[i] == JString(s);
      assert names[i] == s;
    }
    if s in names {
      var i :| 0 <= i < |names| && names[i] == s;
      assert StringValues(names)[i] == JString(s);
    }
  }

  /** The error document carries its type, kind and message, and the
      string decoder reads its arguments back in order; NULL reads as []. */
  lemma {:induction false} ErrorDocReadBack(errorType: string, message: string, arguments: Option<seq<string>>)
    ensures var doc := ErrorDoc(errorType, message, arguments);
      StringMember(doc.members, "type") == Some("error") &&
      StringMember(doc.members, "error") == Some(errorType) &&
      StringMember(doc.members, "message") == Some(message) &&
      var args := arguments.GetOr([]);
      var back := StringsOf(Elements(ArrayMember(doc.members, "arguments")));
      |back| == |args| && forall i :: 0 <= i < |args| ==> back[i] == Some(args[i])
  {
    var doc := ErrorDoc(errorType, message, arguments);
    var values := StringValues(arguments.GetOr([]));
    LookupUniqueMember(doc.members, "type", JString("error"));
    LookupUniqueMember(doc.members, "error", JString(errorType));
    LookupUniqueMember(doc.members, "message", JString(message));
    LookupUniqueMember(doc.members, "arguments", JArray(values));
  }

  /** Ids below 2^32 survive encoding and decoding unchanged, in order. */
  lemma {:induction false} IdValuesReadBack(ids: seq<ItemRef>)
    requires forall i :: 0 <= i < |ids| ==> ids[i].id < 0x1_0000_0000
    ensures IdsOf(IdValues(ids)) == ids
  {
    var back := IdsOf(IdValues(ids));
    forall i | 0 <= i < |ids|
      ensures back[i] == ids[i]
    {
      assert IdValues(ids)[i] == JInt(ids[i].id);
    }
  }

  /** An id at or above 2^32 comes back narrowed. */
  lemma IdAt2To32ReadsBackAsZero()
    ensures IdsOf(IdValues([ItemRef(0x1_0000_0000)])) == [ItemRef(0)]
  {
    assert IdValues([ItemRef(0x1_0000_0000)]) == [JInt(0x1_0000_0000)];
  }

  /** A guint64 id from 2^63 up is sent as a negative integer. */
  lemma IdFrom2To63SentNegative()
    ensures IdValue(ItemRef(0x8000_0000_0000_0000)) == JInt(-0x8000_0000_0000_0000)
    ensures IdValue(ItemRef(0xFFFF_FFFF_FFFF_FFFF)) == JInt(-1)
  {
  }

  /** At every width, each encoded id is the integer that equals the
      guint64 id modulo 2^64, one per id in order. */
  lemma {:induction false} IdValuesMirror(ids: seq<ItemRef>)
    ensures |IdValues(ids)| == |ids|
    ensures forall i :: 0 <= i < |ids| ==>
      IdValues(ids)[i].JInt? && IntValue(IdValues(ids)[i]) % 0x1_0000_0000_0000_0000 == ids[i].id
  {
    forall i | 0 <= i < |ids|
      ensures IdValues(ids)[i].JInt? && IntValue(IdValues(ids)[i]) % 0x1_0000_0000_0000_0000 == ids[i].id
    {
      var u := ids[i].id;
      assert IdValues(ids)[i] == JInt(ToGint64(u));
      if u >= 0x8000_0000_0000_0000 {
        assert ToGint64(u) as int == u as int - 0x1_0000_0000_0000_0000;
      }
    }
  }

  /** The item-list response's ids mirror the input at every width: one
      integer per id, in order, equal to the id modulo 2^64 (NULL gives []). */
  lemma {:induction false} ItemListIdsMirror(ids: Option<seq<ItemRef>>)
    ensures var elems := Elements(ArrayMember(ItemListDoc(ids).members, "ids"));
      |elems| == |ids.GetOr([])| &&
      forall i :: 0 <= i < |elems| ==>
        elems[i].JInt? && IntValue(elems[i]) % 0x1_0000_0000_0000_0000 == ids.GetOr([])[i].id
  {
    LookupUniqueMember(ItemListDoc(ids).members, "ids", JArray(IdValues(ids.GetOr([]))));
    IdValuesMirror(ids.GetOr([]));
  }

  /** The add-items response's ids mirror the input at every width. */
  lemma {:induction false} AddItemsIdsMirror(command: Option<string>, ids: Option<seq<ItemRef>>)
    ensures var elems := Elements(ArrayMember(AddItemsDoc(command, ids).members, "ids"));
      |elems| == |ids.GetOr([])| &&
      forall i :: 0 <= i < |elems| ==>
        elems[i].JInt? && IntValue(elems[i]) % 0x1_0000_0000_0000_0000 == ids.GetOr([])[i].id
  {
    LookupUniqueMember(AddItemsDoc(command, ids).members, "ids", JArray(IdValues(ids.GetOr([]))));
    IdValuesMirror(ids.GetOr([]));
  }

  /** The item-list response: type "response", command "get_item_list",
      and ids below 2^32 that decode back to the input in order (NULL gives []). */
  lemma {:induction false} ItemListReadBack(ids: Option<seq<ItemRef>>)
    requires forall i :: 0 <= i < |ids.GetOr([])| ==> ids.GetOr([])[i].id < 0x1_0000_0000
    ensures var doc := ItemListDoc(ids);
      StringMember(doc.members, "type") == Some("response") &&
      StringMember(doc.members, "command") == Some("get_item_list") &&
      IdsOf(Elements(ArrayMember(doc.members, "ids"))) == ids.GetOr([])
  {
    var doc := ItemListDoc(ids);
    LookupUniqueMember(doc.members, "type", JString("response"));
    LookupUniqueMember(doc.members, "command", JString("get_item_list"));
    LookupUniqueMember(doc.members, "ids", JArray(IdValues(ids.GetOr([]))));
    IdValuesReadBack(ids.GetOr([]));
  }

  /** The add-items response names the given command (or "add_items" for
      NULL), and its ids below 2^32 decode back to the input in order. */
  lemma {:induction false} AddItemsReadBack(command: Option<string>, ids: Option<seq<ItemRef>>)
    requires forall i :: 0 <= i < |ids.GetOr([])| ==> ids.GetOr([])[i].id < 0x1_0000_0000
    ensures var doc := AddItemsDoc(command, ids);
      StringMember(doc.members, "type") == Some("response") &&
      StringMember(doc.members, "command") == Some(if command.None? then "add_items" else command.value) &&
      IdsOf(Elements(ArrayMember(doc.members, "ids"))) == ids.GetOr([])
  {
    var doc := AddItemsDoc(command, ids);
    LookupUniqueMember(doc.members, "type", JString("response"));
    LookupUniqueMember(doc.members, "command", JString(command.GetOr("add_items")));
    LookupUniqueMember(doc.members, "ids", JArray(IdValues(ids.GetOr([]))));
    IdValuesReadBack(ids.GetOr([]));
  }

  /** One item's result object reads back its name, type and id. */
  lemma ItemInfoValueReadBack(info: ItemInfo)
    ensures var v := ItemInfoValue(info);
      v.JObject? &&
      StringMember(v.members, "name") == Some(info.name) &&
      StringMember(v.members, "type") == Some(info.kind) &&
      IntMember(v.members, "id") == ToGint64(info.id.id)
  {
    var v := ItemInfoValue(info);
    LookupUniqueMember(v.members, "name", JString(info.name));
    LookupUniqueMember(v.members, "type", JString(info.kind));
    LookupUniqueMember(v.members, "id", IdValue(info.id));
  }

  /** The item-info response has one {name, type, id} result per item, in
      order; a NULL or empty list gives no results. */
  lemma {:induction false} ItemInfoReadBack(items: Option<seq<ItemInfo>>)
    ensures var doc := ItemInfoDoc(items);
      StringMember(doc.members, "type") == Some("response") &&
      StringMember(doc.members, "command") == Some("get_item_info") &&
      var results := Elements(ArrayMember(doc.members, "results"));
      |results| == |items.GetOr([])| &&
      forall i :: 0 <= i < |results| ==>
        results[i].JObject? &&
        StringMember(results[i].members, "name") == Some(items.GetOr([])[i].name) &&
        StringMember(results[i].members, "type") == Some(items.GetOr([])[i].kind) &&
        IntMember(results[i].members, "id") == ToGint64(items.GetOr([])[i].id.id)
  {
    var doc := ItemInfoDoc(items);
    var values := ItemInfoValues(items.GetOr([]));
    LookupUniqueMember(doc.members, "type", JString("response"));
    LookupUniqueMember(doc.members, "command", JString("get_item_info"));
    LookupUniqueMember(doc.members, "results", JArray(values));
    assert Elements(ArrayMember(doc.members, "results")) == values;
    forall i | 0 <= i < |values|
      ensures values[i].JObject? &&
        StringMember(values[i].members, "name") == Some(items.GetOr([])[i].name) &&
        StringMember(values[i].members, "type") == Some(items.GetOr([])[i].kind) &&
        IntMember(values[i].members, "id") == ToGint64(items.GetOr([])[i].id.id)
    {
      ItemInfoValueReadBack(items.GetOr([])[i]);
    }
  }
}
