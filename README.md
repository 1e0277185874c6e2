# WCP message layer of GTKWave, modelled in Dafny

GTKWave can be driven by the Waveform Control Protocol (WCP), a JSON
protocol in which a client sends a greeting and then commands (load a
file, add signals, move the viewport, place markers, ...), and the viewer
answers with responses and events. This project models the message layer
of that protocol, `src/wcp_protocol.c` and `src/wcp_protocol.h`:

- the command registry: the NULL-terminated table of the 16 command names
  advertised in the greeting, and the exact, case-sensitive name lookup
  (`wcp_registry.dfy`);
- the element decoders `parse_id_array`, `parse_string_array` and
  `parse_marker_array`, as loops proved against sequence functions
  (`wcp_decode.dfy`);
- `wcp_parse_command`, as a total function from a parsed JSON document
  (or the JSON library's syntax error) to a command or an error
  (`wcp_parser.dfy`);
- ownership: the blocks `wcp_parse_command` allocates (the command, the
  payload array, each `g_strdup` copy) and their release by
  `wcp_command_free`, over an allocator that tracks the live set
  (`wcp_ownership.dfy`);
- the response and event encoders `wcp_create_*`, as functions that give
  the JSON document and as loops that build it (`wcp_encode.dfy`);
- a reference client encoder whose messages the parser reads back
  unchanged (`wcp_roundtrip.dfy`).

JSON is a value type (`WcpJson.Json`). The model reads JSON the way the
code's json-glib accessors do:
- a missing or non-integer member reads as 0;
- a missing or non-string member reads as NULL;
- a missing or non-boolean member reads as false;
- a member that is not an array reads as a NULL array of length 0;
- a list element that is not an object reads as an empty marker;
- when a key occurs twice, the last occurrence wins.

An absent list leaves the payload pointer NULL (`None`). That is distinct
from a present, empty list (`Some([])`).

Three facts about the code's errors and defaults, as the model states them:
- **Error domain and code.** Every failure other than malformed JSON text
  is reported with domain `G_IO_ERROR` and code `G_IO_ERROR_INVALID_DATA`:
  a root that is not an object, an unknown message type, an unknown
  command (src/wcp_protocol.c:128, :147, :158). Malformed text carries the
  JSON library's own error.
- **Error messages.** The messages are "WCP message must be a JSON object",
  "Unknown message type: %s" and "Unknown command: %s", where a missing
  string prints as "(null)".
- **Missing marker name.** A marker without a "name" member keeps a NULL
  name (src/wcp_protocol.c:98-104).

## Model

| member | source | states |
|---|---|---|
| WcpJson.ToGuint | src/wcp_protocol.c:71 | a `(guint)` cast keeps an integer unchanged exactly when it lies in [0, 2^32), and otherwise agrees with it mod 2^32 |
| WcpJson.ToGint64 | src/wcp_protocol.c:395 | a guint64 id handed to the gint64 builder is kept below 2^63 and is otherwise shifted down by 2^64 |
| WcpJson.LookupFinds | src/wcp_protocol.c:137 | a member read finds nothing exactly when no member has that key; otherwise it finds the value of a member with that key |
| WcpJson.LookupConcat | src/wcp_protocol.c:137 | reading a key from an object made of two runs of members finds the later run's member when it has one, else the earlier run's (the last duplicate wins) |
| WcpJson.LookupUniqueMember | src/wcp_protocol.c:137 | in an object whose keys are distinct, reading a key gives that key's value |
| WcpRegistry.ParseCommandType | src/wcp_protocol.c:40-62 | NULL resolves to WCP_CMD_UNKNOWN; any other result was reached by exactly that command's name |
| WcpRegistry.NullIndex | src/wcp_protocol.c:316 | the walk to the NULL terminator stops at the first NULL entry, passing only non-NULL entries |
| WcpRegistry.GetSupportedCommands | src/wcp_protocol.c:11-34 | the table holds the 16 command names in source order, followed by NULL |
| WcpRegistry.SupportedCommandsInOrder | src/wcp_protocol.c:11-29 | the names before the terminator are the 16 names of the command types, in table order |
| WcpRegistry.CommandNameResolves | src/wcp_protocol.c:40-62 | each command's own name resolves to that command |
| WcpRegistry.TableIndex | src/wcp_protocol.c:11-29 | each command type other than UNKNOWN names a position of the table that holds that type |
| WcpRegistry.TableIndexOfEntry | src/wcp_protocol.c:11-29 | a type's position is the one its table entry sits at, so no type appears twice |
| WcpRegistry.EveryTypeInTable | src/wcp_protocol.c:11-29 | every command type other than UNKNOWN has an entry in the table |
| WcpRegistry.ResolvableIsAdvertised | src/wcp_protocol.c:11-62 | any name the lookup resolves is listed in the table |
| WcpRegistry.AdvertisedIsResolvable | src/wcp_protocol.c:11-62 | every listed name resolves, to the type at the same position |
| WcpRegistry.ResolvableIffAdvertised | src/wcp_protocol.c:11-62 | a name resolves if and only if it is listed |
| WcpRegistry.AdvertisedDistinct | src/wcp_protocol.c:11-29 | the listed names are pairwise distinct and resolve to pairwise distinct types |
| WcpRegistry.ExactMatchOnly | src/wcp_protocol.c:40-62 | "Load", "load ", "add_item" and "" are all UNKNOWN: names match exactly and case-sensitively |
| WcpDecode.IdFromWire | src/wcp_protocol.c:71 | a decoded id is below 2^32, and equals the wire integer when that integer is in range |
| WcpDecode.MarkerOf | src/wcp_protocol.c:94-110 | a marker has a name, a set move_focus or a nonzero time only when its object carries that member; otherwise each keeps its zero default |
| WcpDecode.ParseIdArray | src/wcp_protocol.c:64-76 | the loop yields one id per element, in order, duplicates kept; a NULL array yields none |
| WcpDecode.ParseStringArray | src/wcp_protocol.c:78-89 | the loop yields one possibly NULL string per element, in order |
| WcpDecode.ParseMarkerArray | src/wcp_protocol.c:91-114 | the loop yields one marker per element, in order, with the defaults of MarkerOf |
| WcpDecode.DecodedIdsBelow2To32 | src/wcp_protocol.c:64-76 | every decoded id fits in 32 bits |
| WcpParser.ListMember | src/wcp_protocol.c:171-174 | a list payload is non-NULL exactly when its member is present |
| WcpParser.DecodePayload | src/wcp_protocol.c:167-239 | the payload filled in is always the union member that belongs to the command type |
| WcpParser.ParseCommand | src/wcp_protocol.c:116-243 | success exactly on a greeting or on a command whose name resolves; a greeting gives the all-zero command; a command is well typed and carries the type its name resolves to |
| WcpParser.MalformedTextFails | src/wcp_protocol.c:121-124 | invalid JSON text fails with the JSON library's own error |
| WcpParser.NonObjectRootFails | src/wcp_protocol.c:127-132 | a root that is not an object fails with "WCP message must be a JSON object" |
| WcpParser.UnknownMessageTypeFails | src/wcp_protocol.c:137-151 | any type other than "command" and "greeting" fails with "Unknown message type: " and the type, or "(null)" |
| WcpParser.UnknownCommandFails | src/wcp_protocol.c:154-161 | an unresolvable command name fails with "Unknown command: " and the name, or "(null)" |
| WcpParser.GreetingAcknowledged | src/wcp_protocol.c:140-145 | a greeting yields the all-zero command of type UNKNOWN |
| WcpParser.CommandDecoded | src/wcp_protocol.c:154-242 | a resolvable command yields that type with the payload decoded from the same object |
| WcpParser.DecodeKeepsDefaults | src/wcp_protocol.c:167-239 | the payload decoder, given no optional members, leaves lists NULL, recursive false and viewport_idx 0 |
| WcpParser.AbsentMembersKeepDefaults | src/wcp_protocol.c:167-239 | with the optional members absent, lists stay NULL, recursive stays false and viewport_idx stays 0 |
| WcpParser.PresentListIsNotNull | src/wcp_protocol.c:169-175 | an "ids" member that is present but an empty array or not an array gives an empty, non-NULL list |
| WcpParser.ParsedPayloadDecoded | src/wcp_protocol.c:116-243 | a parsed command's payload is the decoder's reading of the message object under the parsed type |
| WcpParser.DecodedPayloadIdsBelow2To32 | src/wcp_protocol.c:169-224 | every id the payload decoder yields fits in 32 bits |
| WcpParser.ParsedIdsBelow2To32 | src/wcp_protocol.c:169-224 | every id in a parsed command fits in 32 bits |
| WcpParser.ExampleGetItemInfo | src/wcp_protocol.c:169-175 | a get_item_info with ids [7, 7, 3] decodes to those ids in order, duplicates kept |
| WcpParser.ExampleMarkersDecoded | src/wcp_protocol.c:91-114 | a marker object without name or move_focus decodes to a NULL name and false, one with both fields keeps them |
| WcpParser.ExampleAddMarkers | src/wcp_protocol.c:91-114 | two markers decode with the second's name NULL and move_focus false |
| WcpParser.ExampleBogusType | src/wcp_protocol.c:146-151 | type "bogus" fails with "Unknown message type: bogus" |
| WcpParser.ExampleNegativeIdWraps | src/wcp_protocol.c:222-224 | focus_item with id -1 decodes to id 0xFFFFFFFF |
| WcpOwnership.Heap.Alloc | src/wcp_protocol.c:164 | an allocation returns a block that was not live and adds just that block to the live set |
| WcpOwnership.Heap.Free | src/wcp_protocol.c:296 | freeing a live block removes just that block and keeps every live block below the next fresh address |
| WcpOwnership.StrDup | src/wcp_protocol.c:179 | a copy of a string allocates one fresh block; a copy of NULL is NULL and allocates nothing |
| WcpOwnership.DupStrings | src/wcp_protocol.c:83-86 | the element copies hold the strings in order, in fresh consecutive blocks that become live |
| WcpOwnership.OwnStringArray | src/wcp_protocol.c:78-89 | a string list owns its array block and then one block per non-NULL element, all fresh |
| WcpOwnership.DupMarkers | src/wcp_protocol.c:96-111 | the markers' name copies are fresh consecutive blocks that become live |
| WcpOwnership.OwnMarkerArray | src/wcp_protocol.c:91-114 | a marker list owns its array block and then one block per named marker, all fresh |
| WcpOwnership.OwnData | src/wcp_protocol.c:167-239 | each payload case allocates exactly the blocks its C fields point to, all fresh |
| WcpOwnership.SetError | src/wcp_protocol.c:121-159 | with a non-NULL `error` argument the caller receives a fresh GError (struct and message) holding the error; with NULL nothing is allocated |
| WcpOwnership.ParseCommandOwned | src/wcp_protocol.c:116-243 | on success the caller owns the command block and its payload's blocks, all fresh and distinct; on failure the command is NULL and the caller owns a fresh GError exactly when it passed a non-NULL `error` |
| WcpOwnership.StrFree | src/wcp_protocol.c:258 | g_free of NULL changes nothing; otherwise it releases the string's block |
| WcpOwnership.PtrArrayFree | src/wcp_protocol.c:261-265 | freeing a string list releases every element's block and the array block, each once |
| WcpOwnership.MarkerArrayFree | src/wcp_protocol.c:277-286 | the marker loop releases every name block and then the array block, each once |
| WcpOwnership.PayloadFree | src/wcp_protocol.c:249-294 | the release switch frees exactly the blocks of the union member the tag selects |
| WcpOwnership.CommandFree | src/wcp_protocol.c:245-297 | NULL is a no-op; otherwise exactly the command's blocks, and nothing else, stop being live |
| WcpOwnership.ErrorFree | src/wcp_protocol.c:121-159 | g_error_free releases exactly the GError's two blocks |
| WcpOwnership.ParseThenFree | src/wcp_protocol.c:116-297 | parsing, then freeing the command with wcp_command_free or the GError with g_error_free, leaves the live set as it was: no leak and no double free |
| WcpOwnership.RangeFresh | src/wcp_protocol.c:164 | consecutive fresh blocks are distinct |
| WcpOwnership.DistinctSplit | src/wcp_protocol.c:245-297 | the blocks of a command split into disjoint, duplicate-free groups, so each group can be freed on its own |
| WcpOwnership.ElemPtrsStep | src/wcp_protocol.c:279-283 | each element's block is among the list's blocks and not among those freed before it |
| WcpEncode.TableValues | src/wcp_protocol.c:316-318 | the loop over a NULL-terminated name table emits one string per name up to the terminator, in order |
| WcpEncode.CreateGreeting | src/wcp_protocol.c:303-333 | the greeting loop lists the table's names up to the terminator, under type "greeting" and version "1" |
| WcpEncode.GreetingNamesInOrder | src/wcp_protocol.c:316-318 | the greeting's string values are the sixteen command names in table order |
| WcpEncode.GreetingContents | src/wcp_protocol.c:303-333 | the greeting carries type "greeting", version "1" and the 16 command names in table order |
| WcpEncode.GreetingListsExactlyResolvable | src/wcp_protocol.c:11-62 | a name is in the greeting's command list exactly when the parser resolves it |
| WcpEncode.CreateAck | src/wcp_protocol.c:335-338 | the acknowledgement has exactly two members, type "response" and command "ack" |
| WcpEncode.CreateError | src/wcp_protocol.c:340-377 | the error document carries type "error", the error kind, the message, and the arguments in order, or none when NULL |
| WcpEncode.ErrorDocReadBack | src/wcp_protocol.c:340-377 | reading the error document back gives the kind, the message and the arguments |
| WcpEncode.AddIdValues | src/wcp_protocol.c:393-396 | the id loop emits one integer per id, in order; a NULL array emits none |
| WcpEncode.CreateItemListResponse | src/wcp_protocol.c:379-412 | the item list response carries the ids in order under command "get_item_list" |
| WcpEncode.CreateItemInfoResponse | src/wcp_protocol.c:414-458 | each result object has the item's name, type and id, in order |
| WcpEncode.CreateAddItemsResponseFor | src/wcp_protocol.c:460-493 | the response names the given command, or "add_items" when it is NULL, and carries the ids |
| WcpEncode.CreateAddItemsResponse | src/wcp_protocol.c:495-498 | the add_items response uses the command name "add_items" |
| WcpEncode.CreateWaveformsLoadedEvent | src/wcp_protocol.c:504-530 | the event has exactly type "event", event "waveforms_loaded" and the source |
| WcpEncode.CreateGotoDeclarationEvent | src/wcp_protocol.c:532-558 | the event has exactly type "event", event "goto_declaration" and the variable |
| WcpEncode.IdValuesReadBack | src/wcp_protocol.c:64-76 | ids below 2^32, encoded and decoded again, are the same ids in the same order |
| WcpEncode.IdAt2To32ReadsBackAsZero | src/wcp_protocol.c:71 | id 2^32, encoded and decoded again, comes back as 0 |
| WcpEncode.IdFrom2To63SentNegative | src/wcp_protocol.c:395 | ids of 2^63 and above are sent as negative integers |
| WcpEncode.IdValuesMirror | src/wcp_protocol.c:392-397 | at every width, each id is sent as one integer equal to the guint64 id modulo 2^64, in order |
| WcpEncode.ItemListIdsMirror | src/wcp_protocol.c:379-412 | the item list response holds one integer per id, in order, equal to the id modulo 2^64, for ids of any width; NULL gives none |
| WcpEncode.ItemListReadBack | src/wcp_protocol.c:379-412 | type "response", command "get_item_list", and ids below 2^32 that the parser's decoder reads back unchanged, in order; NULL gives [] |
| WcpEncode.AddItemsIdsMirror | src/wcp_protocol.c:460-493 | the add_items response holds one integer per id, in order, equal to the id modulo 2^64, for ids of any width |
| WcpEncode.AddItemsReadBack | src/wcp_protocol.c:460-493 | the command name ("add_items" for NULL), and ids below 2^32 that the parser's decoder reads back unchanged, in order |
| WcpEncode.ItemInfoValueReadBack | src/wcp_protocol.c:428-442 | one item's result object reads back as its name, type and id |
| WcpEncode.ItemInfoReadBack | src/wcp_protocol.c:414-458 | the item info response has exactly one result per item, in order, each reading back as the item's name, type and id; a NULL or empty list gives no results |
| WcpRoundTrip.StringsReadBack | src/wcp_protocol.c:78-89 | the string decoder inverts the encoder of possibly NULL strings |
| WcpRoundTrip.MarkerReadBack | src/wcp_protocol.c:91-114 | the marker decoder inverts the marker encoder |
| WcpRoundTrip.MarkersReadBack | src/wcp_protocol.c:91-114 | the marker list decoder inverts the list encoder, in order |
| WcpRoundTrip.ItemRefsReadBack | src/wcp_protocol.c:169-175 | get_item_info and remove_items payloads read back, with NULL kept apart from empty |
| WcpRoundTrip.VariablesReadBack | src/wcp_protocol.c:182-187 | add_variables payloads read back, with NULL kept apart from empty |
| WcpRoundTrip.ItemsReadBack | src/wcp_protocol.c:196-204 | add_items payloads read back, with recursive |
| WcpRoundTrip.ItemRefsFromLookups | src/wcp_protocol.c:169-175 | an object whose ids member holds ids below 2^32 decodes to those ids, an absent member to NULL |
| WcpRoundTrip.VariablesFromLookups | src/wcp_protocol.c:182-187 | an object whose variables member holds strings decodes to them, an absent member to NULL |
| WcpRoundTrip.ItemsFromLookups | src/wcp_protocol.c:196-204 | an object with an items member and a recursive flag decodes to both |
| WcpRoundTrip.MarkersFromLookups | src/wcp_protocol.c:206-211 | an object whose markers member holds marker objects decodes to those markers |
| WcpRoundTrip.SetColorFromLookups | src/wcp_protocol.c:177-180 | an object with an id below 2^32 and a color decodes to both |
| WcpRoundTrip.AddScopeFromLookups | src/wcp_protocol.c:189-194 | an object with a scope and a recursive flag decodes to both |
| WcpRoundTrip.ViewportRangeFromLookups | src/wcp_protocol.c:217-220 | an object with start and end decodes to both, unchanged |
| WcpRoundTrip.MarkerListReadBack | src/wcp_protocol.c:206-211 | add_markers payloads read back |
| WcpRoundTrip.SetColorReadBack | src/wcp_protocol.c:177-180 | set_item_color payloads read back |
| WcpRoundTrip.AddScopeReadBack | src/wcp_protocol.c:189-194 | add_scope payloads read back |
| WcpRoundTrip.ViewportToReadBack | src/wcp_protocol.c:213-215 | set_viewport_to timestamps read back unchanged |
| WcpRoundTrip.ViewportRangeReadBack | src/wcp_protocol.c:217-220 | set_viewport_range start and end read back unchanged |
| WcpRoundTrip.FocusReadBack | src/wcp_protocol.c:222-224 | focus_item ids read back |
| WcpRoundTrip.LoadReadBack | src/wcp_protocol.c:226-228 | load sources read back, NULL included |
| WcpRoundTrip.ZoomReadBack | src/wcp_protocol.c:230-234 | zoom_to_fit viewport indices read back |
| WcpRoundTrip.PayloadReadBack | src/wcp_protocol.c:167-239 | every well-typed payload whose ids fit in 32 bits reads back unchanged |
| WcpRoundTrip.ParseInvertsCommandJson | src/wcp_protocol.c:116-243 | parsing a client's message for any such command gives back that command |

## Left out

- Text: the JSON text parser and generator (json-glib) are not modelled. A message is a parsed `Json` value or the library's diagnostic. An encoder returns the document as a value, not as text.
- Library coercions: json-glib's conversions between booleans, integers and doubles are not modelled. Doubles are not represented. A member of the wrong type reads as the type's zero value.
- Warnings: the `g_critical` warnings json-glib prints on a wrong-typed access are not modelled.
- GError contents: a GError is modelled as two blocks, the struct and its message; the message's formatting buffer and the JSON library's own error codes are not modelled.
- JsonParser object: the per-call `JsonParser` object that is created and unreferenced on every path is not part of the allocation model.
- NULL encoder arguments: the string arguments of the encoders (error kind, message, event source and variable, item names and item type strings), the elements of the error `arguments` array (src/wcp_protocol.c:360) and the `WcpItemInfo*` entries of the item info list, which the code dereferences (src/wcp_protocol.c:429-436), are modelled as non-NULL. What the code and json-glib do with a NULL there is not modelled.
- Strings: a string is the NUL-free text the C code sees as a `gchar*`. A JSON string with an escaped U+0000, which json-glib keeps but the code's `g_str_equal`, `g_strdup` and `%s` cut at the NUL, is not modelled. The registry and greeting lemmas (ResolvableIffAdvertised, ExactMatchOnly, GreetingAcknowledged) describe the program for NUL-free strings.
- Arrays as single blocks: a GArray or GPtrArray counts as one block. Its internal buffer reallocations are not modelled.
- Parse order: WcpOwnership.ParseCommandOwned decodes the value first and then allocates the blocks, in the order `wcp_parse_command` allocates them. Nothing between the allocations can fail in the source, so the resulting blocks and live set are the same.
- WcpEncode.IdValuesReadBack: stated only for ids below 2^32, because the decoder keeps 32 bits. WcpEncode.IdAt2To32ReadsBackAsZero shows what happens above.
- WcpEncode.ItemListReadBack: the read-back through the parser's decoder is stated only for ids below 2^32, for the same reason. WcpEncode.ItemListIdsMirror states the encoded ids for every width.
- WcpEncode.AddItemsReadBack: the read-back through the parser's decoder is stated only for ids below 2^32, for the same reason. WcpEncode.AddItemsIdsMirror states the encoded ids for every width.
- WcpRoundTrip.ParseInvertsCommandJson: stated only for commands whose ids fit in 32 bits, for the same reason.
- Transport: the transport, the command handlers and the plugin files that call this layer are not part of this model.
- Header enum: the numeric values of `WcpCommandType` beyond `WCP_CMD_UNKNOWN = 0` are not modelled. Only the zero value of UNKNOWN is relied on, by the greeting command.
