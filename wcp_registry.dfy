/** The command registry: the closed vocabulary table and the exact-match
    resolver from a command name to its type. */
module WcpRegistry {
  import opened Wrappers
  import opened WcpTypes

  /** supported_commands: the sixteen names in greeting order, followed by
      the NULL terminator. */
  const SupportedCommandsTable: seq<Option<string>> := [
    Some("get_item_list"),
    Some("get_item_info"),
    Some("set_item_color"),
    Some("add_variables"),
    Some("add_scope"),
    Some("add_items"),
    Some("add_markers"),
    Some("remove_items"),
    Some("focus_item"),
    Some("clear"),
    Some("set_viewport_to"),
    Some("set_viewport_range"),
    Some("zoom_to_fit"),
    Some("load"),
    Some("reload"),
    Some("shutdown"),
    None
  ]

  /** The command types that have a wire name. */
  type KnownCommandType = t: CommandType | t != Unknown witness GetItemList

  /** The command types in table order. */
  const TableTypes: seq<KnownCommandType> := [
    GetItemList, GetItemInfo, SetItemColor, AddVariables, AddScope, AddItems,
    AddMarkers, RemoveItems, FocusItem, Clear, SetViewportTo, SetViewportRange,
    ZoomToFit, Load, Reload, Shutdown
  ]

  /** The wire name of each command type (the reverse of the resolver). */
  function CommandName(t: CommandType): string
    requires t != Unknown
  {
    match t
    case GetItemList => "get_item_list"
    case GetItemInfo => "get_item_info"
    case SetItemColor => "set_item_color"
    case AddVariables => "add_variables"
    case AddScope => "add_scope"
    case AddItems => "add_items"
    case AddMarkers => "add_markers"
    case RemoveItems => "remove_items"
    case FocusItem => "focus_item"
    case Clear => "clear"
    case SetViewportTo => "set_viewport_to"
    case SetViewportRange => "set_viewport_range"
    case ZoomToFit => "zoom_to_fit"
    case Load => "load"
    case Reload => "reload"
    case Shutdown => "shutdown"
  }

  /** parse_command_type: a NULL name and every name outside the vocabulary
      give Unknown; a known type comes only from its exact name. */
  function ParseCommandType(name: Option<string>): (t: CommandType)
    ensures name.None? ==> t == Unknown
    ensures t != Unknown ==> name == Some(CommandName(t))
  {
    if name.None? then Unknown
    else
      var s := name.value;
      if s == "get_item_list" then GetItemList
      else if s == "get_item_info" then GetItemInfo
      else if s == "set_item_color" then SetItemColor
      else if s == "add_variables" then AddVariables
      else if s == "add_scope" then AddScope
      else if s == "add_items" then AddItems
      else if s == "add_markers" then AddMarkers
      else if s == "remove_items" then RemoveItems
      else if s == "focus_item" then FocusItem
      else if s == "clear" then Clear
      else if s == "set_viewport_to" then SetViewportTo
      else if s == "set_viewport_range" then SetViewportRange
      else if s == "zoom_to_fit" then ZoomToFit
      else if s == "load" then Load
      else if s == "reload" then Reload
      else if s == "shutdown" then Shutdown
      else Unknown
  }

  /** The position of the NULL terminator of a string table (its length
      when there is none). */
  function NullIndex(table: seq<Option<string>>, from: nat := 0): (n: nat)
    requires from <= |table|
    requires forall i :: 0 <= i < from ==> table[i].Some?
    ensures from <= n <= |table|
    ensures forall i :: 0 <= i < n ==> table[i].Some?
    ensures n < |table| ==> table[n].None?
    decreases |table| - from
  {
    if from == |table| || table[from].None? then from else NullIndex(table, from + 1)
  }

  /** The entries of a NULL-terminated string table, up to the terminator
      (the walk `for (cmd = table; *cmd != NULL; cmd++)`). */
  function UpToNull(table: seq<Option<string>>): seq<string> {
    seq(NullIndex(table), i requires 0 <= i < NullIndex(table) => table[i].value)
  }

  /** wcp_get_supported_commands: the table itself. Its sixteen entries
      before the terminator are the names of the sixteen known types, in
      table order. */
  function GetSupportedCommands(): (table: seq<Option<string>>)
    ensures |table| == |TableTypes| + 1 && table[|TableTypes|].None?
    ensures forall i :: 0 <= i < |TableTypes| ==> table[i] == Some(CommandName(TableTypes[i]))
  {
    SupportedCommandsTable
  }

  /** The names a client sees advertised. */
  function SupportedCommands(): seq<string> {
    UpToNull(GetSupportedCommands())
  }

  lemma {:induction false} SupportedCommandsInOrder()
    ensures |SupportedCommands()| == |TableTypes|
    ensures forall i :: 0 <= i < |TableTypes| ==> SupportedCommands()[i] == CommandName(TableTypes[i])
  {
  }

  /** The resolver inverts the name table. */
  lemma CommandNameResolves(t: CommandType)
    requires t != Unknown
    ensures ParseCommandType(Some(CommandName(t))) == t
  {
  }

  /** The table position of each known command type. */
  function TableIndex(t: KnownCommandType): (i: nat)
    ensures i < |TableTypes| && TableTypes[i] == t
  {
    match t
    case GetItemList => 0
    case GetItemInfo => 1
    case SetItemColor => 2
    case AddVariables => 3
    case AddScope => 4
    case AddItems => 5
    case AddMarkers => 6
    case RemoveItems => 7
    case FocusItem => 8
    case Clear => 9
    case SetViewportTo => 10
    case SetViewportRange => 11
    case ZoomToFit => 12
    case Load => 13
    case Reload => 14
    case Shutdown => 15
  }

  /** Every command type other than Unknown occurs in the table. */
  lemma EveryTypeInTable(t: CommandType)
    requires t != Unknown
    ensures exists i :: 0 <= i < |TableTypes| && TableTypes[i] == t
  {
    var i := TableIndex(t);
  }

  /** Each table position holds the type whose index it is, so no type
      occurs twice. */
  lemma {:induction false} TableIndexOfEntry(k: nat)
    requires k < |TableTypes|
    ensures TableIndex(TableTypes[k]) == k
  {
    if k == 0 {} else if k == 1 {} else if k == 2 {} else if k == 3 {}
    else if k == 4 {} else if k == 5 {} else if k == 6 {} else if k == 7 {}
    else if k == 8 {} else if k == 9 {} else if k == 10 {} else if k == 11 {}
    else if k == 12 {} else if k == 13 {} else if k == 14 {} else {}
  }

  /** Every name the resolver knows is advertised. */
  lemma {:induction false} ResolvableIsAdvertised(s: string)
    requires ParseCommandType(Some(s)) != Unknown
    ensures s in SupportedCommands()
  {
    SupportedCommandsInOrder();
    var t := ParseCommandType(Some(s));
    EveryTypeInTable(t);
    var i :| 0 <= i < |TableTypes| && TableTypes[i] == t;
    assert SupportedCommands()[i] == s;
  }

  /** Every advertised name resolves, to the type at its table position. */
  lemma {:induction false} AdvertisedIsResolvable(i: nat)
    requires i < |SupportedCommands()|
    ensures ParseCommandType(Some(SupportedCommands()[i])) == TableTypes[i] != Unknown
  {
    SupportedCommandsInOrder();
    CommandNameResolves(TableTypes[i]);
  }

  /** The advertised list and the resolvable names never diverge: a name
      resolves exactly when it is advertised. */
  lemma {:induction false} ResolvableIffAdvertised(s: string)
    ensures ParseCommandType(Some(s)) != Unknown <==> s in SupportedCommands()
  {
    if ParseCommandType(Some(s)) != Unknown {
      ResolvableIsAdvertised(s);
    }
    if s in SupportedCommands() {
      var i :| 0 <= i < |SupportedCommands()| && SupportedCommands()[i] == s;
      AdvertisedIsResolvable(i);
    }
  }

  /** Two advertised entries at different positions are different names
      and resolve to different types: the list has no duplicates. */
  lemma {:induction false} AdvertisedDistinct(i: nat, j: nat)
    requires i < j < |SupportedCommands()|
    ensures SupportedCommands()[i] != SupportedCommands()[j]
    ensures ParseCommandType(Some(SupportedCommands()[i])) != ParseCommandType(Some(SupportedCommands()[j]))
  {
    AdvertisedIsResolvable(i);
    AdvertisedIsResolvable(j);
    TableIndexOfEntry(i);
    TableIndexOfEntry(j);
  }

  /** Matching is exact: no case folding, no prefixes. */
  lemma ExactMatchOnly()
    ensures ParseCommandType(Some("Load")) == Unknown
    ensures ParseCommandType(Some("load ")) == Unknown
    ensures ParseCommandType(Some("add_item")) == Unknown
    ensures ParseCommandType(Some("")) == Unknown
  {
  }
}
