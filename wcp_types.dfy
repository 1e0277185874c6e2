/** The data model of the protocol (src/wcp_protocol.h, extended to the
    sixteen command types and eleven payload variants that
    src/wcp_protocol.c uses). */
module WcpTypes {
  import opened Wrappers
  import opened WcpJson

  /** WCP_VERSION */
  const WCP_VERSION: string := "1"

  /** WcpCommandType. `Unknown` is WCP_CMD_UNKNOWN, the zero of the enum:
      it is both "no such command" and the greeting sentinel. */
  datatype CommandType =
    | Unknown
    | GetItemList
    | GetItemInfo
    | SetItemColor
    | AddVariables
    | AddScope
    | AddItems
    | AddMarkers
    | RemoveItems
    | FocusItem
    | Clear
    | SetViewportTo
    | SetViewportRange
    | ZoomToFit
    | Load
    | Reload
    | Shutdown

  /** WcpDisplayedItemRef: a guint64 the protocol carries without interpreting. */
  datatype ItemRef = ItemRef(id: uint64)

  /** WcpMarkerInfo; a NULL name is `None`. */
  datatype Marker = Marker(time: int64, name: Option<string>, moveFocus: bool)

  /** WcpItemInfo, produced by the application and only encoded here. */
  datatype ItemInfo = ItemInfo(name: string, kind: string, id: ItemRef)

  /** The members of the payload union of WcpCommand. A list that is NULL
      (member absent on the wire) is `None`, distinct from `Some([])`; a
      string list element that is NULL is `None`. `NoData` is the zeroed
      union of the commands that carry no data. */
  datatype Payload =
    | NoData
    | ItemRefsData(ids: Option<seq<ItemRef>>)
    | SetColorData(id: ItemRef, color: Option<string>)
    | AddVarsData(variables: Option<seq<Option<string>>>)
    | AddScopeData(scope: Option<string>, recursive: bool)
    | AddItemsData(items: Option<seq<Option<string>>>, recursive: bool)
    | AddMarkersData(markers: Option<seq<Marker>>)
    | ViewportToData(timestamp: int64)
    | ViewportRangeData(start: int64, end: int64)
    | FocusData(id: ItemRef)
    | LoadData(source: Option<string>)
    | ZoomData(viewportIdx: uint32)

  /** Which union member a payload is, without its contents. */
  datatype Variant =
    | NoDataVariant
    | ItemRefsVariant
    | SetColorVariant
    | AddVarsVariant
    | AddScopeVariant
    | AddItemsVariant
    | AddMarkersVariant
    | ViewportToVariant
    | ViewportRangeVariant
    | FocusVariant
    | LoadVariant
    | ZoomVariant

  function VariantOf(p: Payload): Variant {
    match p
    case NoData => NoDataVariant
    case ItemRefsData(_) => ItemRefsVariant
    case SetColorData(_, _) => SetColorVariant
    case AddVarsData(_) => AddVarsVariant
    case AddScopeData(_, _) => AddScopeVariant
    case AddItemsData(_, _) => AddItemsVariant
    case AddMarkersData(_) => AddMarkersVariant
    case ViewportToData(_) => ViewportToVariant
    case ViewportRangeData(_, _) => ViewportRangeVariant
    case FocusData(_) => FocusVariant
    case LoadData(_) => LoadVariant
    case ZoomData(_) => ZoomVariant
  }

  /** The union member that belongs to each command type: the one the
      parser fills in and the one the release switch reads. */
  function VariantFor(t: CommandType): Variant {
    match t
    case GetItemInfo | RemoveItems => ItemRefsVariant
    case SetItemColor => SetColorVariant
    case AddVariables => AddVarsVariant
    case AddScope => AddScopeVariant
    case AddItems => AddItemsVariant
    case AddMarkers => AddMarkersVariant
    case SetViewportTo => ViewportToVariant
    case SetViewportRange => ViewportRangeVariant
    case FocusItem => FocusVariant
    case Load => LoadVariant
    case ZoomToFit => ZoomVariant
    case Unknown | GetItemList | Clear | Reload | Shutdown => NoDataVariant
  }

  /** WcpCommand: a tag and a payload union. */
  datatype Command = Command(cmdType: CommandType, data: Payload)

  /** The tagged-union invariant: the populated member matches the tag. */
  predicate WellTyped(c: Command) {
    VariantOf(c.data) == VariantFor(c.cmdType)
  }

  /** What g_new0 yields: tag WCP_CMD_UNKNOWN (= 0) and an all-zero union. */
  const ZeroCommand: Command := Command(Unknown, NoData)
}
