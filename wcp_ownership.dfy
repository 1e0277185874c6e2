/** Ownership of the memory behind a parsed command. wcp_parse_command
    hands its caller a WcpCommand block together with the blocks its
    payload points to (a GArray or GPtrArray, and g_strdup copies), and
    wcp_command_free releases them. The heap is an allocator that records
    which blocks are live; the C command mirrors the struct with the
    address of every block, and `View` forgets the addresses. The proofs
    show that freeing releases every block parsing allocated, each exactly
    once, and that a parse followed by a free leaves the heap as it was. */
module WcpOwnership {
  import opened Wrappers
  import opened WcpJson
  import opened WcpTypes
  import opened WcpParser

  type Ptr = nat

  /** The allocator: the set of live blocks and the next fresh address. */
  class Heap {
    var live: set<Ptr>
    var next: Ptr

    /** Every live block was handed out before `next`. */
    ghost predicate Valid()
      reads this
    {
      forall p :: p in live ==> p < next
    }

    constructor ()
      ensures Valid() && live == {} && next == 0
    {
      live := {};
      next := 0;
    }

    /** g_malloc, g_new0, g_array_new, g_ptr_array_new: a fresh block. */
    method Alloc() returns (p: Ptr)
      requires Valid()
      modifies this
      ensures Valid()
      ensures p == old(next) && next == old(next) + 1
      ensures p !in old(live) && live == old(live) + {p}
    {
      p := next;
      live := live + {p};
      next := next + 1;
    }

    /** g_free of a live block; freeing a block that is not live is an error. */
    method Free(p: Ptr)
      requires Valid() && p in live
      modifies this
      ensures Valid()
      ensures live == old(live) - {p} && next == old(next)
    {
      live := live - {p};
    }
  }

  // The C layout of a command: each heap block carries its address.

  datatype CString = CString(ptr: Ptr, text: string)
  datatype CMarker = CMarker(time: int64, name: Option<CString>, moveFocus: bool)
  datatype CIdArray = CIdArray(ptr: Ptr, ids: seq<ItemRef>)
  datatype CStrArray = CStrArray(ptr: Ptr, strs: seq<Option<CString>>)
  datatype CMarkerArray = CMarkerArray(ptr: Ptr, markers: seq<CMarker>)

  datatype CData =
    | CNoData
    | CItemRefs(ids: Option<CIdArray>)
    | CSetColor(id: ItemRef, color: Option<CString>)
    | CAddVars(variables: Option<CStrArray>)
    | CAddScope(scope: Option<CString>, recursive: bool)
    | CAddItems(items: Option<CStrArray>, recursive: bool)
    | CAddMarkers(markers: Option<CMarkerArray>)
    | CViewportTo(timestamp: int64)
    | CViewportRange(start: int64, end: int64)
    | CFocus(id: ItemRef)
    | CLoad(source: Option<CString>)
    | CZoom(viewportIdx: uint32)

  datatype CCommand = CCommand(ptr: Ptr, cmdType: CommandType, data: CData)

  // The value a C command holds, addresses forgotten.

  function Text(s: Option<CString>): Option<string> {
    match s
    case Some(cs) => Some(cs.text)
    case None => None
  }

  function Texts(ss: seq<Option<CString>>): seq<Option<string>> {
    seq(|ss|, i requires 0 <= i < |ss| => Text(ss[i]))
  }

  function StrArrayView(a: Option<CStrArray>): Option<seq<Option<string>>> {
    match a
    case Some(arr) => Some(Texts(arr.strs))
    case None => None
  }

  function MarkerView(m: CMarker): Marker {
    Marker(m.time, Text(m.name), m.moveFocus)
  }

  function MarkerViews(ms: seq<CMarker>): seq<Marker> {
    seq(|ms|, i requires 0 <= i < |ms| => MarkerView(ms[i]))
  }

  function DataView(d: CData): Payload {
    match d
    case CNoData => NoData
    case CItemRefs(ids) => ItemRefsData(if ids.Some? then Some(ids.value.ids) else None)
    case CSetColor(id, color) => SetColorData(id, Text(color))
    case CAddVars(variables) => AddVarsData(StrArrayView(variables))
    case CAddScope(scope, recursive) => AddScopeData(Text(scope), recursive)
    case CAddItems(items, recursive) => AddItemsData(StrArrayView(items), recursive)
    case CAddMarkers(markers) =>
      AddMarkersData(if markers.Some? then Some(MarkerViews(markers.value.markers)) else None)
    case CViewportTo(timestamp) => ViewportToData(timestamp)
    case CViewportRange(start, end) => ViewportRangeData(start, end)
    case CFocus(id) => FocusData(id)
    case CLoad(source) => LoadData(Text(source))
    case CZoom(viewportIdx) => ZoomData(viewportIdx)
  }

  function View(cc: CCommand): Command {
    Command(cc.cmdType, DataView(cc.data))
  }

  // The blocks a C command owns, in the order the parser allocates them.

  function StrPtr(s: Option<CString>): seq<Ptr> {
    match s
    case Some(cs) => [cs.ptr]
    case None => []
  }

  function ElemPtrs(ss: seq<Option<CString>>): seq<Ptr>
    decreases |ss|
  {
    if ss == [] then [] else ElemPtrs(ss[..|ss| - 1]) + StrPtr(ss[|ss| - 1])
  }

  function Names(ms: seq<CMarker>): seq<Option<CString>> {
    seq(|ms|, i requires 0 <= i < |ms| => ms[i].name)
  }

  function StrArrayPtrs(a: Option<CStrArray>): seq<Ptr> {
    match a
    case Some(arr) => [arr.ptr] + ElemPtrs(arr.strs)
    case None => []
  }

  function MarkerArrayPtrs(a: Option<CMarkerArray>): seq<Ptr> {
    match a
    case Some(arr) => [arr.ptr] + ElemPtrs(Names(arr.markers))
    case None => []
  }

  function DataPtrs(d: CData): seq<Ptr> {
    match d
    case CItemRefs(ids) => if ids.Some? then [ids.value.ptr] else []
    case CSetColor(_, color) => StrPtr(color)
    case CAddVars(variables) => StrArrayPtrs(variables)
    case CAddScope(scope, _) => StrPtr(scope)
    case CAddItems(items, _) => StrArrayPtrs(items)
    case CAddMarkers(markers) => MarkerArrayPtrs(markers)
    case CLoad(source) => StrPtr(source)
    case _ => []
  }

  /** The command block first, then the payload's blocks. */
  function Ptrs(cc: CCommand): seq<Ptr> {
    [cc.ptr] + DataPtrs(cc.data)
  }

  function Elems(s: seq<Ptr>): set<Ptr> {
    set p | p in s
  }

  predicate Distinct(s: seq<Ptr>) {
    forall i, j :: 0 <= i < j < |s| ==> s[i] != s[j]
  }

  /** The addresses lo, lo + 1, ..., hi - 1. */
  function Range(lo: nat, hi: nat): seq<Ptr>
    requires lo <= hi
  {
    seq(hi - lo, i requires 0 <= i < hi - lo => lo + i)
  }

  // Facts about addresses.

  lemma RangeConcat(lo: nat, mid: nat, hi: nat)
    requires lo <= mid <= hi
    ensures Range(lo, mid) + Range(mid, hi) == Range(lo, hi)
  {
  }

  /** A range is duplicate-free and holds exactly the addresses in it. */
  lemma RangeFresh(lo: nat, hi: nat)
    requires lo <= hi
    ensures Distinct(Range(lo, hi))
    ensures forall p :: p in Elems(Range(lo, hi)) <==> lo <= p < hi
  {
    forall p | lo <= p < hi
      ensures p in Elems(Range(lo, hi))
    {
      assert Range(lo, hi)[p - lo] == p;
    }
  }

  lemma ElemsConcat(a: seq<Ptr>, b: seq<Ptr>)
    ensures Elems(a + b) == Elems(a) + Elems(b)
  {
  }

  /** A duplicate-free sequence splits into duplicate-free, disjoint halves. */
  lemma DistinctSplit(a: seq<Ptr>, b: seq<Ptr>)
    requires Distinct(a + b)
    ensures Distinct(a) && Distinct(b) && Elems(a) !! Elems(b)
  {
    forall i, j | 0 <= i < j < |a|
      ensures a[i] != a[j]
    {
      assert (a + b)[i] == a[i] && (a + b)[j] == a[j];
    }
    forall i, j | 0 <= i < j < |b|
      ensures b[i] != b[j]
    {
      assert (a + b)[|a| + i] == b[i] && (a + b)[|a| + j] == b[j];
    }
    forall i, j | 0 <= i < |a| && 0 <= j < |b|
      ensures a[i] != b[j]
    {
      assert (a + b)[i] == a[i] && (a + b)[|a| + j] == b[j];
    }
  }

  lemma {:induction false} ElemPtrsAppend(a: seq<Option<CString>>, b: seq<Option<CString>>)
    ensures ElemPtrs(a + b) == ElemPtrs(a) + ElemPtrs(b)
    decreases |b|
  {
    if b == [] {
      assert a + b == a;
    } else {
      var b' := b[..|b| - 1];
      var last := b[|b| - 1];
      ElemPtrsAppend(a, b');
      assert (a + b)[..|a + b| - 1] == a + b';
      assert (a + b)[|a + b| - 1] == last;
      calc {
        ElemPtrs(a + b);
        ElemPtrs(a + b') + StrPtr(last);
        ElemPtrs(a) + ElemPtrs(b') + StrPtr(last);
        ElemPtrs(a) + (ElemPtrs(b') + StrPtr(last));
        ElemPtrs(a) + ElemPtrs(b);
      }
    }
  }

  lemma ElemPtrsSnoc(ss: seq<Option<CString>>, s: Option<CString>)
    ensures ElemPtrs(ss + [s]) == ElemPtrs(ss) + StrPtr(s)
  {
    assert (ss + [s])[..|ss|] == ss;
  }

  lemma NamesSnoc(ms: seq<CMarker>, m: CMarker)
    ensures Names(ms + [m]) == Names(ms) + [m.name]
  {
  }

  /** One element of a duplicate-free string list: its block follows the
      blocks before it, belongs to the list and is not among the earlier ones. */
  lemma {:induction false} ElemPtrsStep(ss: seq<Option<CString>>, i: nat)
    requires i < |ss| && Distinct(ElemPtrs(ss))
    ensures ElemPtrs(ss[..i + 1]) == ElemPtrs(ss[..i]) + StrPtr(ss[i])
    ensures Elems(StrPtr(ss[i])) <= Elems(ElemPtrs(ss))
    ensures Elems(StrPtr(ss[i])) !! Elems(ElemPtrs(ss[..i]))
  {
    assert ss[..i + 1][..i] == ss[..i];
    ElemPtrsAppend(ss[..i + 1], ss[i + 1..]);
    assert ss[..i + 1] + ss[i + 1..] == ss;
    DistinctSplit(ElemPtrs(ss[..i + 1]), ElemPtrs(ss[i + 1..]));
    DistinctSplit(ElemPtrs(ss[..i]), StrPtr(ss[i]));
  }

  // Allocation, in the parser's order.

  /** g_strdup: a copy in a fresh block; NULL is copied to NULL without
      allocating. */
  method StrDup(heap: Heap, s: Option<string>) returns (cs: Option<CString>)
    requires heap.Valid()
    modifies heap
    ensures heap.Valid()
    ensures Text(cs) == s
    ensures old(heap.next) <= heap.next && StrPtr(cs) == Range(old(heap.next), heap.next)
    ensures heap.live == old(heap.live) + Elems(StrPtr(cs))
  {
    if s.None? {
      cs := None;
    } else {
      var p := heap.Alloc();
      cs := Some(CString(p, s.value));
    }
  }

  /** The g_strdup calls of parse_string_array, element by element. */
  method DupStrings(heap: Heap, ss: seq<Option<string>>) returns (cs: seq<Option<CString>>)
    requires heap.Valid()
    modifies heap
    ensures heap.Valid()
    ensures Texts(cs) == ss
    ensures old(heap.next) <= heap.next && ElemPtrs(cs) == Range(old(heap.next), heap.next)
    ensures heap.live == old(heap.live) + Elems(ElemPtrs(cs))
  {
    cs := [];
    var i := 0;
    while i < |ss|
      invariant 0 <= i <= |ss| && |cs| == i
      invariant heap.Valid() && old(heap.next) <= heap.next
      invariant forall k :: 0 <= k < i ==> Text(cs[k]) == ss[k]
      invariant ElemPtrs(cs) == Range(old(heap.next), heap.next)
      invariant heap.live == old(heap.live) + Elems(ElemPtrs(cs))
    {
      var mid := heap.next;
      var c := StrDup(heap, ss[i]);
      ElemPtrsSnoc(cs, c);
      RangeConcat(old(heap.next), mid, heap.next);
      ElemsConcat(ElemPtrs(cs), StrPtr(c));
      cs := cs + [c];
      i := i + 1;
    }
    assert Texts(cs) == ss;
  }

  /** parse_string_array: a GPtrArray block, then a copy of each element. */
  method OwnStringArray(heap: Heap, ss: Option<seq<Option<string>>>) returns (a: Option<CStrArray>)
    requires heap.Valid()
    modifies heap
    ensures heap.Valid()
    ensures StrArrayView(a) == ss
    ensures old(heap.next) <= heap.next && StrArrayPtrs(a) == Range(old(heap.next), heap.next)
    ensures heap.live == old(heap.live) + Elems(StrArrayPtrs(a))
  {
    if ss.None? {
      a := None;
    } else {
      var p := heap.Alloc();
      var cs := DupStrings(heap, ss.value);
      RangeConcat(old(heap.next), p + 1, heap.next);
      ElemsConcat([p], ElemPtrs(cs));
      a := Some(CStrArray(p, cs));
    }
  }

  /** The loop of parse_marker_array: a copy of each marker's name when
      it has one. */
  method DupMarkers(heap: Heap, markers: seq<Marker>) returns (cms: seq<CMarker>)
    requires heap.Valid()
    modifies heap
    ensures heap.Valid()
    ensures MarkerViews(cms) == markers
    ensures old(heap.next) <= heap.next && ElemPtrs(Names(cms)) == Range(old(heap.next), heap.next)
    ensures heap.live == old(heap.live) + Elems(ElemPtrs(Names(cms)))
  {
    cms := [];
    var i := 0;
    while i < |markers|
      invariant 0 <= i <= |markers| && |cms| == i
      invariant heap.Valid() && old(heap.next) <= heap.next
      invariant forall k :: 0 <= k < i ==> MarkerView(cms[k]) == markers[k]
      invariant ElemPtrs(Names(cms)) == Range(old(heap.next), heap.next)
      invariant heap.live == old(heap.live) + Elems(ElemPtrs(Names(cms)))
    {
      var mid := heap.next;
      var name := StrDup(heap, markers[i].name);
      var cm := CMarker(markers[i].time, name, markers[i].moveFocus);
      NamesSnoc(cms, cm);
      ElemPtrsSnoc(Names(cms), name);
      RangeConcat(old(heap.next), mid, heap.next);
      ElemsConcat(ElemPtrs(Names(cms)), StrPtr(name));
      cms := cms + [cm];
      i := i + 1;
    }
    assert MarkerViews(cms) == markers;
  }

  /** parse_marker_array: a GArray block, then the names. */
  method OwnMarkerArray(heap: Heap, ms: Option<seq<Marker>>) returns (a: Option<CMarkerArray>)
    requires heap.Valid()
    modifies heap
    ensures heap.Valid()
    ensures (if a.Some? then Some(MarkerViews(a.value.markers)) else None) == ms
    ensures old(heap.next) <= heap.next && MarkerArrayPtrs(a) == Range(old(heap.next), heap.next)
    ensures heap.live == old(heap.live) + Elems(MarkerArrayPtrs(a))
  {
    if ms.None? {
      a := None;
    } else {
      var p := heap.Alloc();
      var cms := DupMarkers(heap, ms.value);
      RangeConcat(old(heap.next), p + 1, heap.next);
      ElemsConcat([p], ElemPtrs(Names(cms)));
      a := Some(CMarkerArray(p, cms));
    }
  }

  /** The payload allocations of wcp_parse_command, case by case. */
  method OwnData(heap: Heap, d: Payload) returns (data: CData)
    requires heap.Valid()
    modifies heap
    ensures heap.Valid()
    ensures DataView(data) == d
    ensures old(heap.next) <= heap.next && DataPtrs(data) == Range(old(heap.next), heap.next)
    ensures heap.live == old(heap.live) + Elems(DataPtrs(data))
  {
    match d
    case NoData =>
      data := CNoData;
    case ItemRefsData(ids) =>
      if ids.Some? {
        var p := heap.Alloc();
        data := CItemRefs(Some(CIdArray(p, ids.value)));
      } else {
        data := CItemRefs(None);
      }
    case SetColorData(id, color) =>
      var s := StrDup(heap, color);
      data := CSetColor(id, s);
    case AddVarsData(variables) =>
      var a := OwnStringArray(heap, variables);
      data := CAddVars(a);
    case AddScopeData(scope, recursive) =>
      var s := StrDup(heap, scope);
      data := CAddScope(s, recursive);
    case AddItemsData(items, recursive) =>
      var a := OwnStringArray(heap, items);
      data := CAddItems(a, recursive);
    case AddMarkersData(markers) =>
      var a := OwnMarkerArray(heap, markers);
      data := CAddMarkers(a);
    case ViewportToData(timestamp) =>
      data := CViewportTo(timestamp);
    case ViewportRangeData(start, end) =>
      data := CViewportRange(start, end);
    case FocusData(id) =>
      data := CFocus(id);
    case LoadData(source) =>
      var s := StrDup(heap, source);
      data := CLoad(s);
    case ZoomData(viewportIdx) =>
      data := CZoom(viewportIdx);
  }

  /** A GError handed to the caller: the error struct and its message, two
      blocks that only g_error_free releases. */
  datatype CError = CError(ptr: Ptr, kind: ErrorKind, message: CString)

  function ErrorView(e: CError): Error {
    Error(e.kind, e.message.text)
  }

  function ErrorPtrs(e: CError): seq<Ptr> {
    [e.ptr, e.message.ptr]
  }

  /** g_set_error, and the JSON library's error report: when the caller
      passed somewhere to put it (`reportError`, an `error` argument that is
      not NULL), a fresh GError holding `err`; otherwise nothing. */
  method SetError(heap: Heap, reportError: bool, err: Error) returns (gerror: Option<CError>)
    requires heap.Valid()
    modifies heap
    ensures heap.Valid()
    ensures gerror.Some? <==> reportError
    ensures !reportError ==> heap.live == old(heap.live) && heap.next == old(heap.next)
    ensures reportError ==>
      ErrorView(gerror.value) == err &&
      old(heap.next) <= heap.next && ErrorPtrs(gerror.value) == Range(old(heap.next), heap.next) &&
      heap.live == old(heap.live) + Elems(ErrorPtrs(gerror.value))
  {
    if !reportError {
      return None;
    }
    var p := heap.Alloc();
    var m := heap.Alloc();
    assert [p, m] == Range(p, heap.next);
    gerror := Some(CError(p, err.kind, CString(m, err.message)));
  }

  /** wcp_parse_command with its allocations: on success the caller owns a
      command block followed by the payload's blocks, all fresh; on failure
      the command is NULL and the caller owns a fresh GError when it asked
      for one, which wcp_command_free does not release. */
  method ParseCommandOwned(heap: Heap, input: Input, reportError: bool)
    returns (r: Result<CCommand, Error>, gerror: Option<CError>)
    requires heap.Valid()
    modifies heap
    ensures heap.Valid()
    ensures r.Success? <==> ParseCommand(input).Success?
    ensures r.Failure? ==> r.error == ParseCommand(input).error
    ensures gerror.Some? <==> r.Failure? && reportError
    ensures r.Failure? && !reportError ==> heap.live == old(heap.live) && heap.next == old(heap.next)
    ensures r.Failure? && reportError ==>
      ErrorView(gerror.value) == r.error &&
      old(heap.next) <= heap.next && ErrorPtrs(gerror.value) == Range(old(heap.next), heap.next) &&
      heap.live == old(heap.live) + Elems(ErrorPtrs(gerror.value))
    ensures r.Success? ==>
      View(r.value) == ParseCommand(input).value &&
      old(heap.next) <= heap.next && Ptrs(r.value) == Range(old(heap.next), heap.next) &&
      heap.live == old(heap.live) + Elems(Ptrs(r.value))
  {
    var parsed := ParseCommand(input);
    if parsed.Failure? {
      r := Failure(parsed.error);
      gerror := SetError(heap, reportError, parsed.error);
      return;
    }
    gerror := None;
    var p := heap.Alloc();
    var data := OwnData(heap, parsed.value.data);
    RangeConcat(p, p + 1, heap.next);
    ElemsConcat([p], DataPtrs(data));
    r := Success(CCommand(p, parsed.value.cmdType, data));
  }

  // Release, in the order wcp_command_free frees.

  /** g_free: a NULL pointer is ignored. */
  method StrFree(heap: Heap, s: Option<CString>)
    requires heap.Valid()
    requires Elems(StrPtr(s)) <= heap.live
    modifies heap
    ensures heap.Valid()
    ensures heap.live == old(heap.live) - Elems(StrPtr(s)) && heap.next == old(heap.next)
  {
    if s.Some? {
      heap.Free(s.value.ptr);
    }
  }

  /** g_ptr_array_free(arr, TRUE) on an array built with g_free as its
      element free function: each element, then the array block. */
  method PtrArrayFree(heap: Heap, a: CStrArray)
    requires heap.Valid()
    requires Distinct(StrArrayPtrs(Some(a))) && Elems(StrArrayPtrs(Some(a))) <= heap.live
    modifies heap
    ensures heap.Valid()
    ensures heap.live == old(heap.live) - Elems(StrArrayPtrs(Some(a))) && heap.next == old(heap.next)
  {
    DistinctSplit([a.ptr], ElemPtrs(a.strs));
    ElemsConcat([a.ptr], ElemPtrs(a.strs));
    var ss := a.strs;
    var i := 0;
    while i < |ss|
      invariant 0 <= i <= |ss| && heap.next == old(heap.next) && heap.Valid()
      invariant heap.live == old(heap.live) - Elems(ElemPtrs(ss[..i]))
    {
      ElemPtrsStep(ss, i);
      ElemsConcat(ElemPtrs(ss[..i]), StrPtr(ss[i]));
      StrFree(heap, ss[i]);
      i := i + 1;
    }
    assert ss[..i] == ss;
    heap.Free(a.ptr);
  }

  /** The explicit loop of wcp_command_free over a marker array: each
      marker's name, then the array block. */
  method MarkerArrayFree(heap: Heap, a: CMarkerArray)
    requires heap.Valid()
    requires Distinct(MarkerArrayPtrs(Some(a))) && Elems(MarkerArrayPtrs(Some(a))) <= heap.live
    modifies heap
    ensures heap.Valid()
    ensures heap.live == old(heap.live) - Elems(MarkerArrayPtrs(Some(a))) && heap.next == old(heap.next)
  {
    var names := Names(a.markers);
    DistinctSplit([a.ptr], ElemPtrs(names));
    ElemsConcat([a.ptr], ElemPtrs(names));
    var i := 0;
    while i < |a.markers|
      invariant 0 <= i <= |a.markers| && heap.next == old(heap.next) && heap.Valid()
      invariant heap.live == old(heap.live) - Elems(ElemPtrs(names[..i]))
    {
      var m := a.markers[i];
      assert m.name == names[i];
      ElemPtrsStep(names, i);
      ElemsConcat(ElemPtrs(names[..i]), StrPtr(names[i]));
      StrFree(heap, m.name);
      i := i + 1;
    }
    assert names[..i] == names;
    heap.Free(a.ptr);
  }

  /** The switch of wcp_command_free: the tag selects the union member
      whose blocks are released. */
  method PayloadFree(heap: Heap, t: CommandType, d: CData)
    requires heap.Valid()
    requires VariantOf(DataView(d)) == VariantFor(t)
    requires Distinct(DataPtrs(d)) && Elems(DataPtrs(d)) <= heap.live
    modifies heap
    ensures heap.Valid()
    ensures heap.live == old(heap.live) - Elems(DataPtrs(d)) && heap.next == old(heap.next)
  {
    match t
    case GetItemInfo | RemoveItems =>
      if d.ids.Some? {
        heap.Free(d.ids.value.ptr);
      }
    case SetItemColor =>
      StrFree(heap, d.color);
    case AddVariables =>
      if d.variables.Some? {
        PtrArrayFree(heap, d.variables.value);
      }
    case AddScope =>
      StrFree(heap, d.scope);
    case AddItems =>
      if d.items.Some? {
        PtrArrayFree(heap, d.items.value);
      }
    case AddMarkers =>
      if d.markers.Some? {
        MarkerArrayFree(heap, d.markers.value);
      }
    case Load =>
      StrFree(heap, d.source);
    case Unknown | GetItemList | SetViewportTo | SetViewportRange | FocusItem | ZoomToFit
       | Clear | Reload | Shutdown =>
      assert DataPtrs(d) == [];
  }

  /** wcp_command_free: NULL is ignored; otherwise the payload's blocks are
      released and the command block goes last. Each block is freed exactly
      once: the requires say they are distinct and live, and the ensures
      that all of them, and nothing else, are no longer live. */
  method CommandFree(heap: Heap, cmd: Option<CCommand>)
    requires heap.Valid()
    requires cmd.Some? ==>
      WellTyped(View(cmd.value)) && Distinct(Ptrs(cmd.value)) && Elems(Ptrs(cmd.value)) <= heap.live
    modifies heap
    ensures heap.Valid() && heap.next == old(heap.next)
    ensures heap.live == old(heap.live) - (if cmd.Some? then Elems(Ptrs(cmd.value)) else {})
  {
    if cmd.None? {
      return;
    }
    var cc := cmd.value;
    DistinctSplit([cc.ptr], DataPtrs(cc.data));
    ElemsConcat([cc.ptr], DataPtrs(cc.data));
    PayloadFree(heap, cc.cmdType, cc.data);
    heap.Free(cc.ptr);
  }

  /** g_error_free: the message, then the error struct. */
  method ErrorFree(heap: Heap, e: CError)
    requires heap.Valid()
    requires Distinct(ErrorPtrs(e)) && Elems(ErrorPtrs(e)) <= heap.live
    modifies heap
    ensures heap.Valid()
    ensures heap.live == old(heap.live) - Elems(ErrorPtrs(e)) && heap.next == old(heap.next)
  {
    assert e.ptr != e.message.ptr by {
      assert ErrorPtrs(e)[0] != ErrorPtrs(e)[1];
    }
    heap.Free(e.message.ptr);
    heap.Free(e.ptr);
  }

  /** A caller that parses and then releases what it was handed (the
      command with wcp_command_free, or the GError with g_error_free) leaves
      the live set as it was: no leak and no double free. */
  method ParseThenFree(heap: Heap, input: Input, reportError: bool) returns (r: Result<Command, Error>)
    requires heap.Valid()
    modifies heap
    ensures heap.Valid() && heap.live == old(heap.live)
    ensures r == ParseCommand(input)
  {
    var parsed, gerror := ParseCommandOwned(heap, input, reportError);
    if parsed.Failure? {
      if gerror.Some? {
        RangeFresh(old(heap.next), heap.next);
        assert old(heap.live) !! Elems(ErrorPtrs(gerror.value));
        ErrorFree(heap, gerror.value);
      }
      r := Failure(parsed.error);
      return;
    }
    var cc := parsed.value;
    RangeFresh(old(heap.next), heap.next);
    assert old(heap.live) !! Elems(Ptrs(cc));
    CommandFree(heap, Some(cc));
    r := Success(View(cc));
  }
}
