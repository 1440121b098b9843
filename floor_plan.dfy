/**
 * The floor plan of the main window: the status and type filters, twelve rooms per page,
 * the rooms of the page grouped by floor with floors in ascending order, the per-status and
 * per-type counts, the pager, and the state resets of the window (filter change, logout).
 */
module FloorPlan {
  import opened Common
  import opened Schema
  import opened Seqs

  /** A filter button: `All` matches every value. */
  datatype Choice<T> = All | Only(value: T)

  predicate Matches<T(==)>(choice: Choice<T>, v: T) {
    choice.All? || choice.value == v
  }

  /** The filter predicate of one room: both filters must match. */
  function RoomFilter(statusFilter: Choice<RoomStatus>, typeFilter: Choice<RoomType>): RoomRow -> bool {
    (r: RoomRow) => Matches(statusFilter, r.room.status) && Matches(typeFilter, r.room.roomType)
  }

  /** `filteredRooms`. */
  function FilteredRooms(rooms: seq<RoomRow>, statusFilter: Choice<RoomStatus>, typeFilter: Choice<RoomType>): seq<RoomRow> {
    Filter(rooms, RoomFilter(statusFilter, typeFilter))
  }

  /** The filtered list holds exactly the matching rooms, in their original order, and with both
      filters on `All` it is the whole list. */
  lemma {:induction false} FilteredRoomsExact(rooms: seq<RoomRow>, statusFilter: Choice<RoomStatus>, typeFilter: Choice<RoomType>)
    ensures var f := FilteredRooms(rooms, statusFilter, typeFilter);
      && (forall i :: 0 <= i < |f| ==> f[i] in rooms && Matches(statusFilter, f[i].room.status) && Matches(typeFilter, f[i].room.roomType))
      && (forall i :: 0 <= i < |rooms| && Matches(statusFilter, rooms[i].room.status) && Matches(typeFilter, rooms[i].room.roomType)
            ==> rooms[i] in f)
      && IsSubsequence(f, rooms)
      && (statusFilter.All? && typeFilter.All? ==> f == rooms)
  {
    var p := RoomFilter(statusFilter, typeFilter);
    FilterIsSubsequence(rooms, p);
    if statusFilter.All? && typeFilter.All? {
      FilterKeepsAll(rooms, p);
    }
  }

  const RoomsPerPage: nat := 12

  /** `Math.ceil(n / 12)`. */
  function TotalPages(n: nat): (pages: nat)
    ensures (pages - 1) * RoomsPerPage < n <= pages * RoomsPerPage || (n == 0 && pages == 0)
  {
    (n + RoomsPerPage - 1) / RoomsPerPage
  }

  /** A `slice` bound: a negative one counts from the end; both are clamped to the list. */
  function SliceBound(k: int, n: nat): (b: nat)
    ensures b <= n
  {
    if k < 0 then (if n + k < 0 then 0 else n + k) else if k > n then n else k
  }

  /** `s.slice(start, end)`. */
  function Slice<T>(s: seq<T>, start: int, end: int): (r: seq<T>)
    ensures |r| <= |s|
  {
    var from, to := SliceBound(start, |s|), SliceBound(end, |s|);
    if from < to then s[from..to] else []
  }

  /** The rooms of page `page` (1-based). */
  function PageOf<T>(s: seq<T>, page: int): seq<T> {
    Slice(s, (page - 1) * RoomsPerPage, (page - 1) * RoomsPerPage + RoomsPerPage)
  }

  /** For a page in 1..totalPages, the page is the window of the list it names and holds 1 to 12 rooms. */
  lemma {:induction false} PageWindow<T>(s: seq<T>, page: int)
    requires 1 <= page <= TotalPages(|s|)
    ensures var start := (page - 1) * RoomsPerPage;
      var end := if start + RoomsPerPage <= |s| then start + RoomsPerPage else |s|;
      && start < end
      && PageOf(s, page) == s[start..end]
      && 1 <= |PageOf(s, page)| <= RoomsPerPage
  {
    var start := (page - 1) * RoomsPerPage;
    assert start <= (TotalPages(|s|) - 1) * RoomsPerPage;
  }

  /** Pages after the last one are empty. */
  lemma {:induction false} PagesAfterLastEmpty<T>(s: seq<T>, page: int)
    requires page > TotalPages(|s|)
    ensures PageOf(s, page) == []
  {
    assert (page - 1) * RoomsPerPage >= TotalPages(|s|) * RoomsPerPage;
  }

  /** Pages 1..k laid end to end. */
  function PagesUpTo<T>(s: seq<T>, k: nat): seq<T> {
    if k == 0 then [] else PagesUpTo(s, k - 1) + PageOf(s, k)
  }

  lemma {:induction false} PagesUpToPrefix<T>(s: seq<T>, k: nat)
    ensures PagesUpTo(s, k) == s[..if k * RoomsPerPage <= |s| then k * RoomsPerPage else |s|]
  {
    if k > 0 {
      PagesUpToPrefix(s, k - 1);
      var a := (k - 1) * RoomsPerPage;
      var b := k * RoomsPerPage;
      var lo := if a <= |s| then a else |s|;
      var hi := if b <= |s| then b else |s|;
      assert PageOf(s, k) == s[lo..hi];
      assert s[..lo] + s[lo..hi] == s[..hi];
    }
  }

  /** Pages 1..totalPages partition the filtered list: laid end to end they give it back. */
  lemma {:induction false} PagesPartition<T>(s: seq<T>)
    ensures PagesUpTo(s, TotalPages(|s|)) == s
  {
    PagesUpToPrefix(s, TotalPages(|s|));
  }

  // ---------------------------------------------------------------------------------
  // Grouping by floor

  function OnFloor(floor: int): RoomRow -> bool {
    (r: RoomRow) => r.room.floorNumber == floor
  }

  /** `byFloor` holds one bucket per floor present in `prefix`, with that floor's rooms in order. */
  ghost predicate Grouped(prefix: seq<RoomRow>, byFloor: map<int, seq<RoomRow>>) {
    && (forall f :: f in byFloor <==> exists k :: 0 <= k < |prefix| && prefix[k].room.floorNumber == f)
    && (forall f :: f in byFloor ==> byFloor[f] == Filter(prefix, OnFloor(f)))
  }

  /** One step of the reduce: the room's floor gets a bucket if it had none, then the room. */
  function AddToBucket(byFloor: map<int, seq<RoomRow>>, room: RoomRow): map<int, seq<RoomRow>> {
    var floor := room.room.floorNumber;
    byFloor[floor := (if floor in byFloor then byFloor[floor] else []) + [room]]
  }

  lemma {:induction false} GroupedStep(prefix: seq<RoomRow>, room: RoomRow, byFloor: map<int, seq<RoomRow>>)
    requires Grouped(prefix, byFloor)
    ensures Grouped(prefix + [room], AddToBucket(byFloor, room))
  {
    BucketKeysStep(prefix, room, byFloor);
    BucketContentsStep(prefix, room, byFloor);
  }

  lemma {:induction false} BucketKeysStep(prefix: seq<RoomRow>, room: RoomRow, byFloor: map<int, seq<RoomRow>>)
    requires forall f :: f in byFloor <==> exists k :: 0 <= k < |prefix| && prefix[k].room.floorNumber == f
    ensures var longer := prefix + [room];
      forall f :: f in AddToBucket(byFloor, room) <==> exists k :: 0 <= k < |longer| && longer[k].room.floorNumber == f
  {
    var longer := prefix + [room];
    forall f ensures f in AddToBucket(byFloor, room) <==> exists k :: 0 <= k < |longer| && longer[k].room.floorNumber == f {
      if f == room.room.floorNumber {
        assert longer[|prefix|] == room;
      } else if f in byFloor {
        var k :| 0 <= k < |prefix| && prefix[k].room.floorNumber == f;
        assert longer[k] == prefix[k];
      } else {
        assert forall k :: 0 <= k < |longer| ==> longer[k] == room || longer[k] == prefix[k];
      }
    }
  }

  lemma {:induction false} BucketContentsStep(prefix: seq<RoomRow>, room: RoomRow, byFloor: map<int, seq<RoomRow>>)
    requires Grouped(prefix, byFloor)
    ensures forall f :: f in AddToBucket(byFloor, room) ==> AddToBucket(byFloor, room)[f] == Filter(prefix + [room], OnFloor(f))
  {
    var floor := room.room.floorNumber;
    forall f | f in AddToBucket(byFloor, room) ensures AddToBucket(byFloor, room)[f] == Filter(prefix + [room], OnFloor(f)) {
      FilterAppend(prefix, [room], OnFloor(f));
      if f == floor && floor !in byFloor {
        assert forall k :: 0 <= k < |prefix| ==> prefix[k].room.floorNumber != floor;
        FilterNone(prefix, OnFloor(floor));
      }
    }
  }

  /** `roomsByFloor`: one bucket per floor present on the page, each holding that floor's rooms
      in page order; `floors` lists the floors in the order they first appear. */
  method RoomsByFloor(page: seq<RoomRow>) returns (byFloor: map<int, seq<RoomRow>>, floors: seq<int>)
    ensures Grouped(page, byFloor)
    ensures forall f :: f in floors <==> f in byFloor
    ensures forall i, j :: 0 <= i < j < |floors| ==> floors[i] != floors[j]
  {
    byFloor, floors := map[], [];
    var i := 0;
    while i < |page|
      invariant 0 <= i <= |page|
      invariant Grouped(page[..i], byFloor)
      invariant forall f :: f in floors <==> f in byFloor
      invariant forall a, b :: 0 <= a < b < |floors| ==> floors[a] != floors[b]
    {
      var room := page[i];
      var floor := room.room.floorNumber;
      GroupedStep(page[..i], room, byFloor);
      assert page[..i + 1] == page[..i] + [room];
      if floor !in byFloor {
        floors := floors + [floor];
      }
      byFloor := AddToBucket(byFloor, room);
      i := i + 1;
    }
    assert page[..i] == page;
  }

  /** Filtering with a predicate that holds nowhere leaves nothing. */
  lemma {:induction false} FilterNone<T>(s: seq<T>, p: T -> bool)
    requires forall i :: 0 <= i < |s| ==> !p(s[i])
    ensures Filter(s, p) == []
  {
    if s != [] {
      FilterNone(s[1..], p);
    }
  }

  predicate StrictlyAscending(s: seq<int>) {
    forall i, j :: 0 <= i < j < |s| ==> s[i] < s[j]
  }

  /** Insert into a strictly ascending list. */
  function InsertAscending(x: int, s: seq<int>): (r: seq<int>)
    requires StrictlyAscending(s) && x !in s
    ensures StrictlyAscending(r)
    ensures multiset(r) == multiset(s) + multiset{x}
  {
    if s == [] then [x]
    else if x < s[0] then [x] + s
    else
      var rest := InsertAscending(x, s[1..]);
      assert s == [s[0]] + s[1..];
      AboveHead(s, x, rest);
      [s[0]] + rest
  }

  /** What is inserted after the head of an ascending list stays above the head. */
  lemma {:induction false} AboveHead(s: seq<int>, x: int, rest: seq<int>)
    requires StrictlyAscending(s) && s != [] && x > s[0]
    requires multiset(rest) == multiset(s[1..]) + multiset{x}
    ensures forall k :: 0 <= k < |rest| ==> s[0] < rest[k]
  {
    forall k | 0 <= k < |rest| ensures s[0] < rest[k] {
      assert rest[k] in multiset(rest);
      if rest[k] != x {
        assert rest[k] in s[1..];
        var m :| 0 <= m < |s[1..]| && s[1..][m] == rest[k];
        assert s[m + 1] == rest[k];
      }
    }
  }

  /** `sort((a, b) => Number(a) - Number(b))` of the floor keys. */
  function SortAscending(xs: seq<int>): (r: seq<int>)
    requires forall i, j :: 0 <= i < j < |xs| ==> xs[i] != xs[j]
    ensures StrictlyAscending(r)
    ensures multiset(r) == multiset(xs)
  {
    if xs == [] then []
    else
      var last := xs[|xs| - 1];
      var init := xs[..|xs| - 1];
      assert xs == init + [last];
      var sorted := SortAscending(init);
      assert forall k :: 0 <= k < |init| ==> init[k] != last;
      assert last !in multiset(init);
      assert last !in sorted;
      InsertAscending(last, sorted)
  }

  /** The floors shown: every floor of the page exactly once, in ascending order. */
  lemma {:induction false} FloorsAscending(floors: seq<int>, byFloor: map<int, seq<RoomRow>>)
    requires forall f :: f in floors <==> f in byFloor
    requires forall i, j :: 0 <= i < j < |floors| ==> floors[i] != floors[j]
    ensures var shown := SortAscending(floors);
      && StrictlyAscending(shown)
      && (forall f :: f in shown <==> f in byFloor)
  {
    var shown := SortAscending(floors);
    forall f ensures f in shown <==> f in floors {
      assert f in shown <==> f in multiset(shown);
      assert f in floors <==> f in multiset(floors);
    }
  }

  // ---------------------------------------------------------------------------------
  // Filter-button counts over all rooms

  function HasStatus(status: RoomStatus): RoomRow -> bool {
    (r: RoomRow) => r.room.status == status
  }

  function HasType(roomType: RoomType): RoomRow -> bool {
    (r: RoomRow) => r.room.roomType == roomType
  }

  /** `statusCounts`: every room is counted under exactly one status. */
  lemma {:induction false} StatusCountsSum(rooms: seq<RoomRow>)
    ensures |Filter(rooms, HasStatus(Available))| + |Filter(rooms, HasStatus(Occupied))|
          + |Filter(rooms, HasStatus(Maintenance))| == |rooms|
  {
    if rooms != [] {
      StatusCountsSum(rooms[1..]);
    }
  }

  /** `typeCounts`: every room is counted under exactly one type. */
  lemma {:induction false} TypeCountsSum(rooms: seq<RoomRow>)
    ensures |Filter(rooms, HasType(Standard))| + |Filter(rooms, HasType(Deluxe))|
          + |Filter(rooms, HasType(Suite))| == |rooms|
  {
    if rooms != [] {
      TypeCountsSum(rooms[1..]);
    }
  }

  /** A status button's count is the size of the list that status filter shows with the type
      filter on `All`. */
  lemma {:induction false} StatusCountIsFilterSize(rooms: seq<RoomRow>, status: RoomStatus)
    ensures |Filter(rooms, HasStatus(status))| == |FilteredRooms(rooms, Only(status), All)|
  {
    if rooms != [] {
      StatusCountIsFilterSize(rooms[1..], status);
    }
  }

  // ---------------------------------------------------------------------------------
  // The pager

  datatype PagerItem = PageButton(page: int) | Ellipsis | Hidden

  /** What the pager renders for one page number; the ellipsis test comes first. */
  function PagerItemFor(page: int, currentPage: int, totalPages: int): PagerItem {
    var showPage := page == 1 || page == totalPages || (currentPage - 1 <= page <= currentPage + 1);
    var showEllipsis := (page == currentPage - 2 && currentPage > 3) || (page == currentPage + 2 && currentPage < totalPages - 2);
    if showEllipsis then Ellipsis else if showPage then PageButton(page) else Hidden
  }

  /** With the current page in range, the first page, the last page, the current page and its
      neighbours are buttons; an ellipsis stands only two pages from the current one. */
  lemma PagerShape(page: int, currentPage: int, totalPages: int)
    requires 1 <= currentPage <= totalPages && 1 <= page <= totalPages
    ensures (page == 1 || page == totalPages || currentPage - 1 <= page <= currentPage + 1)
              ==> PagerItemFor(page, currentPage, totalPages) == PageButton(page)
    ensures PagerItemFor(page, currentPage, totalPages).Ellipsis? ==> page == currentPage - 2 || page == currentPage + 2
    ensures PagerItemFor(page, currentPage, totalPages).Ellipsis? ==> 1 < page < totalPages
  {
  }

  /** A current page beyond the last, which the list can leave behind when rooms are removed,
      turns the last page's button into an ellipsis. */
  lemma StalePageHidesLastPage()
    ensures PagerItemFor(2, 4, 2) == Ellipsis
  {
  }

  /** The pager is shown only for more than one page; prev is disabled on page 1 and next on
      the last page. */
  datatype PagerControls = PagerControls(visible: bool, prevDisabled: bool, nextDisabled: bool)

  function Controls(currentPage: int, totalPages: int): (c: PagerControls)
    ensures c.visible <==> totalPages > 1
    ensures c.prevDisabled <==> currentPage == 1
    ensures c.nextDisabled <==> currentPage == totalPages
  {
    PagerControls(totalPages > 1, currentPage == 1, currentPage == totalPages)
  }

  // ---------------------------------------------------------------------------------
  // Window state

  datatype View = DashboardView | RoomsView | GuestsView | SettingsView

  class App {
    var rooms: seq<RoomRow>
    var statusFilter: Choice<RoomStatus>
    var typeFilter: Choice<RoomType>
    var currentPage: int
    var currentManager: Option<Manager>
    var currentView: View
    /** localStorage `managerId`. */
    var storedManagerId: Option<string>

    constructor ()
      ensures rooms == [] && statusFilter == All && typeFilter == All && currentPage == 1
      ensures currentManager == None && currentView == RoomsView && storedManagerId == None
    {
      rooms, statusFilter, typeFilter, currentPage := [], All, All, 1;
      currentManager, currentView, storedManagerId := None, RoomsView, None;
    }

    /** The rooms the grid shows. */
    function VisibleRooms(): seq<RoomRow>
      reads this
    {
      PageOf(FilteredRooms(rooms, statusFilter, typeFilter), currentPage)
    }

    /** A status button: a new value also sends the list back to page 1, the same value
        changes nothing. */
    method SetStatusFilter(choice: Choice<RoomStatus>)
      modifies this
      ensures statusFilter == choice
      ensures currentPage == if choice != old(statusFilter) then 1 else old(currentPage)
      ensures rooms == old(rooms) && typeFilter == old(typeFilter) && currentManager == old(currentManager)
      ensures currentView == old(currentView) && storedManagerId == old(storedManagerId)
    {
      var changed := choice != statusFilter;
      statusFilter := choice;
      if changed {
        currentPage := 1;
      }
    }

    /** A type button, with the same page reset. */
    method SetTypeFilter(choice: Choice<RoomType>)
      modifies this
      ensures typeFilter == choice
      ensures currentPage == if choice != old(typeFilter) then 1 else old(currentPage)
      ensures rooms == old(rooms) && statusFilter == old(statusFilter) && currentManager == old(currentManager)
      ensures currentView == old(currentView) && storedManagerId == old(storedManagerId)
    {
      var changed := choice != typeFilter;
      typeFilter := choice;
      if changed {
        currentPage := 1;
      }
    }

    /** `handlePageChange`. */
    method ChangePage(page: int)
      modifies this
      ensures currentPage == page
      ensures rooms == old(rooms) && statusFilter == old(statusFilter) && typeFilter == old(typeFilter)
      ensures currentManager == old(currentManager) && currentView == old(currentView) && storedManagerId == old(storedManagerId)
    {
      currentPage := page;
    }

    /** `handleLogout`: the stored session, the signed-in manager and the rooms are cleared and
        the rooms view is selected; filters and page are kept. */
    method HandleLogout()
      modifies this
      ensures storedManagerId == None && currentManager == None && rooms == [] && currentView == RoomsView
      ensures statusFilter == old(statusFilter) && typeFilter == old(typeFilter) && currentPage == old(currentPage)
    {
      storedManagerId := None;
      currentManager := None;
      rooms := [];
      currentView := RoomsView;
    }
  }

  /** After a filter change the grid shows the first twelve matching rooms. */
  lemma {:induction false} FilterChangeShowsFirstPage(rooms: seq<RoomRow>, statusFilter: Choice<RoomStatus>, typeFilter: Choice<RoomType>)
    ensures var f := FilteredRooms(rooms, statusFilter, typeFilter);
      PageOf(f, 1) == f[..if |f| <= RoomsPerPage then |f| else RoomsPerPage]
  {
  }
}
