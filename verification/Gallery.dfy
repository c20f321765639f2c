/** A member's photo gallery: positions without gaps, one primary photo, and a denormalised count of
    the approved ones. */
module Gallery {
  import opened Wrappers

  const MAX_PHOTOS := 9

  type PhotoId = nat

  datatype Status = Pending | Approved | Rejected

  datatype Photo = Photo(position: nat, primary: bool, status: Status)

  // The live rows of one member, with the counter kept on the profile.
  datatype Gallery = Gallery(photos: map<PhotoId, Photo>, photoCount: nat)

  datatype Event =
    | Upload(id: PhotoId, makePrimary: bool)
    | Delete(id: PhotoId)
    | SetPrimary(id: PhotoId)
    | Reorder(ids: seq<PhotoId>)
    | Moderate(id: PhotoId, approved: bool)

  datatype Outcome = Done | NotFound | QuotaExceeded | StillReviewed

  // ---- what a gallery should look like -----------------------------------------------------------

  ghost predicate Distinct(ids: seq<PhotoId>) {
    forall i, j | 0 <= i < j < |ids| :: ids[i] != ids[j]
  }

  // `order` lists the photos by position, and the positions are exactly 0, 1, 2, ...
  ghost predicate Listing(photos: map<PhotoId, Photo>, order: seq<PhotoId>) {
    && (forall i | 0 <= i < |order| :: order[i] in photos && photos[order[i]].position == i)
    && (forall id | id in photos :: photos[id].position < |order| && order[photos[id].position] == id)
  }

  ghost predicate Compact(photos: map<PhotoId, Photo>) {
    exists order :: Listing(photos, order)
  }

  ghost predicate OnlyPrimary(photos: map<PhotoId, Photo>, main: PhotoId) {
    main in photos && forall id | id in photos :: photos[id].primary <==> id == main
  }

  ghost predicate OnePrimary(photos: map<PhotoId, Photo>) {
    photos == map[] || exists main :: OnlyPrimary(photos, main)
  }

  function ApprovedIds(photos: map<PhotoId, Photo>): set<PhotoId> {
    set id | id in photos && photos[id].status == Approved
  }

  ghost predicate Ok(g: Gallery) {
    && |g.photos| <= MAX_PHOTOS
    && Compact(g.photos)
    && OnePrimary(g.photos)
    && g.photoCount == |ApprovedIds(g.photos)|
  }

  // ---- the operations ----------------------------------------------------------------------------

  function Synced(photos: map<PhotoId, Photo>): Gallery { Gallery(photos, |ApprovedIds(photos)|) }

  function OnlyThisPrimary(photos: map<PhotoId, Photo>, id: PhotoId): map<PhotoId, Photo> {
    map p | p in photos :: photos[p].(primary := p == id)
  }

  function Uploaded(photos: map<PhotoId, Photo>, id: PhotoId, makePrimary: bool): map<PhotoId, Photo> {
    var primary := makePrimary || |photos| == 0;
    var added := photos[id := Photo(|photos|, primary, Pending)];
    if primary then OnlyThisPrimary(added, id) else added
  }

  // Photos behind the deleted one move up; the first photo inherits its primary flag.
  function Closed(photos: map<PhotoId, Photo>, id: PhotoId): map<PhotoId, Photo>
    requires id in photos
  {
    var gone := photos[id];
    map p | p in photos && p != id ::
      var position := if photos[p].position > gone.position then photos[p].position - 1 else photos[p].position;
      Photo(position, photos[p].primary || (gone.primary && position == 0), photos[p].status)
  }

  // One assignment after another; unknown ids are skipped.
  function Placed(photos: map<PhotoId, Photo>, ids: seq<PhotoId>, n: nat): (r: map<PhotoId, Photo>)
    requires n <= |ids|
    ensures r.Keys == photos.Keys
  {
    if n == 0 then photos
    else
      var r, id := Placed(photos, ids, n - 1), ids[n - 1];
      if id in r then r[id := r[id].(position := n - 1)] else r
  }

  function Step(g: Gallery, e: Event): (Gallery, Outcome) {
    var photos := g.photos;
    match e
    case Upload(id, makePrimary) =>
      if |photos| >= MAX_PHOTOS then (g, QuotaExceeded) else (Synced(Uploaded(photos, id, makePrimary)), Done)
    case Delete(id) =>
      if id !in photos then (g, NotFound) else (Synced(Closed(photos, id)), Done)
    case SetPrimary(id) =>
      if id !in photos then (g, NotFound)
      else if photos[id].status != Approved then (g, StillReviewed)
      else (Synced(OnlyThisPrimary(photos, id)), Done)
    case Reorder(ids) => (g.(photos := Placed(photos, ids, |ids|)), Done)
    case Moderate(id, approved) =>
      if id !in photos then (g, NotFound)
      else (Synced(photos[id := photos[id].(status := if approved then Approved else Rejected)]), Done)
  }

  // ---- each operation keeps the shape ------------------------------------------------------------

  lemma ListingHasAllKeys(photos: map<PhotoId, Photo>, order: seq<PhotoId>)
    requires Listing(photos, order)
    ensures |order| == |photos|
  {
    forall i, j | 0 <= i < j < |order| ensures order[i] != order[j] {
      assert photos[order[i]].position == i && photos[order[j]].position == j;
    }
    DistinctCardinality(order);
    assert photos.Keys == SetOf(order) by {
      forall id | id in photos ensures id in order { assert order[photos[id].position] == id; }
    }
    assert |photos.Keys| == |photos|;
  }

  function SetOf(ids: seq<PhotoId>): set<PhotoId> { set id | id in ids }

  lemma {:induction false} DistinctCardinality(ids: seq<PhotoId>)
    requires Distinct(ids)
    ensures |SetOf(ids)| == |ids|
  {
    if ids != [] {
      var init, last := ids[..|ids| - 1], ids[|ids| - 1];
      DistinctCardinality(init);
      assert ids == init + [last];
      assert last !in SetOf(init);
      assert SetOf(ids) == SetOf(init) + {last};
    }
  }

  lemma ListingGrows(photos: map<PhotoId, Photo>, order: seq<PhotoId>, id: PhotoId, r: map<PhotoId, Photo>)
    requires Listing(photos, order) && id !in photos
    requires r.Keys == photos.Keys + {id} && r[id].position == |order|
    requires forall p | p in photos :: r[p].position == photos[p].position
    ensures Listing(r, order + [id])
  {}

  lemma CompactGrows(photos: map<PhotoId, Photo>, id: PhotoId, r: map<PhotoId, Photo>)
    requires Compact(photos) && id !in photos
    requires r.Keys == photos.Keys + {id} && r[id].position == |photos|
    requires forall p | p in photos :: r[p].position == photos[p].position
    ensures Compact(r) && |r| == |photos| + 1
  {
    var order :| Listing(photos, order);
    ListingHasAllKeys(photos, order);
    ListingGrows(photos, order, id, r);
    ListingHasAllKeys(r, order + [id]);
  }

  lemma UploadStaysCompact(photos: map<PhotoId, Photo>, id: PhotoId, makePrimary: bool)
    requires id !in photos && Compact(photos)
    ensures Compact(Uploaded(photos, id, makePrimary)) && |Uploaded(photos, id, makePrimary)| == |photos| + 1
  {
    CompactGrows(photos, id, Uploaded(photos, id, makePrimary));
  }

  lemma UploadKeepsOnePrimary(photos: map<PhotoId, Photo>, id: PhotoId, makePrimary: bool)
    requires id !in photos && OnePrimary(photos)
    ensures OnePrimary(Uploaded(photos, id, makePrimary))
  {
    var r := Uploaded(photos, id, makePrimary);
    if makePrimary || |photos| == 0 {
      assert OnlyPrimary(r, id);
    } else {
      var main :| OnlyPrimary(photos, main);
      assert OnlyPrimary(r, main);
    }
  }

  function Without(order: seq<PhotoId>, k: nat): seq<PhotoId>
    requires k < |order|
  {
    order[..k] + order[k + 1..]
  }

  // The order that is left when one photo goes.
  lemma CloseListing(photos: map<PhotoId, Photo>, order: seq<PhotoId>, id: PhotoId)
    requires Listing(photos, order) && id in photos
    ensures Listing(Closed(photos, id), Without(order, photos[id].position))
  {
    var k := photos[id].position;
    var rest, r := Without(order, k), Closed(photos, id);
    forall i | 0 <= i < |rest| ensures rest[i] in r && r[rest[i]].position == i {
      assert rest[i] == order[if i < k then i else i + 1];
    }
  }

  // Closing the gap is renumbering the photos that are left, in their order, and then promoting the
  // first of them if the primary photo is the one that went.
  lemma ClosedByListing(was: map<PhotoId, Photo>, order: seq<PhotoId>, id: PhotoId, mid: map<PhotoId, Photo>)
    requires Listing(was, order) && id in was && mid.Keys == was.Keys - {id}
    requires Listing(mid, Without(order, was[id].position))
    requires forall p | p in mid :: mid[p] == was[p].(position := mid[p].position)
    ensures var rest := Without(order, was[id].position);
            Closed(was, id)
            == if was[id].primary && rest != [] then mid[rest[0] := mid[rest[0]].(primary := true)] else mid
  {
    CloseListing(was, order, id);
    var rest, r := Without(order, was[id].position), Closed(was, id);
    forall p | p in mid ensures mid[p].position == r[p].position && (r[p].position == 0 <==> p == rest[0]) {
      assert rest[mid[p].position] == p && rest[r[p].position] == p;
      assert r[rest[mid[p].position]].position == mid[p].position;
    }
  }

  lemma DeleteKeepsShape(photos: map<PhotoId, Photo>, id: PhotoId)
    requires id in photos && Compact(photos) && OnePrimary(photos)
    ensures var r := Closed(photos, id);
            Compact(r) && OnePrimary(r) && |r| == |photos| - 1
  {
    var r := Closed(photos, id);
    var order :| Listing(photos, order);
    var rest := Without(order, photos[id].position);
    CloseListing(photos, order, id);
    assert r.Keys == photos.Keys - {id};
    var main :| OnlyPrimary(photos, main);
    if main != id {
      assert OnlyPrimary(r, main);
    } else if rest != [] {
      assert OnlyPrimary(r, rest[0]);
    } else {
      assert r.Keys == {};
    }
  }

  lemma PrimaryKeepsShape(photos: map<PhotoId, Photo>, id: PhotoId)
    requires id in photos && Compact(photos)
    ensures var r := OnlyThisPrimary(photos, id);
            Compact(r) && OnePrimary(r) && |r| == |photos|
  {
    var r := OnlyThisPrimary(photos, id);
    var order :| Listing(photos, order);
    assert Listing(r, order);
    assert OnlyPrimary(r, id);
    assert r.Keys == photos.Keys;
  }

  lemma ModerationKeepsShape(photos: map<PhotoId, Photo>, id: PhotoId, status: Status)
    requires id in photos && Compact(photos) && OnePrimary(photos)
    ensures var r := photos[id := photos[id].(status := status)];
            Compact(r) && OnePrimary(r) && |r| == |photos|
  {
    var r := photos[id := photos[id].(status := status)];
    var order :| Listing(photos, order);
    assert Listing(r, order);
    var main :| OnlyPrimary(photos, main);
    assert OnlyPrimary(r, main);
    assert r.Keys == photos.Keys;
  }

  // ---- reordering --------------------------------------------------------------------------------

  // The last index among the first n at which the list names id.
  function LastIndex(ids: seq<PhotoId>, id: PhotoId, n: nat): (r: Option<nat>)
    requires n <= |ids|
    ensures r.None? ==> forall i | 0 <= i < n :: ids[i] != id
    ensures r.Some? ==> r.value < n && ids[r.value] == id
  {
    if n == 0 then None
    else if ids[n - 1] == id then Some(n - 1)
    else LastIndex(ids, id, n - 1)
  }

  function NewPosition(photos: map<PhotoId, Photo>, ids: seq<PhotoId>, id: PhotoId): nat
    requires id in photos
  {
    match LastIndex(ids, id, |ids|) case Some(i) => i case None => photos[id].position
  }

  // Every photo named ends up at the last index that names it; nothing else changes.
  lemma {:induction false} PlacedAt(photos: map<PhotoId, Photo>, ids: seq<PhotoId>, n: nat, id: PhotoId)
    requires n <= |ids| && id in photos
    ensures var i := LastIndex(ids, id, n);
            Placed(photos, ids, n)[id]
            == photos[id].(position := if i.Some? then i.value else photos[id].position)
  {
    if n > 0 { PlacedAt(photos, ids, n - 1, id); }
  }

  function Named(photos: map<PhotoId, Photo>, ids: seq<PhotoId>): set<PhotoId> {
    set id | id in photos && LastIndex(ids, id, |ids|).Some?
  }

  // The positions the named photos are given, and those they had.
  function GivenPositions(photos: map<PhotoId, Photo>, ids: seq<PhotoId>): set<nat> {
    set id | id in Named(photos, ids) :: NewPosition(photos, ids, id)
  }

  function FormerPositions(photos: map<PhotoId, Photo>, ids: seq<PhotoId>): set<nat> {
    set id | id in Named(photos, ids) :: photos[id].position
  }

  // Whatever the list, with repeats and unknown ids: positions stay gapless exactly if the named photos
  // swap places among themselves.
  lemma ReorderIsCompactExactlyIfPlacesAreSwapped(photos: map<PhotoId, Photo>, ids: seq<PhotoId>)
    requires Compact(photos)
    ensures Compact(Placed(photos, ids, |ids|)) <==> GivenPositions(photos, ids) == FormerPositions(photos, ids)
  {
    var r := Placed(photos, ids, |ids|);
    var order :| Listing(photos, order);
    forall id | id in photos ensures r[id].position == NewPosition(photos, ids, id) {
      PlacedAt(photos, ids, |ids|, id);
    }
    hide LastIndex, NewPosition, Placed;
    ListingHasAllKeys(photos, order);
    if GivenPositions(photos, ids) == FormerPositions(photos, ids) {
      SwappingKeepsListing(photos, ids, order, r);
    }
    if Compact(r) {
      var after :| Listing(r, after);
      ListingHasAllKeys(r, after);
      assert |r.Keys| == |photos.Keys|;
      ListingSwaps(photos, ids, order, r, after);
    }
  }

  lemma NewPositionIs(photos: map<PhotoId, Photo>, ids: seq<PhotoId>, id: PhotoId)
    requires id in photos
    ensures var p := NewPosition(photos, ids, id);
            if id in Named(photos, ids) then p < |ids| && ids[p] == id && p in GivenPositions(photos, ids)
            else p == photos[id].position
  {}

  lemma SwappingKeepsListing(
    photos: map<PhotoId, Photo>, ids: seq<PhotoId>, order: seq<PhotoId>, r: map<PhotoId, Photo>)
    requires Listing(photos, order) && r.Keys == photos.Keys
    requires forall id | id in photos :: r[id].position == NewPosition(photos, ids, id)
    requires GivenPositions(photos, ids) == FormerPositions(photos, ids)
    ensures Compact(r)
  {
    hide NewPosition;
    var given := GivenPositions(photos, ids);
    var after := seq(|order|, p requires 0 <= p < |order| =>
      if p in given && p < |ids| then ids[p] else order[p]);
    forall id | id in r ensures r[id].position < |after| && after[r[id].position] == id {
      NewPositionIs(photos, ids, id);
      if r[id].position in given {
        var x :| x in Named(photos, ids) && photos[x].position == r[id].position;
        assert x in photos;
      }
    }
    forall p | 0 <= p < |after| ensures after[p] in r && r[after[p]].position == p {
      NewPositionIs(photos, ids, order[p]);
      if p in given {
        var x :| x in Named(photos, ids) && NewPosition(photos, ids, x) == p;
        NewPositionIs(photos, ids, x);
      } else {
        assert photos[order[p]].position == p;
        assert order[p] !in Named(photos, ids);
      }
    }
    assert Listing(r, after);
  }

  lemma ListingSwaps(
    photos: map<PhotoId, Photo>, ids: seq<PhotoId>, order: seq<PhotoId>, r: map<PhotoId, Photo>, after: seq<PhotoId>)
    requires Listing(photos, order) && Listing(r, after) && |after| == |order| && r.Keys == photos.Keys
    requires forall id | id in photos :: r[id].position == NewPosition(photos, ids, id)
    ensures GivenPositions(photos, ids) == FormerPositions(photos, ids)
  {
    hide NewPosition;
    forall p | p in GivenPositions(photos, ids) ensures p in FormerPositions(photos, ids) {
      var id :| id in Named(photos, ids) && NewPosition(photos, ids, id) == p;
      NewPositionIs(photos, ids, order[p]);
    }
    forall p | p in FormerPositions(photos, ids) ensures p in GivenPositions(photos, ids) {
      var id :| id in Named(photos, ids) && photos[id].position == p;
      NewPositionIs(photos, ids, after[p]);
    }
  }

  // The list names exactly the photos in front: those at positions below its length.
  ghost predicate NamesTheFirst(photos: map<PhotoId, Photo>, ids: seq<PhotoId>) {
    forall id | id in photos :: id in ids <==> photos[id].position < |ids|
  }

  // For a list of live photos without repeats that means it rearranges the first |ids| photos; naming
  // every photo is the case |ids| = n.
  lemma ReorderIsCompactExactlyOnPrefixes(photos: map<PhotoId, Photo>, ids: seq<PhotoId>)
    requires Compact(photos) && Distinct(ids) && forall id | id in ids :: id in photos
    ensures Compact(Placed(photos, ids, |ids|)) <==> NamesTheFirst(photos, ids)
  {
    hide Placed, LastIndex;
    ReorderIsCompactExactlyIfPlacesAreSwapped(photos, ids);
    var order :| Listing(photos, order);
    ListingHasAllKeys(photos, order);
    ListIsNoLonger(photos, ids);
    GivenToDistinct(photos, ids);
    forall id | id in photos ensures id in Named(photos, ids) <==> id in ids { NamedIs(photos, ids, id); }
    var former := FormerPositions(photos, ids);
    if NamesTheFirst(photos, ids) {
      forall p | 0 <= p < |ids| ensures p in former { assert order[p] in Named(photos, ids); }
    }
    if forall p :: p in former <==> 0 <= p < |ids| {
      forall id | id in photos ensures id in ids <==> photos[id].position < |ids| {
        if id in ids { assert photos[id].position in former; }
        if photos[id].position in former {
          var x :| x in Named(photos, ids) && photos[x].position == photos[id].position;
          assert order[photos[x].position] == x && order[photos[id].position] == id;
        }
      }
    }
  }

  lemma NamedIs(photos: map<PhotoId, Photo>, ids: seq<PhotoId>, id: PhotoId)
    requires id in photos
    ensures id in Named(photos, ids) <==> id in ids
  {
    if id in ids {
      var i :| 0 <= i < |ids| && ids[i] == id;
    }
  }

  lemma GivenToDistinct(photos: map<PhotoId, Photo>, ids: seq<PhotoId>)
    requires Distinct(ids) && forall id | id in ids :: id in photos
    ensures forall p :: p in GivenPositions(photos, ids) <==> 0 <= p < |ids|
  {
    hide LastIndex;
    forall p | 0 <= p < |ids| ensures p in GivenPositions(photos, ids) {
      assert ids[p] in ids;
      NamedIs(photos, ids, ids[p]);
      NewPositionIs(photos, ids, ids[p]);
    }
    forall p | p in GivenPositions(photos, ids) ensures p < |ids| {
      var id :| id in Named(photos, ids) && NewPosition(photos, ids, id) == p;
      NewPositionIs(photos, ids, id);
    }
  }

  lemma ListIsNoLonger(photos: map<PhotoId, Photo>, ids: seq<PhotoId>)
    requires Distinct(ids) && forall id | id in ids :: id in photos
    ensures |ids| <= |photos|
  {
    DistinctCardinality(ids);
    Subset(SetOf(ids), photos.Keys);
    assert |photos.Keys| == |photos|;
  }

  lemma Subset(a: set<PhotoId>, b: set<PhotoId>)
    requires a <= b
    ensures |a| <= |b|
  {
    assert |b| == |a| + |b - a| by { assert b == a + (b - a); }
  }

  // Reordering never touches the primary flag, the verdicts or the number of photos.
  lemma ReorderKeepsTheRest(photos: map<PhotoId, Photo>, ids: seq<PhotoId>)
    requires OnePrimary(photos)
    ensures var r := Placed(photos, ids, |ids|);
            OnePrimary(r) && |r| == |photos| && ApprovedIds(r) == ApprovedIds(photos)
  {
    var r := Placed(photos, ids, |ids|);
    forall id | id in photos ensures r[id].primary == photos[id].primary && r[id].status == photos[id].status {
      PlacedAt(photos, ids, |ids|, id);
    }
    if photos != map[] {
      var main :| OnlyPrimary(photos, main);
      assert OnlyPrimary(r, main);
    }
    assert |r.Keys| == |photos.Keys|;
    assert ApprovedIds(r) == ApprovedIds(photos);
  }

  // ---- runs --------------------------------------------------------------------------------------

  function Run(events: seq<Event>): Gallery {
    if events == [] then Gallery(map[], 0) else Step(Run(events[..|events| - 1]), events[|events| - 1]).0
  }

  // Photo ids are fresh, and the photos a reorder names swap places among themselves, as they do when
  // it names every photo once.
  ghost predicate Wellformed(g: Gallery, e: Event) {
    match e
    case Upload(id, _) => id !in g.photos
    case Reorder(ids) => GivenPositions(g.photos, ids) == FormerPositions(g.photos, ids)
    case _ => true
  }

  ghost predicate WellformedRun(events: seq<Event>) {
    events == []
    || (&& WellformedRun(events[..|events| - 1])
        && Wellformed(Run(events[..|events| - 1]), events[|events| - 1]))
  }

  // Naming every photo once is such a reorder.
  lemma FullReorderKeepsShape(photos: map<PhotoId, Photo>, ids: seq<PhotoId>)
    requires Compact(photos) && OnePrimary(photos)
    requires Distinct(ids) && forall id :: id in ids <==> id in photos
    ensures GivenPositions(photos, ids) == FormerPositions(photos, ids)
    ensures var r := Placed(photos, ids, |ids|);
            && Compact(r) && OnePrimary(r) && |r| == |photos| && ApprovedIds(r) == ApprovedIds(photos)
            && forall i | 0 <= i < |ids| :: ids[i] in r && r[ids[i]].position == i
  {
    ReorderKeepsTheRest(photos, ids);
    ReorderIsCompactExactlyOnPrefixes(photos, ids);
    ReorderIsCompactExactlyIfPlacesAreSwapped(photos, ids);
    var order :| Listing(photos, order);
    ListingHasAllKeys(photos, order);
    DistinctCardinality(ids);
    assert SetOf(ids) == photos.Keys;
    assert |photos.Keys| == |photos|;
    var r := Placed(photos, ids, |ids|);
    forall i | 0 <= i < |ids| ensures ids[i] in r && r[ids[i]].position == i {
      assert ids[i] in ids;
      PlacedAt(photos, ids, |ids|, ids[i]);
    }
  }

  lemma StepKeepsOk(g: Gallery, e: Event)
    requires Ok(g) && Wellformed(g, e)
    ensures Ok(Step(g, e).0)
  {
    match e
    case Upload(id, makePrimary) => if |g.photos| < MAX_PHOTOS {
        UploadStaysCompact(g.photos, id, makePrimary);
        UploadKeepsOnePrimary(g.photos, id, makePrimary);
      }
    case Delete(id) => if id in g.photos { DeleteKeepsShape(g.photos, id); }
    case SetPrimary(id) => if id in g.photos { PrimaryKeepsShape(g.photos, id); }
    case Reorder(ids) =>
      ReorderIsCompactExactlyIfPlacesAreSwapped(g.photos, ids);
      ReorderKeepsTheRest(g.photos, ids);
    case Moderate(id, approved) =>
      if id in g.photos { ModerationKeepsShape(g.photos, id, if approved then Approved else Rejected); }
  }

  // After any run the gallery has at most nine photos at positions 0..n-1, exactly one primary when
  // it is not empty, and a counter equal to the number approved.
  lemma {:induction false} EveryGalleryIsOk(events: seq<Event>)
    requires WellformedRun(events)
    ensures Ok(Run(events))
  {
    if events == [] {
      assert Listing(map[], []);
      assert ApprovedIds(map[]) == {};
    } else {
      EveryGalleryIsOk(events[..|events| - 1]);
      StepKeepsOk(Run(events[..|events| - 1]), events[|events| - 1]);
    }
  }

  // Two photos, 1 in front of 2.
  function TwoPhotos(): Gallery {
    Step(Step(Gallery(map[], 0), Upload(1, false)).0, Upload(2, false)).0
  }

  // Leaving the first one out puts both at position 0; naming it twice pushes the second to position 2;
  // an unknown id holds the first place, so that nothing moves.
  lemma PartialReorderCollides()
    ensures Compact(TwoPhotos().photos)
    ensures !Compact(Step(TwoPhotos(), Reorder([2])).0.photos)
    ensures !Compact(Step(TwoPhotos(), Reorder([1, 1, 2])).0.photos)
    ensures Step(TwoPhotos(), Reorder([99, 2])).0 == TwoPhotos()
  {
    TwoPhotosAre();
    hide TwoPhotos, Placed, GivenPositions, FormerPositions, Compact;
    var photos := TwoPhotos().photos;
    PlacesOfTwo(photos);
    ReorderIsCompactExactlyIfPlacesAreSwapped(photos, [2]);
    ReorderIsCompactExactlyIfPlacesAreSwapped(photos, [1, 1, 2]);
  }

  lemma TwoPhotosAre()
    ensures var photos := TwoPhotos().photos;
            Compact(photos) && photos.Keys == {1, 2} && photos[1].position == 0 && photos[2].position == 1
  {
    hide Compact;
    var one := Uploaded(map[], 1, false);
    OneUpload(one);
    TwoUploads(one);
    assert Step(Gallery(map[], 0), Upload(1, false)).0.photos == one;
    assert TwoPhotos().photos == Uploaded(one, 2, false);
  }

  lemma PlacesOfTwo(photos: map<PhotoId, Photo>)
    requires photos.Keys == {1, 2} && photos[1].position == 0 && photos[2].position == 1
    ensures GivenPositions(photos, [2]) != FormerPositions(photos, [2])
    ensures GivenPositions(photos, [1, 1, 2]) != FormerPositions(photos, [1, 1, 2])
    ensures Placed(photos, [99, 2], 2) == photos
  {
    assert LastIndex([2], 2, 1) == Some(0) && 2 in Named(photos, [2]);
    assert NewPosition(photos, [2], 2) == 0 && 0 in GivenPositions(photos, [2]);
    assert LastIndex([2], 1, 1) == None;
    assert LastIndex([1, 1, 2], 2, 3) == Some(2) && 2 in Named(photos, [1, 1, 2]);
    assert NewPosition(photos, [1, 1, 2], 2) == 2 && 2 in GivenPositions(photos, [1, 1, 2]);
    assert Placed(photos, [99, 2], 1) == photos;
  }

  lemma OneUpload(one: map<PhotoId, Photo>)
    requires one == Uploaded(map[], 1, false)
    ensures |one| == 1 && one.Keys == {1} && one[1].position == 0
  {
    assert one.Keys == {1};
    assert |one| == |one.Keys|;
  }

  lemma TwoUploads(one: map<PhotoId, Photo>)
    requires |one| == 1 && one.Keys == {1} && one[1].position == 0
    ensures var photos := Uploaded(one, 2, false);
            Compact(photos) && photos.Keys == {1, 2} && photos[1].position == 0 && photos[2].position == 1
  {
    assert Listing(Uploaded(one, 2, false), [1, 2]);
  }

  // `order` lists exactly these photos by ascending position, gaps allowed; `rank` is its inverse.
  ghost predicate Ranked(photos: map<PhotoId, Photo>, order: seq<PhotoId>, rank: map<PhotoId, nat>) {
    && rank.Keys == photos.Keys
    && (forall i | 0 <= i < |order| :: order[i] in rank && rank[order[i]] == i)
    && (forall id | id in rank :: rank[id] < |order| && order[rank[id]] == id)
    && (forall a, b | a in rank && b in rank && rank[a] < rank[b] :: photos[a].position < photos[b].position)
  }

  function Later(rank: map<PhotoId, nat>, k: nat): set<PhotoId> { set id | id in rank && rank[id] >= k }

  // Among the photos that rank k or later, the k-th is the one at the least position.
  lemma LeastOfLater(photos: map<PhotoId, Photo>, order: seq<PhotoId>, rank: map<PhotoId, nat>, k: nat)
    requires Ranked(photos, order, rank) && Later(rank, k) != {}
    ensures k < |order| && order[k] in Later(rank, k)
    ensures forall id | id in Later(rank, k) && id != order[k] :: photos[order[k]].position < photos[id].position
    ensures Later(rank, k) - {order[k]} == Later(rank, k + 1)
  {
    var some :| some in Later(rank, k);
  }

  lemma NothingLater(photos: map<PhotoId, Photo>, order: seq<PhotoId>, rank: map<PhotoId, nat>, k: nat)
    requires Ranked(photos, order, rank) && k <= |order|
    ensures Later(rank, k) == {} ==> k == |order|
  {
    assert k < |order| ==> order[k] in Later(rank, k);
  }

  function RankAfter(photos: map<PhotoId, Photo>, id: PhotoId): map<PhotoId, nat>
    requires id in photos
  {
    map p | p in photos && p != id ::
      if photos[p].position > photos[id].position then photos[p].position - 1 else photos[p].position
  }

  lemma RestIsRanked(photos: map<PhotoId, Photo>, order: seq<PhotoId>, id: PhotoId)
    requires Listing(photos, order) && id in photos
    ensures Ranked(photos - {id}, Without(order, photos[id].position), RankAfter(photos, id))
  {
    var k, rank := photos[id].position, RankAfter(photos, id);
    var rest := Without(order, k);
    forall i | 0 <= i < |rest| ensures rest[i] in rank && rank[rest[i]] == i {
      assert rest[i] == order[if i < k then i else i + 1];
    }
    forall p | p in rank ensures rank[p] < |rest| && rest[rank[p]] == p && photos[p].position != k {
      assert order[photos[p].position] == p;
    }
  }

  // ---- the service -------------------------------------------------------------------------------

  class PhotoService {
    var photos: map<PhotoId, Photo>
    var photoCount: nat

    function State(): Gallery
      reads this
    {
      Gallery(photos, photoCount)
    }

    constructor ()
      ensures State() == Gallery(map[], 0)
    {
      photos, photoCount := map[], 0;
    }

    method SyncProfile()
      modifies `photoCount
      ensures State() == Synced(photos)
    {
      photoCount := |ApprovedIds(photos)|;
    }

    method UploadPhoto(id: PhotoId, makePrimary: bool) returns (outcome: Outcome)
      requires id !in photos
      modifies this
      ensures (State(), outcome) == Step(old(State()), Upload(id, makePrimary))
    {
      var count := |photos|;
      if count >= MAX_PHOTOS {
        return QuotaExceeded;
      }
      photos := photos[id := Photo(count, makePrimary || count == 0, Pending)];
      if photos[id].primary {
        photos := map p | p in photos :: if p == id then photos[p] else photos[p].(primary := false);
      }
      assert photos == Uploaded(old(photos), id, makePrimary);
      SyncProfile();
      outcome := Done;
    }

    method First(left: set<PhotoId>, ghost least: PhotoId) returns (next: PhotoId)
      requires left <= photos.Keys && least in left
      requires forall id | id in left && id != least :: photos[least].position < photos[id].position
      ensures next == least
    {
      next :| next in left && forall other | other in left :: photos[next].position <= photos[other].position;
    }

    // order_by("position"); `expected` is the order that the positions spell.
    method ByPosition(ghost expected: seq<PhotoId>, ghost rank: map<PhotoId, nat>) returns (ids: seq<PhotoId>)
      requires Ranked(photos, expected, rank)
      ensures ids == expected
    {
      ids := [];
      var left := photos.Keys;
      while left != {}
        invariant |ids| <= |expected| && ids == expected[..|ids|]
        invariant left == Later(rank, |ids|)
        decreases left
      {
        ghost var k := |ids|;
        LeastOfLater(photos, expected, rank, k);
        var next := First(left, expected[k]);
        ids := ids + [next];
        left := left - {next};
      }
      NothingLater(photos, expected, rank, |ids|);
    }

    // Every photo that has moved up gets the position it is now found at.
    method Reindex(remaining: seq<PhotoId>, ghost rank: map<PhotoId, nat>)
      requires Ranked(photos, remaining, rank)
      modifies `photos
      ensures Listing(photos, remaining) && photos.Keys == old(photos).Keys
      ensures forall p | p in photos :: photos[p] == old(photos)[p].(position := photos[p].position)
    {
      ghost var was := photos;
      var index := 0;
      while index < |remaining|
        invariant 0 <= index <= |remaining|
        invariant photos.Keys == was.Keys
        invariant forall p | p in photos ::
                    photos[p] == if rank[p] < index then was[p].(position := rank[p]) else was[p]
      {
        var item := remaining[index];
        if photos[item].position != index {
          photos := photos[item := photos[item].(position := index)];
        }
        index := index + 1;
      }
    }

    method DeletePhoto(id: PhotoId) returns (outcome: Outcome)
      requires Compact(photos)
      modifies this
      ensures (State(), outcome) == Step(old(State()), Delete(id))
    {
      if id !in photos {
        return NotFound;
      }
      ghost var was := photos;
      ghost var order :| Listing(photos, order);
      ghost var rest := Without(order, photos[id].position);
      RestIsRanked(was, order, id);
      var wasPrimary := photos[id].primary;
      photos := photos - {id};
      var remaining := ByPosition(rest, RankAfter(was, id));
      Reindex(remaining, RankAfter(was, id));
      ClosedByListing(was, order, id, photos);
      if wasPrimary && remaining != [] {
        photos := photos[remaining[0] := photos[remaining[0]].(primary := true)];
      }
      SyncProfile();
      outcome := Done;
    }

    method SetPrimaryPhoto(id: PhotoId) returns (outcome: Outcome)
      modifies this
      ensures (State(), outcome) == Step(old(State()), SetPrimary(id))
    {
      if id !in photos {
        return NotFound;
      }
      if photos[id].status != Approved {
        return StillReviewed;
      }
      photos := map p | p in photos :: photos[p].(primary := false);
      photos := photos[id := photos[id].(primary := true)];
      assert photos == OnlyThisPrimary(old(photos), id);
      SyncProfile();
      outcome := Done;
    }

    method ReorderPhotos(ids: seq<PhotoId>)
      modifies `photos
      ensures State() == Step(old(State()), Reorder(ids)).0
    {
      for index := 0 to |ids|
        invariant photos == Placed(old(photos), ids, index)
      {
        var id := ids[index];
        if id in photos && photos[id].position != index {
          photos := photos[id := photos[id].(position := index)];
        }
      }
    }

    method ApplyModeration(id: PhotoId, approved: bool) returns (outcome: Outcome)
      modifies this
      ensures (State(), outcome) == Step(old(State()), Moderate(id, approved))
    {
      if id !in photos {
        return NotFound;
      }
      photos := photos[id := photos[id].(status := if approved then Approved else Rejected)];
      SyncProfile();
      outcome := Done;
    }
  }
}
