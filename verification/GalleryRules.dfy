/** What each change to a gallery does to each photo in it. */
module GalleryRules {
  import opened Gallery

  // Photo p but for its position and its primary flag.
  predicate SameStatus(g: Gallery, after: Gallery, p: PhotoId) {
    p in g.photos && p in after.photos && after.photos[p].status == g.photos[p].status
  }

  predicate SamePlace(g: Gallery, after: Gallery, p: PhotoId) {
    p in g.photos && p in after.photos && after.photos[p].position == g.photos[p].position
  }

  predicate SameFlag(g: Gallery, after: Gallery, p: PhotoId) {
    p in g.photos && p in after.photos && after.photos[p].primary == g.photos[p].primary
  }

  // A tenth photo is refused.  A new one waits for review at the end; the first one, or one that is meant
  // to be, is the primary photo instead of any other.
  lemma UploadingIsExact(g: Gallery, id: PhotoId, makePrimary: bool)
    requires Ok(g) && id !in g.photos
    ensures var (after, outcome) := Step(g, Upload(id, makePrimary));
            if |g.photos| == 9 then outcome == QuotaExceeded && after == g
            else
              && outcome == Done && after.photos.Keys == g.photos.Keys + {id}
              && after.photos[id] == Photo(|g.photos|, makePrimary || g.photos == map[], Pending)
              && (forall p | p in g.photos :: SameStatus(g, after, p) && SamePlace(g, after, p))
              && (forall p | p in g.photos :: if makePrimary then !after.photos[p].primary else SameFlag(g, after, p))
              && after.photoCount == g.photoCount
  {
    hide Compact, OnePrimary, ApprovedIds;
    if |g.photos| < 9 { UploadingCounts(g.photos, id, makePrimary); }
  }

  lemma UploadingCounts(photos: map<PhotoId, Photo>, id: PhotoId, makePrimary: bool)
    requires id !in photos
    ensures ApprovedIds(Uploaded(photos, id, makePrimary)) == ApprovedIds(photos)
  {}

  // The photos left keep their order and close the gap; the primary flag passes to the first of them if the
  // primary photo went, and stays where it was if not.
  lemma DeletingIsExact(g: Gallery, id: PhotoId)
    requires Ok(g)
    ensures var (after, outcome) := Step(g, Delete(id));
            if id !in g.photos then outcome == NotFound && after == g
            else
              && outcome == Done && after.photos.Keys == g.photos.Keys - {id} && Compact(after.photos)
              && (forall p | p in after.photos :: SameStatus(g, after, p))
              && (forall p, q | p in after.photos && q in after.photos ::
                    after.photos[p].position < after.photos[q].position
                    <==> g.photos[p].position < g.photos[q].position)
              && (forall p | p in after.photos ::
                    after.photos[p].primary <==>
                      if g.photos[id].primary then after.photos[p].position == 0 else g.photos[p].primary)
              && after.photoCount == g.photoCount - (if g.photos[id].status == Approved then 1 else 0)
  {
    hide Closed, ApprovedIds, Compact, OnePrimary;
    if id in g.photos {
      DeleteKeepsShape(g.photos, id);
      DeletingKeepsTheRest(g.photos, id);
      DeletingKeepsTheOrder(g.photos, id);
      DeletingPassesTheFlag(g.photos, id);
      DeletingCounts(g.photos, id);
    }
  }

  lemma DeletingKeepsTheRest(photos: map<PhotoId, Photo>, id: PhotoId)
    requires id in photos
    ensures Closed(photos, id).Keys == photos.Keys - {id}
    ensures forall p | p in Closed(photos, id) :: Closed(photos, id)[p].status == photos[p].status
  {}

  lemma DeletingCounts(photos: map<PhotoId, Photo>, id: PhotoId)
    requires id in photos
    ensures |ApprovedIds(Closed(photos, id))| == |ApprovedIds(photos)| - if photos[id].status == Approved then 1 else 0
  {
    assert ApprovedIds(Closed(photos, id)) == ApprovedIds(photos) - {id};
  }

  lemma DeletingKeepsTheOrder(photos: map<PhotoId, Photo>, id: PhotoId)
    requires Compact(photos) && id in photos
    ensures var after := Closed(photos, id);
            forall p, q | p in after && q in after ::
              after[p].position < after[q].position <==> photos[p].position < photos[q].position
  {
    var order :| Listing(photos, order);
    assert forall p | p in photos && p != id :: photos[p].position != photos[id].position;
  }

  lemma DeletingPassesTheFlag(photos: map<PhotoId, Photo>, id: PhotoId)
    requires OnePrimary(photos) && id in photos
    ensures var after := Closed(photos, id);
            forall p | p in after ::
              after[p].primary <==> if photos[id].primary then after[p].position == 0 else photos[p].primary
  {
    var main :| OnlyPrimary(photos, main);
  }

  // Only an approved photo becomes the primary one, and then it alone is.
  lemma ChoosingIsExact(g: Gallery, id: PhotoId)
    ensures var (after, outcome) := Step(g, SetPrimary(id));
            if id !in g.photos then outcome == NotFound && after == g
            else if g.photos[id].status != Approved then outcome == StillReviewed && after == g
            else
              && outcome == Done && OnlyPrimary(after.photos, id) && after.photos.Keys == g.photos.Keys
              && forall p | p in g.photos :: SameStatus(g, after, p) && SamePlace(g, after, p)
  {}

  // The verdict is the photo's status from then on, the count goes with it, and no other photo is touched.
  lemma ModeratingIsExact(g: Gallery, id: PhotoId, approved: bool)
    requires g.photoCount == |ApprovedIds(g.photos)|
    ensures var (after, outcome) := Step(g, Moderate(id, approved));
            if id !in g.photos then outcome == NotFound && after == g
            else
              && outcome == Done && after.photos == g.photos[id := after.photos[id]]
              && SamePlace(g, after, id) && SameFlag(g, after, id)
              && (approved ==> after.photos[id].status == Approved)
              && (!approved ==> after.photos[id].status == Rejected)
              && after.photoCount - g.photoCount ==
                   (if approved then 1 else 0) - (if g.photos[id].status == Approved then 1 else 0)
  {
    hide ApprovedIds;
    if id in g.photos { VerdictCounts(g.photos, id, if approved then Approved else Rejected); }
  }

  lemma VerdictCounts(photos: map<PhotoId, Photo>, id: PhotoId, verdict: Status)
    requires id in photos
    ensures |ApprovedIds(photos[id := photos[id].(status := verdict)])| ==
              |ApprovedIds(photos)| - (if photos[id].status == Approved then 1 else 0)
              + if verdict == Approved then 1 else 0
  {
    var after := photos[id := photos[id].(status := verdict)];
    var others := ApprovedIds(photos) - {id};
    assert ApprovedIds(after) == if verdict == Approved then others + {id} else others;
    assert ApprovedIds(photos) == if photos[id].status == Approved then others + {id} else others;
    assert id !in others;
  }
}
