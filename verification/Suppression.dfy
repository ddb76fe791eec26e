/**
 Rebuilding without the bytes of manifests that no longer matter: profiles that a later profile event of the
 same identity replaced, and posts that a later tombstone hid. What the indexer serves stays the same.
 */
module Suppression {
  import opened Wrappers
  import opened EventOrder
  import opened ProtocolEvents
  import opened Projection
  import opened ManifestLifecycle
  import opened Rebuild

  /** A later event makes the manifest of an accepted event unnecessary. */
  predicate Supersedes(later: Event, e: Event) {
    || (e.body.ProfileUpdated? && later.body.ProfileUpdated? && later.body.identity == e.body.identity)
    || (e.body.PostPublished? && later.body.Tombstoned? && later.body.identity == e.body.identity
        && later.body.objectId == e.body.objectId)
  }

  // ----- Which manifests may be left out -----

  datatype Reason = LaterProfilePointer | LaterTombstoneSeen

  function ReasonFor(e: Event): Reason {
    if e.body.ProfileUpdated? then LaterProfilePointer else LaterTombstoneSeen
  }

  /** Why a manifest is left out, and the event that justifies it. */
  datatype Justification = Justification(reason: Reason, suppressor: Coordinate)

  ghost predicate DistinctEvents(log: seq<Event>) {
    forall i, j :: 0 <= i < j < |log| ==> CoordinateOf(log[i].pos) != CoordinateOf(log[j].pos)
  }

  ghost predicate NextSuperseder(ordered: seq<Event>, i: int, j: int) {
    && 0 <= i < j < |ordered| && Supersedes(ordered[j], ordered[i])
    && forall k :: i < k < j ==> !Supersedes(ordered[k], ordered[i])
  }

  /** An accepted event is justified by its nearest superseder, or has none. */
  ghost predicate ScannedAt(ordered: seq<Event>, accepted: set<Coordinate>, i: int, found: map<Coordinate,
                            Justification>)
    requires 0 <= i < |ordered|
  {
    var c := CoordinateOf(ordered[i].pos);
    if c in found then
      && c in accepted
      && found[c].reason == ReasonFor(ordered[i])
      && exists j :: NextSuperseder(ordered, i, j) && found[c].suppressor == CoordinateOf(ordered[j].pos)
    else
      c in accepted ==> forall j :: i < j < |ordered| ==> !Supersedes(ordered[j], ordered[i])
  }

  /** What the backward scan has found out about the events from position n on. */
  ghost predicate ScannedFrom(ordered: seq<Event>, accepted: set<Coordinate>, n: nat, found: map<Coordinate,
                              Justification>)
    requires n <= |ordered|
  {
    && (forall c :: c in found ==> exists i :: n <= i < |ordered| && CoordinateOf(ordered[i].pos) == c)
    && (forall i :: n <= i < |ordered| ==> ScannedAt(ordered, accepted, i, found))
  }

  ghost predicate PointersFrom(ordered: seq<Event>, n: nat, profiles: map<IdentityId, nat>,
                               tombstones: map<(IdentityId, ObjectId), nat>)
    requires n <= |ordered|
  {
    && (forall id :: id in profiles ==>
          && n <= profiles[id] < |ordered| && ordered[profiles[id]].body.ProfileUpdated?
          && ordered[profiles[id]].body.identity == id)
    && (forall k :: k in tombstones ==>
          && n <= tombstones[k] < |ordered| && ordered[tombstones[k]].body.Tombstoned?
          && (ordered[tombstones[k]].body.identity, ordered[tombstones[k]].body.objectId) == k)
    && (forall i :: n <= i < |ordered| && ordered[i].body.ProfileUpdated? ==>
          ordered[i].body.identity in profiles && profiles[ordered[i].body.identity] <= i)
    && (forall i :: n <= i < |ordered| && ordered[i].body.Tombstoned? ==>
          var k := (ordered[i].body.identity, ordered[i].body.objectId);
          k in tombstones && tombstones[k] <= i)
  }

  /** The nearest superseder of event n, read off the two tables. */
  function NearestSuperseder(ordered: seq<Event>, n: nat, profiles: map<IdentityId, nat>,
                             tombstones: map<(IdentityId, ObjectId), nat>): Option<nat>
    requires n < |ordered|
  {
    var b := ordered[n].body;
    if b.ProfileUpdated? && b.identity in profiles then Some(profiles[b.identity])
    else if b.PostPublished? && (b.identity, b.objectId) in tombstones then Some(tombstones[(b.identity, b.objectId)])
    else None
  }

  lemma NearestSupersederIsNext(ordered: seq<Event>, n: nat, profiles: map<IdentityId, nat>,
                                tombstones: map<(IdentityId, ObjectId), nat>)
    requires n < |ordered| && PointersFrom(ordered, n + 1, profiles, tombstones)
    ensures var j := NearestSuperseder(ordered, n, profiles, tombstones);
            if j.Some? then NextSuperseder(ordered, n, j.value)
            else forall k :: n < k < |ordered| ==> !Supersedes(ordered[k], ordered[n])
  {
  }

  lemma PointersStep(ordered: seq<Event>, n: nat, profiles: map<IdentityId, nat>,
                     tombstones: map<(IdentityId, ObjectId), nat>)
    requires n < |ordered| && PointersFrom(ordered, n + 1, profiles, tombstones)
    ensures var b := ordered[n].body;
            PointersFrom(ordered, n, if b.ProfileUpdated? then profiles[b.identity := n] else profiles,
                         if b.Tombstoned? then tombstones[(b.identity, b.objectId) := n] else tombstones)
  {
  }

  /** Scans an ordered log backwards; each accepted event is justified by the nearest later event that supersedes it. */
  method DeriveAcceptedManifestSuppressions(ordered: seq<Event>, accepted: set<Coordinate>)
    returns (found: map<Coordinate, Justification>)
    ensures DistinctEvents(ordered) ==> ScannedFrom(ordered, accepted, 0, found)
  {
    hide ScannedFrom, PointersFrom, NextSuperseder, Supersedes, DistinctEvents;
    found := map[];
    var laterProfiles: map<IdentityId, nat> := map[];
    var laterTombstones: map<(IdentityId, ObjectId), nat> := map[];
    var n: nat := |ordered|;
    ScanStart(ordered, accepted);
    while n > 0
      invariant n <= |ordered|
      invariant DistinctEvents(ordered) ==> ScannedFrom(ordered, accepted, n, found)
      invariant PointersFrom(ordered, n, laterProfiles, laterTombstones)
    {
      n := n - 1;
      var e := ordered[n];
      var c := CoordinateOf(e.pos);
      NearestSupersederIsNext(ordered, n, laterProfiles, laterTombstones);
      PointersStep(ordered, n, laterProfiles, laterTombstones);
      ghost var before := found;
      if c in accepted {
        var j := NearestSuperseder(ordered, n, laterProfiles, laterTombstones);
        if j.Some? {
          ghost var next: int := j.value;
          assert NextSuperseder(ordered, n, next);
          NextIsRecorded(ordered, n, next);
          found := found[c := Justification(ReasonFor(e), CoordinateOf(ordered[j.value].pos))];
        }
      }
      if DistinctEvents(ordered) {
        ScanStep(ordered, accepted, n, before, found);
      }
      if e.body.ProfileUpdated? {
        laterProfiles := laterProfiles[e.body.identity := n];
      } else if e.body.Tombstoned? {
        laterTombstones := laterTombstones[(e.body.identity, e.body.objectId) := n];
      }
    }
  }

  lemma NextIsRecorded(ordered: seq<Event>, i: int, j: int)
    requires NextSuperseder(ordered, i, j)
    ensures 0 <= i < j < |ordered|
  {
  }

  lemma ScanStart(ordered: seq<Event>, accepted: set<Coordinate>)
    ensures ScannedFrom(ordered, accepted, |ordered|, map[]) && PointersFrom(ordered, |ordered|, map[], map[])
  {
  }

  lemma ScanStep(ordered: seq<Event>, accepted: set<Coordinate>, n: nat,
                 before: map<Coordinate, Justification>, found: map<Coordinate, Justification>)
    requires n < |ordered| && DistinctEvents(ordered) && ScannedFrom(ordered, accepted, n + 1, before)
    requires var c := CoordinateOf(ordered[n].pos);
             || (found == before
                 && (c in accepted ==> forall j :: n < j < |ordered| ==> !Supersedes(ordered[j], ordered[n])))
             || (&& c in accepted && c in found && found == before[c := found[c]]
                 && found[c].reason == ReasonFor(ordered[n])
                 && exists j :: NextSuperseder(ordered, n, j) && found[c].suppressor == CoordinateOf(ordered[j].pos))
    ensures ScannedFrom(ordered, accepted, n, found)
  {
    hide CoordinateOf, Supersedes, NextSuperseder;
    var c := CoordinateOf(ordered[n].pos);
    forall i | n < i < |ordered| ensures CoordinateOf(ordered[i].pos) != c {
      assert CoordinateOf(ordered[n].pos) != CoordinateOf(ordered[i].pos);
    }
    assert c !in before;
    forall i | n <= i < |ordered| ensures ScannedAt(ordered, accepted, i, found) {
      if i > n {
        assert ScannedAt(ordered, accepted, i, before);
      }
    }
  }

  // ----- Replaying without them -----

  /** Each treatment is the given one, or drops a manifest that a later event supersedes. */
  ghost predicate Suppressed(items: seq<Item>, cut: seq<Item>) {
    && |items| == |cut|
    && forall i :: 0 <= i < |items| ==>
         && cut[i].event == items[i].event
         && (cut[i].treatment == items[i].treatment || DropsSuperseded(items, cut, i))
  }

  ghost predicate DropsSuperseded(items: seq<Item>, cut: seq<Item>, i: int)
    requires 0 <= i < |items| == |cut|
  {
    && items[i].treatment.Accept? && cut[i].treatment.Suppress?
    && exists j :: i < j < |items| && Supersedes(items[j].event, items[i].event)
  }

  /** Posts that public feeds may show. */
  function VisiblePosts(c: Content): map<ObjectId, Post> {
    map o | o in c.posts && c.posts[o].tombstonedAt.None? :: c.posts[o]
  }

  ghost predicate TrimsProfiles(full: Content, cut: Content, items: seq<Item>, cutItems: seq<Item>)
    requires |items| == |cutItems|
  {
    forall id :: SameProfile(full, cut, id) || LatestIsDropped(full, items, cutItems, id)
  }

  ghost predicate TrimsPosts(full: Content, cut: Content, items: seq<Item>, cutItems: seq<Item>)
    requires |items| == |cutItems|
  {
    && cut.posts.Keys <= full.posts.Keys
    && (forall o :: o in cut.posts ==> cut.posts[o] == full.posts[o])
    && (forall o :: o in full.posts && o !in cut.posts ==> PostIsDropped(items, cutItems, o))
  }

  /** The suppressed state differs from the full one at most in the bytes of suppressed items. */
  ghost predicate Trims(full: Content, cut: Content, items: seq<Item>, cutItems: seq<Item>)
    requires |items| == |cutItems|
  {
    && cut.latestProfile == full.latestProfile && cut.references == full.references
    && TrimsProfiles(full, cut, items, cutItems) && TrimsPosts(full, cut, items, cutItems)
  }

  predicate SameProfile(full: Content, cut: Content, id: IdentityId) {
    if id in full.profiles then id in cut.profiles && cut.profiles[id] == full.profiles[id] else id !in cut.profiles
  }

  ghost predicate LatestIsDropped(full: Content, items: seq<Item>, cut: seq<Item>, id: IdentityId)
    requires |items| == |cut|
  {
    && id in full.latestProfile
    && exists i :: 0 <= i < |items| && cut[i].treatment.Suppress? && items[i].treatment != cut[i].treatment
                   && items[i].event.body.ProfileUpdated? && ItemCoordinate(items[i]) == full.latestProfile[id]
  }

  ghost predicate PostIsDropped(items: seq<Item>, cut: seq<Item>, o: ObjectId)
    requires |items| == |cut|
  {
    exists i :: 0 <= i < |items| && cut[i].treatment.Suppress? && items[i].treatment.Accept?
                && items[i].event.body.PostPublished? && items[i].event.body.objectId == o
  }

  lemma DropsExtend(full: Content, f: Content, items: seq<Item>, cut: seq<Item>, item: Item, cutItem: Item)
    requires |items| == |cut|
    ensures forall id :: LatestIsDropped(full, items, cut, id)
                         && (id in full.latestProfile ==>
                               id in f.latestProfile && f.latestProfile[id] == full.latestProfile[id])
              ==> LatestIsDropped(f, items + [item], cut + [cutItem], id)
    ensures forall o :: PostIsDropped(items, cut, o) ==> PostIsDropped(items + [item], cut + [cutItem], o)
  {
    var items', cut' := items + [item], cut + [cutItem];
    assert forall i :: 0 <= i < |items| ==> items'[i] == items[i] && cut'[i] == cut[i];
  }

  lemma NewlyDropped(f: Content, items: seq<Item>, cut: seq<Item>, item: Item)
    requires |items| == |cut| && item.treatment.Accept?
    requires item.event.body.ProfileUpdated? ==>
               && item.event.body.identity in f.latestProfile
               && f.latestProfile[item.event.body.identity] == ItemCoordinate(item)
    ensures var items', cut' := items + [item], cut + [Item(item.event, Suppress)];
            && (item.event.body.ProfileUpdated? ==> LatestIsDropped(f, items', cut', item.event.body.identity))
            && (item.event.body.PostPublished? ==> PostIsDropped(items', cut', item.event.body.objectId))
  {
    var items', cut' := items + [item], cut + [Item(item.event, Suppress)];
    assert items'[|items|] == item && cut'[|items|] == Item(item.event, Suppress);
  }

  /** An item, and the same item in the trimmed replay: as given, or without its manifest. */
  predicate TrimsItem(item: Item, cutItem: Item) {
    || cutItem == item
    || (item.treatment.Accept? && cutItem == Item(item.event, Suppress)
        && (item.event.body.ProfileUpdated? || item.event.body.PostPublished?))
  }

  lemma TrimsProfileEvent(full: Content, cut: Content, items: seq<Item>, cutItems: seq<Item>, item: Item, cutItem: Item)
    requires item.event.body.ProfileUpdated? && |items| == |cutItems| && TrimsItem(item, cutItem)
    requires Trims(full, cut, items, cutItems) && ProfileEffect(full, item.event, item.treatment).Ok?
    ensures ProfileEffect(cut, item.event, cutItem.treatment).Ok?
    ensures Trims(ProfileEffect(full, item.event, item.treatment).value,
                  ProfileEffect(cut, item.event, cutItem.treatment).value, items + [item], cutItems + [cutItem])
  {
    hide RequireManifest, CoordinateOf, LatestIsDropped, PostIsDropped, NewProfile;
    var f, c := ProfileEffect(full, item.event, item.treatment).value,
      ProfileEffect(cut, item.event, cutItem.treatment).value;
    DropsExtend(full, f, items, cutItems, item, cutItem);
    if cutItem != item {
      NewlyDropped(f, items, cutItems, item);
    }
    forall id ensures SameProfile(f, c, id) || LatestIsDropped(f, items + [item], cutItems + [cutItem], id) {
      assert SameProfile(full, cut, id) || LatestIsDropped(full, items, cutItems, id);
    }
  }

  /** Content that differs from other content in one post and in references only. */
  lemma TrimsOtherPosts(full: Content, cut: Content, items: seq<Item>, cutItems: seq<Item>, item: Item, cutItem: Item,
                        f: Content, c: Content, o: ObjectId)
    requires |items| == |cutItems| && Trims(full, cut, items, cutItems)
    requires f.profiles == full.profiles && f.latestProfile == full.latestProfile
    requires c.profiles == cut.profiles && c.latestProfile == cut.latestProfile && f.references == c.references
    requires f.posts - {o} == full.posts - {o} && c.posts - {o} == cut.posts - {o}
    requires o in c.posts ==> o in f.posts && f.posts[o] == c.posts[o]
    requires o in f.posts && o !in c.posts ==> PostIsDropped(items + [item], cutItems + [cutItem], o)
    ensures Trims(f, c, items + [item], cutItems + [cutItem])
  {
    hide LatestIsDropped, PostIsDropped;
    DropsExtend(full, f, items, cutItems, item, cutItem);
    forall id ensures SameProfile(f, c, id) || LatestIsDropped(f, items + [item], cutItems + [cutItem], id) {
      assert SameProfile(full, cut, id) || LatestIsDropped(full, items, cutItems, id);
    }
    forall x | x in f.posts && x !in c.posts ensures PostIsDropped(items + [item], cutItems + [cutItem], x) {
      if x != o {
        assert x in f.posts - {o} && x !in c.posts - {o};
      }
    }
    forall x | x in c.posts ensures x in f.posts && f.posts[x] == c.posts[x] {
      if x != o {
        assert x in c.posts - {o};
        assert x in full.posts - {o} && (full.posts - {o})[x] == full.posts[x];
      }
    }
  }

  lemma TrimsPostEvent(full: Content, cut: Content, items: seq<Item>, cutItems: seq<Item>, item: Item, cutItem: Item)
    requires item.event.body.PostPublished? && |items| == |cutItems| && TrimsItem(item, cutItem)
    requires Trims(full, cut, items, cutItems) && TreatmentMatches(item.event, item.treatment)
    requires PostEffect(full, item.event, item.treatment).Ok? && item.event.body.objectId !in full.posts
    ensures PostEffect(cut, item.event, cutItem.treatment).Ok?
    ensures Trims(PostEffect(full, item.event, item.treatment).value,
                  PostEffect(cut, item.event, cutItem.treatment).value, items + [item], cutItems + [cutItem])
  {
    hide PostEffect, CoordinateOf, LatestIsDropped, PostIsDropped, Trims, TreatmentMatches, RequireManifest;
    var e, o := item.event, item.event.body.objectId;
    PostEffectShape(full, e, item.treatment);
    PostEffectShape(cut, e, item.treatment);
    PostEffectShape(cut, e, cutItem.treatment);
    PostsWithin(full, cut, items, cutItems, o, item, cutItem);
    var f, c := PostEffect(full, e, item.treatment).value, PostEffect(cut, e, cutItem.treatment).value;
    if cutItem != item {
      NewlyDropped(f, items, cutItems, item);
    }
    TrimsOtherPosts(full, cut, items, cutItems, item, cutItem, f, c, o);
  }

  /** A post event with a good manifest differs from one without in the stored post only. */
  lemma PostEffectShape(c: Content, e: Event, t: Treatment)
    requires e.body.PostPublished? && TreatmentMatches(e, t)
    ensures PostEffect(c, e, t).Ok? <==> (t.Accept? ==> RequireManifest(e, t.manifest, PostManifest).Ok?)
    ensures PostEffect(c, e, t).Ok? ==>
              var x, o := PostEffect(c, e, t).value, e.body.objectId;
              && x.profiles == c.profiles && x.latestProfile == c.latestProfile
              && x.references == WithReference(c, e.body.postReference, o).references
              && x.posts - {o} == c.posts - {o}
              && (if t.Accept? then
                    o in x.posts && x.posts[o] == NewPost(e, RequireManifest(e, t.manifest, PostManifest).value, None)
                  else x.posts == c.posts)
  {
  }

  lemma PostsWithin(full: Content, cut: Content, items: seq<Item>, cutItems: seq<Item>, o: ObjectId, item: Item,
                    cutItem: Item)
    requires |items| == |cutItems| && Trims(full, cut, items, cutItems)
    ensures cut.references == full.references
    ensures o in cut.posts ==> o in full.posts && full.posts[o] == cut.posts[o]
    ensures o in full.posts && o !in cut.posts ==> PostIsDropped(items + [item], cutItems + [cutItem], o)
  {
    DropsExtend(full, full, items, cutItems, item, cutItem);
  }

  lemma TrimsTombstone(full: Content, cut: Content, items: seq<Item>, cutItems: seq<Item>, item: Item)
    requires item.event.body.Tombstoned? && |items| == |cutItems| && Trims(full, cut, items, cutItems)
    ensures Trims(TombstoneEffect(full, item.event, item.treatment), TombstoneEffect(cut, item.event, item.treatment),
                  items + [item], cutItems + [item])
  {
    hide CoordinateOf, LatestIsDropped, PostIsDropped;
    var f, c := TombstoneEffect(full, item.event, item.treatment), TombstoneEffect(cut, item.event, item.treatment);
    DropsExtend(full, f, items, cutItems, item, item);
    forall id ensures SameProfile(f, c, id) || LatestIsDropped(f, items + [item], cutItems + [item], id) {
      assert SameProfile(full, cut, id) || LatestIsDropped(full, items, cutItems, id);
    }
  }

  lemma TrimsStep(full: Content, cut: Content, items: seq<Item>, cutItems: seq<Item>, item: Item, cutItem: Item)
    requires FamilyOf(item.event.body) == OfContent && |items| == |cutItems| && TrimsItem(item, cutItem)
    requires Trims(full, cut, items, cutItems) && TreatmentMatches(item.event, item.treatment)
    requires ContentEffect(full, item.event, item.treatment).Ok?
    requires item.event.body.PostPublished? ==> item.event.body.objectId !in full.posts
    ensures ContentEffect(cut, item.event, cutItem.treatment).Ok?
    ensures Trims(ContentEffect(full, item.event, item.treatment).value,
                  ContentEffect(cut, item.event, cutItem.treatment).value, items + [item], cutItems + [cutItem])
  {
    hide Trims, TreatmentMatches, ProfileEffect, PostEffect, TombstoneEffect;
    if item.event.body.ProfileUpdated? {
      TrimsProfileEvent(full, cut, items, cutItems, item, cutItem);
    } else if item.event.body.PostPublished? {
      TrimsPostEvent(full, cut, items, cutItems, item, cutItem);
    } else {
      TrimsTombstone(full, cut, items, cutItems, item);
    }
  }

  // ----- What the full replay knows about posts and profiles -----

  predicate PublishesPost(item: Item, o: ObjectId) {
    item.event.body.PostPublished? && item.event.body.objectId == o
  }

  predicate HidesPost(item: Item, post: Item) {
    item.event.body.Tombstoned? && post.event.body.PostPublished? && Supersedes(item.event, post.event)
  }

  ghost predicate LatestPointer(items: seq<Item>, i: int, id: IdentityId) {
    && 0 <= i < |items| && items[i].event.body.ProfileUpdated? && items[i].event.body.identity == id
    && forall j :: i < j < |items| ==> !(items[j].event.body.ProfileUpdated? && items[j].event.body.identity == id)
  }

  /** Posts were published, accepted posts are there, and those with a later tombstone are hidden. */
  ghost predicate PostsFollowItems(c: Content, items: seq<Item>) {
    && (forall o :: o in c.posts ==> exists i :: 0 <= i < |items| && PublishesPost(items[i], o))
    && (forall i :: 0 <= i < |items| && items[i].event.body.PostPublished? && items[i].treatment.Accept? ==>
          && items[i].event.body.objectId in c.posts
          && c.posts[items[i].event.body.objectId].author == items[i].event.body.identity)
    && (forall i, j :: 0 <= i < j < |items| && items[i].treatment.Accept? && HidesPost(items[j], items[i]) ==>
          items[i].event.body.objectId in c.posts && c.posts[items[i].event.body.objectId].tombstonedAt.Some?)
  }

  ghost predicate ProfilesFollowItems(c: Content, items: seq<Item>) {
    forall id :: id in c.latestProfile ==>
      exists i :: LatestPointer(items, i, id) && ItemCoordinate(items[i]) == c.latestProfile[id]
  }

  ghost predicate FollowsItems(c: Content, items: seq<Item>) {
    PostsFollowItems(c, items) && ProfilesFollowItems(c, items)
  }

  lemma PointersSurvive(c: Content, f: Content, items: seq<Item>, item: Item)
    requires ProfilesFollowItems(c, items)
    requires f.latestProfile == if item.event.body.ProfileUpdated?
                                then c.latestProfile[item.event.body.identity := ItemCoordinate(item)]
                                else c.latestProfile
    ensures ProfilesFollowItems(f, items + [item])
  {
    hide CoordinateOf;
    var items' := items + [item];
    assert items'[|items|] == item;
    forall id | id in f.latestProfile
      ensures exists i :: LatestPointer(items', i, id) && ItemCoordinate(items'[i]) == f.latestProfile[id]
    {
      if item.event.body.ProfileUpdated? && item.event.body.identity == id {
        assert LatestPointer(items', |items|, id);
      } else {
        var i :| LatestPointer(items, i, id) && ItemCoordinate(items[i]) == c.latestProfile[id];
        assert LatestPointer(items', i, id);
      }
    }
  }

  /** What a content event does to the posts that are already there, and the one post it may add. */
  ghost predicate KeepsPosts(c: Content, f: Content, item: Item) {
    && (forall o :: o in c.posts ==>
          && o in f.posts && f.posts[o].author == c.posts[o].author
          && (c.posts[o].tombstonedAt.Some? ==> f.posts[o].tombstonedAt.Some?))
    && (forall o :: o in f.posts && o !in c.posts ==> PublishesPost(item, o))
    && (item.event.body.PostPublished? && item.treatment.Accept? ==>
          && item.event.body.objectId in f.posts
          && f.posts[item.event.body.objectId].author == item.event.body.identity)
    && (item.event.body.Tombstoned? && item.event.body.objectId in c.posts
        && c.posts[item.event.body.objectId].author == item.event.body.identity ==>
          item.event.body.objectId in f.posts && f.posts[item.event.body.objectId].tombstonedAt.Some?)
  }

  lemma PostsSurvive(c: Content, f: Content, items: seq<Item>, item: Item)
    requires PostsFollowItems(c, items) && KeepsPosts(c, f, item)
    ensures PostsFollowItems(f, items + [item])
  {
    var items' := items + [item];
    assert items'[|items|] == item;
    forall o | o in f.posts ensures exists i :: 0 <= i < |items'| && PublishesPost(items'[i], o) {
      if o in c.posts {
        var i :| 0 <= i < |items| && PublishesPost(items[i], o);
        assert PublishesPost(items'[i], o);
      } else {
        assert PublishesPost(items'[|items|], o);
      }
    }
    hide PublishesPost;
    forall i, j | 0 <= i < j < |items'| && items'[i].treatment.Accept? && HidesPost(items'[j], items'[i])
      ensures var o := items'[i].event.body.objectId;
              o in f.posts && f.posts[o].tombstonedAt.Some?
    {
      if j < |items| {
        assert HidesPost(items[j], items[i]);
      } else {
        assert items[i].event.body.PostPublished?;
      }
    }
  }

  lemma ContentKeepsPosts(c: Content, item: Item)
    requires FamilyOf(item.event.body) == OfContent
    requires ContentEffect(c, item.event, item.treatment).Ok? && TreatmentMatches(item.event, item.treatment)
    requires item.event.body.PostPublished? ==> item.event.body.objectId !in c.posts
    ensures KeepsPosts(c, ContentEffect(c, item.event, item.treatment).value, item)
  {
    hide CoordinateOf;
    if item.event.body.PostPublished? {
      hide SignerMatches, ProfileEffect;
      PostEffectShape(c, item.event, item.treatment);
    }
    hide RequireManifest;
  }

  lemma ContentFollowsItems(c: Content, items: seq<Item>, item: Item)
    requires FamilyOf(item.event.body) == OfContent && FollowsItems(c, items)
    requires ContentEffect(c, item.event, item.treatment).Ok? && TreatmentMatches(item.event, item.treatment)
    requires item.event.body.PostPublished? ==> item.event.body.objectId !in c.posts
    ensures FollowsItems(ContentEffect(c, item.event, item.treatment).value, items + [item])
  {
    ContentKeepsPosts(c, item);
    hide PostsFollowItems, ProfilesFollowItems, SignerMatches, CoordinateOf, KeepsPosts;
    var f := ContentEffect(c, item.event, item.treatment).value;
    PostsSurvive(c, f, items, item);
    PointersSurvive(c, f, items, item);
  }

  // ----- The theorem -----

  lemma SocialIgnoresPosts(s: Social, full: Content, cut: Content, ids: Identities, e: Event)
    requires FamilyOf(e.body) == OfSocial && full.references == cut.references
    ensures SocialEffect(s, full, ids, e) == SocialEffect(s, cut, ids, e)
  {
  }

  lemma EffectTrims(pda: Derivations, s: State, x: Content, items: seq<Item>, cut: seq<Item>, item: Item, cutItem: Item)
    requires |items| == |cut| && TrimsItem(item, cutItem) && Trims(s.content, x, items, cut)
    requires FollowsItems(s.content, items) && Effect(pda, s, item.event, item.treatment).Ok?
    requires TreatmentMatches(item.event, item.treatment)
    requires item.event.body.PostPublished? ==> item.event.body.objectId !in s.content.posts
    ensures Effect(pda, s.(content := x), item.event, cutItem.treatment).Ok?
    ensures var f := Effect(pda, s, item.event, item.treatment).value;
            var c := Effect(pda, s.(content := x), item.event, cutItem.treatment).value;
            && c == f.(content := c.content) && c.ledger == s.ledger == f.ledger
            && Trims(f.content, c.content, items + [item], cut + [cutItem]) && FollowsItems(f.content, items + [item])
  {
    hide IdentityEffect, HandleEffect, RecoveryEffect, CommunityEffect, GovernanceEffect, ContentEffect, SocialEffect,
      TrimsProfiles, TrimsPosts, FollowsItems, TreatmentMatches;
    if FamilyOf(item.event.body) == OfContent {
      TrimsStep(s.content, x, items, cut, item, cutItem);
      ContentFollowsItems(s.content, items, item);
    } else {
      if FamilyOf(item.event.body) == OfSocial {
        SocialIgnoresPosts(s.social, s.content, x, s.identities, item.event);
      }
      TrimsUnrelated(s.content, x, items, cut, item, cutItem);
    }
  }

  lemma TrimsUnrelated(full: Content, x: Content, items: seq<Item>, cut: seq<Item>, item: Item, cutItem: Item)
    requires |items| == |cut| && Trims(full, x, items, cut) && FollowsItems(full, items)
    requires FamilyOf(item.event.body) != OfContent
    ensures Trims(full, x, items + [item], cut + [cutItem]) && FollowsItems(full, items + [item])
  {
    hide LatestIsDropped, PostIsDropped, CoordinateOf;
    DropsExtend(full, full, items, cut, item, cutItem);
    forall id ensures SameProfile(full, x, id) || LatestIsDropped(full, items + [item], cut + [cutItem], id) {
      assert SameProfile(full, x, id) || LatestIsDropped(full, items, cut, id);
    }
    hide PostsFollowItems, ProfilesFollowItems;
    assert KeepsPosts(full, full, item);
    PostsSurvive(full, full, items, item);
    PointersSurvive(full, full, items, item);
  }

  lemma IngestTrims(pda: Derivations, s: State, x: Content, items: seq<Item>, cut: seq<Item>, item: Item, cutItem: Item)
    requires |items| == |cut| && TrimsItem(item, cutItem) && Trims(s.content, x, items, cut)
    requires FollowsItems(s.content, items) && Ingest(pda, s, item.event, item.treatment).Ok?
    requires TreatmentMatches(item.event, item.treatment)
    requires item.event.body.PostPublished? ==> item.event.body.objectId !in s.content.posts
    ensures Ingest(pda, s.(content := x), item.event, cutItem.treatment).Ok?
    ensures var f := Ingest(pda, s, item.event, item.treatment).value;
            var c := Ingest(pda, s.(content := x), item.event, cutItem.treatment).value;
            && c == f.(content := c.content)
            && Trims(f.content, c.content, items + [item], cut + [cutItem]) && FollowsItems(f.content, items + [item])
  {
    hide Effect, ValidateLifecycle, Advance, Trims, FollowsItems, TreatmentMatches;
    EffectTrims(pda, s, x, items, cut, item, cutItem);
  }

  ghost predicate TrimsItems(items: seq<Item>, cut: seq<Item>) {
    |items| == |cut| && forall i :: 0 <= i < |items| ==> TrimsItem(items[i], cut[i])
  }

  lemma FreshPost(c: Content, items: seq<Item>, n: nat)
    requires n < |items| && DistinctItems(items) && ConsistentPosts(EventsOf(items)) && PostsFollowItems(c, items[..n])
    requires items[n].event.body.PostPublished?
    ensures items[n].event.body.objectId !in c.posts
  {
  }

  lemma ReplayTrimsLast(pda: Derivations, s: State, x: Content, items: seq<Item>, cut: seq<Item>, item: Item,
                        cutItem: Item)
    requires |items| == |cut| && TrimsItem(item, cutItem) && Trims(s.content, x, items, cut)
    requires FollowsItems(s.content, items) && Ingest(pda, s, item.event, item.treatment).Ok?
    requires TreatmentMatches(item.event, item.treatment)
    requires item.event.body.PostPublished? ==> item.event.body.objectId !in s.content.posts
    ensures cutItem.event == item.event
    ensures Ingest(pda, s.(content := x), cutItem.event, cutItem.treatment).Ok?
    ensures var f := Ingest(pda, s, item.event, item.treatment).value;
            var c := Ingest(pda, s.(content := x), cutItem.event, cutItem.treatment).value;
            && c == f.(content := c.content)
            && Trims(f.content, c.content, items + [item], cut + [cutItem]) && FollowsItems(f.content, items + [item])
  {
    hide Ingest, Trims, FollowsItems, TreatmentMatches;
    IngestTrims(pda, s, x, items, cut, item, cutItem);
  }

  lemma FreshAfter(pda: Derivations, items: seq<Item>, n: nat)
    requires n < |items| && Replay(pda, items).Ok? && Replay(pda, items[..n]).Ok?
    requires ConsistentPosts(EventsOf(items)) && items[n].event.body.PostPublished?
    requires FollowsItems(Replay(pda, items[..n]).value.content, items[..n])
    ensures items[n].event.body.objectId !in Replay(pda, items[..n]).value.content.posts
  {
    hide Ingest, PostsAreConsistent, LedgerMatches, PostsFollowItems, ProfilesFollowItems;
    ReplayLedger(pda, items);
    FreshPost(Replay(pda, items[..n]).value.content, items, n);
  }

  /** What is asked of all items holds of the last one, and of those before it. */
  lemma SplitLast(items: seq<Item>, cut: seq<Item>)
    requires ItemsMatch(items) && ConsistentPosts(EventsOf(items)) && TrimsItems(items, cut)
    ensures |items| == |cut|
    ensures items != [] ==>
              var n := |items| - 1;
              && ItemsMatch(items[..n]) && ConsistentPosts(EventsOf(items[..n])) && TrimsItems(items[..n], cut[..n])
              && TreatmentMatches(items[n].event, items[n].treatment) && TrimsItem(items[n], cut[n])
  {
    hide PostsAreConsistent, TrimsItem, TreatmentMatches;
    if items != [] {
      assert EventsOf(items[..|items| - 1]) == EventsOf(items)[..|items| - 1];
    }
  }

  /** Dropping manifests of profiles and posts, superseded or not, only ever trims content. */
  lemma {:induction false} ReplayTrims(pda: Derivations, items: seq<Item>, cut: seq<Item>)
    requires Replay(pda, items).Ok? && ItemsMatch(items) && ConsistentPosts(EventsOf(items)) && TrimsItems(items, cut)
    ensures Replay(pda, cut).Ok?
    ensures var s, t := Replay(pda, items).value, Replay(pda, cut).value;
            t == s.(content := t.content) && Trims(s.content, t.content, items, cut) && FollowsItems(s.content, items)
  {
    hide Ingest, Trims, FollowsItems, TrimsItem, TreatmentMatches, ItemsMatch, ConsistentPosts, TrimsItems;
    SplitLast(items, cut);
    if items != [] {
      var n := |items| - 1;
      var earlier, earlierCut := items[..n], cut[..n];
      ReplayTrims(pda, earlier, earlierCut);
      var s, x := Replay(pda, earlier).value, Replay(pda, earlierCut).value.content;
      if items[n].event.body.PostPublished? {
        FreshAfter(pda, items, n);
      }
      ReplayTrimsLast(pda, s, x, earlier, earlierCut, items[n], cut[n]);
      assert items == earlier + [items[n]] && cut == earlierCut + [cut[n]];
    } else {
      NothingTrimmed();
    }
  }

  lemma NothingTrimmed()
    ensures Trims(EMPTY.content, EMPTY.content, [], []) && FollowsItems(EMPTY.content, [])
  {
  }

  lemma SuppressedTrims(items: seq<Item>, cut: seq<Item>)
    requires Suppressed(items, cut)
    ensures TrimsItems(items, cut)
  {
  }

  /** What two contents must have in common for a reader not to be able to tell them apart. */
  ghost predicate ServesTheSame(full: Content, cut: Content) {
    && cut == full.(posts := cut.posts)
    && VisiblePosts(cut) == VisiblePosts(full)
    && cut.posts.Keys <= full.posts.Keys
    && (forall o :: o in cut.posts ==> cut.posts[o] == full.posts[o])
    && (forall o :: o in full.posts && o !in cut.posts ==> full.posts[o].tombstonedAt.Some?)
  }

  lemma TrimmedServesTheSame(full: Content, cut: Content, items: seq<Item>, cutItems: seq<Item>)
    requires Suppressed(items, cutItems) && Trims(full, cut, items, cutItems)
    requires FollowsItems(full, items) && DistinctItems(items)
    ensures ServesTheSame(full, cut)
  {
    forall id ensures SameProfile(full, cut, id) {
      NoProfileIsDropped(full, items, cutItems, id);
    }
    forall o | o in full.posts && o !in cut.posts ensures full.posts[o].tombstonedAt.Some? {
      DroppedPostIsHidden(full, items, cutItems, o);
    }
    SameProfiles(full, cut);
  }

  /**
   Leaving out superseded manifests changes nothing that is served: identities, profiles, references and visible
   posts are those of the full replay, and the only records missing are posts that a tombstone hides.
   */
  lemma SuppressedReplayServesTheSame(pda: Derivations, items: seq<Item>, cut: seq<Item>)
    requires Replay(pda, items).Ok? && ItemsMatch(items) && ConsistentPosts(EventsOf(items)) && Suppressed(items, cut)
    ensures Replay(pda, cut).Ok?
    ensures var s, t := Replay(pda, items).value, Replay(pda, cut).value;
            t == s.(content := t.content) && ServesTheSame(s.content, t.content)
  {
    hide Ingest, ConsistentPosts, ItemsMatch, Trims, FollowsItems, ServesTheSame, Suppressed, DistinctItems,
      LedgerMatches;
    SuppressedTrims(items, cut);
    ReplayTrims(pda, items, cut);
    ReplayLedger(pda, items);
    TrimmedServesTheSame(Replay(pda, items).value.content, Replay(pda, cut).value.content, items, cut);
  }

  datatype FeedEntry = FeedEntry(post: Post, author: Option<Identity>, profile: Option<Profile>)

  /** The entries of a public feed, or of the feed of those whom a viewer follows. */
  function FeedEntries(s: State, isPublic: Post -> bool, viewer: Option<IdentityId>): map<ObjectId, FeedEntry> {
    map o | o in VisiblePosts(s.content) && isPublic(VisiblePosts(s.content)[o])
            && (viewer.Some? ==> Follows(s.social, viewer.value, VisiblePosts(s.content)[o].author)) ::
      var post := VisiblePosts(s.content)[o];
      FeedEntry(post, if post.author in s.identities.records then Some(s.identities.records[post.author]) else None,
                if post.author in s.content.profiles then Some(s.content.profiles[post.author]) else None)
  }

  predicate Follows(s: Social, viewer: IdentityId, author: IdentityId) {
    (viewer, author) in s.follows && s.follows[(viewer, author)].active
  }

  /** Every feed shows the same after a replay without superseded manifests. */
  lemma SuppressedReplayFeedsTheSame(pda: Derivations, items: seq<Item>, cut: seq<Item>, isPublic: Post -> bool,
                                     viewer: Option<IdentityId>)
    requires Replay(pda, items).Ok? && ItemsMatch(items) && ConsistentPosts(EventsOf(items)) && Suppressed(items, cut)
    ensures Replay(pda, cut).Ok?
    ensures FeedEntries(Replay(pda, cut).value, isPublic, viewer)
         == FeedEntries(Replay(pda, items).value, isPublic, viewer)
  {
    hide Replay, VisiblePosts, Follows, ConsistentPosts, ItemsMatch, Suppressed;
    SuppressedReplayServesTheSame(pda, items, cut);
  }

  lemma SameProfiles(full: Content, cut: Content)
    requires forall id :: SameProfile(full, cut, id)
    ensures full.profiles == cut.profiles
  {
    forall id ensures id in full.profiles <==> id in cut.profiles {
      assert SameProfile(full, cut, id);
    }
    forall id | id in full.profiles ensures full.profiles[id] == cut.profiles[id] {
      assert SameProfile(full, cut, id);
    }
  }

  lemma NoProfileIsDropped(c: Content, items: seq<Item>, cut: seq<Item>, id: IdentityId)
    requires Suppressed(items, cut) && FollowsItems(c, items) && DistinctItems(items)
    ensures !LatestIsDropped(c, items, cut, id)
  {
  }

  lemma DroppedPostIsHidden(c: Content, items: seq<Item>, cut: seq<Item>, o: ObjectId)
    requires Suppressed(items, cut) && FollowsItems(c, items) && PostIsDropped(items, cut, o)
    ensures o in c.posts && c.posts[o].tombstonedAt.Some?
  {
  }

  // ----- Rebuilding with the suppressions that the indexer derives -----

  /** The recorded events whose manifest is neither awaited nor given up. */
  function AcceptedIn(l: Ledger): set<Coordinate> {
    set e | e in l.log && CoordinateOf(e.pos) !in l.pending && CoordinateOf(e.pos) !in l.terminal :: CoordinateOf(e.pos)
  }

  function Withhold(items: seq<Item>, suppressed: set<Coordinate>): (cut: seq<Item>)
    ensures |cut| == |items|
    ensures forall i :: 0 <= i < |items| ==> cut[i].event == items[i].event
  {
    seq(|items|, i requires 0 <= i < |items| =>
      if ItemCoordinate(items[i]) in suppressed then Item(items[i].event, Suppress) else items[i])
  }

  lemma AcceptedHasManifest(l: Ledger, items: seq<Item>, i: nat)
    requires LedgerMatches(l, items) && i < |items| && ItemCoordinate(items[i]) in AcceptedIn(l)
    ensures items[i].treatment.Accept? || items[i].treatment.Suppress?
  {
  }

  /** Every suppression that the backward scan derives for accepted events is justified. */
  lemma DerivedSuppressionsAreJustified(l: Ledger, items: seq<Item>, found: map<Coordinate, Justification>)
    requires LedgerMatches(l, items) && DistinctItems(items)
    requires ScannedFrom(EventsOf(items), AcceptedIn(l), 0, found)
    ensures Suppressed(items, Withhold(items, found.Keys))
  {
    hide LedgerMatches, AcceptedIn, CoordinateOf, Supersedes;
    var cut, log := Withhold(items, found.Keys), EventsOf(items);
    forall i | 0 <= i < |items| && ItemCoordinate(items[i]) in found
      ensures cut[i].treatment == items[i].treatment || DropsSuperseded(items, cut, i)
    {
      assert ScannedAt(log, AcceptedIn(l), i, found);
      assert log[i] == items[i].event;
      AcceptedHasManifest(l, items, i);
      var j :| NextSuperseder(log, i, j);
      assert log[j] == items[j].event;
    }
  }

  /**
   Rebuilding from any run's log, with every manifest withheld that the scan of that log finds superseded, succeeds
   and serves what the store serves now.
   */
  lemma OpenRebuildServesTheSame(pda: Derivations, ops: seq<Op>, found: map<Coordinate, Justification>)
    requires OpsMatch(ops) && OrderlyLog(Run(pda, ops).ledger.log)
    requires ScannedFrom(Run(pda, ops).ledger.log, AcceptedIn(Run(pda, ops).ledger), 0, found)
    ensures var cut := Withhold(Execute(pda, ops).items, found.Keys);
            && Replay(pda, cut).Ok?
            && Replay(pda, cut).value == Run(pda, ops).(content := Replay(pda, cut).value.content)
            && ServesTheSame(Run(pda, ops).content, Replay(pda, cut).value.content)
  {
    hide Ingest, Perform, InCanonicalOrder, ConsistentPosts, ScannedFrom, Suppressed, ServesTheSame, DistinctItems,
      ItemsMatch;
    var items := Execute(pda, ops).items;
    RunIsReplay(pda, ops);
    ReplayLedger(pda, items);
    DerivedSuppressionsAreJustified(Run(pda, ops).ledger, items, found);
    SuppressedReplayServesTheSame(pda, items, Withhold(items, found.Keys));
  }
}
