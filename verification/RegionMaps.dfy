/** The region map: an index from regions to values that stands for a map from points to values. */
module RegionMaps {
  import opened RegionQueries

  /** Some entry maps point `p` to `v`. */
  ghost predicate Maps<K, V>(entries: seq<Piece<K, V>>, p: K, v: V) {
    exists i :: 0 <= i < |entries| && p in entries[i].box && entries[i].value == v
  }

  ghost predicate Represents<K(!new), V(!new)>(entries: seq<Piece<K, V>>, points: map<K, V>) {
    forall p, v :: Maps(entries, p, v) <==> p in points && points[p] == v
  }

  ghost predicate Distinct<K, V>(entries: seq<Piece<K, V>>) {
    forall i, j :: 0 <= i < j < |entries| ==> entries[i].value != entries[j].value
  }

  /** Entries with different values that represent a map have no point in common. */
  lemma DistinctMeansApart<K(!new), V(!new)>(entries: seq<Piece<K, V>>, points: map<K, V>)
    requires Represents(entries, points) && Distinct(entries)
    ensures Apart(entries)
  {
    forall i, j | 0 <= i < j < |entries|
      ensures entries[i].box !! entries[j].box
    {
      forall p | p in entries[i].box
        ensures p !in entries[j].box
      {
        assert Maps(entries, p, entries[i].value);
        if p in entries[j].box { assert Maps(entries, p, entries[j].value); }
      }
    }
  }

  // ------------------------------------------------------------------ collapse

  /** Entry `a` holds everything that the later entry `j` holds. */
  ghost predicate Absorbs<K, V>(entries: seq<Piece<K, V>>, a: int, j: int) {
    0 <= a < j < |entries| && entries[a].value == entries[j].value && entries[j].box <= entries[a].box
  }

  ghost predicate Absorbed<K, V>(entries: seq<Piece<K, V>>, j: int) {
    exists a :: Absorbs(entries, a, j)
  }

  ghost predicate SameMeaning<K(!new), V(!new)>(entries: seq<Piece<K, V>>, entries': seq<Piece<K, V>>) {
    forall p, v :: Maps(entries, p, v) <==> Maps(entries', p, v)
  }

  lemma MergeKeepsMeaning<K(!new), V(!new)>(entries: seq<Piece<K, V>>, i: nat, j: nat)
    requires i < j < |entries| && entries[i].value == entries[j].value
    ensures SameMeaning(entries, entries[i := Piece(entries[i].box + entries[j].box, entries[i].value)])
  {
    var entries' := entries[i := Piece(entries[i].box + entries[j].box, entries[i].value)];
    forall p, v
      ensures Maps(entries, p, v) <==> Maps(entries', p, v)
    {
      if k :| 0 <= k < |entries| && p in entries[k].box && entries[k].value == v {
        assert p in entries'[k].box && entries'[k].value == v;
      }
      if k :| 0 <= k < |entries'| && p in entries'[k].box && entries'[k].value == v {
        if p !in entries[k].box { assert p in entries[j].box && entries[j].value == v; }
      }
    }
  }

  lemma EraseKeepsMeaning<K(!new), V(!new)>(entries: seq<Piece<K, V>>, j: nat)
    requires j < |entries| && Absorbed(entries, j)
    ensures SameMeaning(entries, entries[..j] + entries[j + 1..])
  {
    var entries' := entries[..j] + entries[j + 1..];
    var a :| Absorbs(entries, a, j);
    forall p, v
      ensures Maps(entries, p, v) <==> Maps(entries', p, v)
    {
      if k :| 0 <= k < |entries| && p in entries[k].box && entries[k].value == v {
        assert entries'[if k < j then k else if k == j then a else k - 1].value == v;
        assert p in entries'[if k < j then k else if k == j then a else k - 1].box;
      }
      if k :| 0 <= k < |entries'| && p in entries'[k].box && entries'[k].value == v {
        assert entries[if k < j then k else k + 1] == entries'[k];
      }
    }
  }

  lemma MergeKeepsAbsorbs<K, V>(entries: seq<Piece<K, V>>, i: nat, j: nat, a: nat, b: nat)
    requires i < j < |entries| && entries[i].value == entries[j].value
    requires Absorbs(entries, a, b) && (b == i ==> Absorbs(entries, a, j))
    ensures Absorbs(entries[i := Piece(entries[i].box + entries[j].box, entries[i].value)], a, b)
  {
  }

  /** Before entry `i` every entry has absorbed all later ones with its value, and those are marked. */
  ghost predicate CollapsedTo<K, V>(entries: seq<Piece<K, V>>, i: nat, marked: set<nat>) {
    && (forall a, b :: 0 <= a < i && a < b < |entries| && entries[a].value == entries[b].value ==>
                         Absorbs(entries, a, b) && b in marked)
    && (forall j :: j in marked ==> Absorbed(entries, j))
  }

  /** Entry `i` has absorbed those in front of `j`. */
  ghost predicate RowTo<K, V>(entries: seq<Piece<K, V>>, i: nat, j: nat, marked: set<nat>) {
    forall b :: i < b < j && b < |entries| && entries[i].value == entries[b].value ==>
                  i < |entries| && Absorbs(entries, i, b) && b in marked
  }

  lemma OneMerge<K, V>(entries: seq<Piece<K, V>>, i: nat, j: nat, marked: set<nat>)
    requires i < j < |entries| && entries[i].value == entries[j].value && CollapsedTo(entries, i, marked)
    requires RowTo(entries, i, j, marked)
    ensures var entries' := entries[i := Piece(entries[i].box + entries[j].box, entries[i].value)];
            CollapsedTo(entries', i, marked + {j}) && RowTo(entries', i, j + 1, marked + {j})
  {
    MergedRows(entries, i, j, marked);
    MergedRow(entries, i, j, marked);
    var entries' := entries[i := Piece(entries[i].box + entries[j].box, entries[i].value)];
    forall k | k in marked
      ensures Absorbed(entries', k)
    {
      MarkedStays(entries, i, j, marked, k);
    }
    hide Absorbs;
  }

  lemma MergedRows<K, V>(entries: seq<Piece<K, V>>, i: nat, j: nat, marked: set<nat>)
    requires i < j < |entries| && entries[i].value == entries[j].value && CollapsedTo(entries, i, marked)
    ensures var entries' := entries[i := Piece(entries[i].box + entries[j].box, entries[i].value)];
            forall a, b :: 0 <= a < i && a < b < |entries'| && entries'[a].value == entries'[b].value ==>
                             Absorbs(entries', a, b) && b in marked
  {
    hide Absorbed;
    forall a, b | 0 <= a < i && a < b < |entries| && entries[a].value == entries[b].value
      ensures Absorbs(entries[i := Piece(entries[i].box + entries[j].box, entries[i].value)], a, b)
    {
      assert Absorbs(entries, a, b);
      assert b == i ==> Absorbs(entries, a, j);
      MergeKeepsAbsorbs(entries, i, j, a, b);
    }
  }

  lemma MergedRow<K, V>(entries: seq<Piece<K, V>>, i: nat, j: nat, marked: set<nat>)
    requires i < j < |entries| && entries[i].value == entries[j].value && RowTo(entries, i, j, marked)
    ensures var entries' := entries[i := Piece(entries[i].box + entries[j].box, entries[i].value)];
            RowTo(entries', i, j + 1, marked + {j}) && Absorbed(entries', j)
  {
    var entries' := entries[i := Piece(entries[i].box + entries[j].box, entries[i].value)];
    assert Absorbs(entries', i, j);
    forall b | i < b < j && entries[i].value == entries[b].value
      ensures Absorbs(entries', i, b) && b in marked
    {
      assert Absorbs(entries, i, b);
    }
  }

  lemma MarkedStays<K, V>(entries: seq<Piece<K, V>>, i: nat, j: nat, marked: set<nat>, k: nat)
    requires i < j < |entries| && entries[i].value == entries[j].value && CollapsedTo(entries, i, marked) && k in marked
    ensures Absorbed(entries[i := Piece(entries[i].box + entries[j].box, entries[i].value)], k)
  {
    var a: nat :| Absorbs(entries, a, k);
    if k == i { assert Absorbs(entries, a, j); }
    MergeKeepsAbsorbs(entries, i, j, a, k);
  }

  lemma StillAbsorbed<K, V>(merged: seq<Piece<K, V>>, r: seq<Piece<K, V>>, k: nat, marked: set<nat>)
    requires CollapsedTo(merged, |merged|, marked) && k in marked && k < |r| && k < |merged|
    requires r[..k + 1] == merged[..k + 1]
    ensures Absorbed(r, k)
  {
    var a :| Absorbs(merged, a, k);
    assert r[..k + 1][a] == merged[a] && r[..k + 1][k] == merged[k];
    assert Absorbs(r, a, k);
  }

  lemma NothingCollapsed<K(!new), V(!new)>(entries: seq<Piece<K, V>>)
    ensures CollapsedTo(entries, 0, {}) && SameMeaning(entries, entries)
  {
  }

  lemma RowStarts<K, V>(entries: seq<Piece<K, V>>, i: nat, marked: set<nat>)
    ensures RowTo(entries, i, i + 1, marked)
  {
  }

  lemma RowSkips<K, V>(entries: seq<Piece<K, V>>, i: nat, j: nat, marked: set<nat>)
    requires i < j < |entries| && entries[i].value != entries[j].value && RowTo(entries, i, j, marked)
    ensures RowTo(entries, i, j + 1, marked)
  {
  }

  lemma RowEnds<K, V>(entries: seq<Piece<K, V>>, i: nat, marked: set<nat>)
    requires i < |entries| && CollapsedTo(entries, i, marked) && RowTo(entries, i, |entries|, marked)
    ensures CollapsedTo(entries, i + 1, marked)
  {
  }

  lemma SameTwice<K(!new), V(!new)>(a: seq<Piece<K, V>>, b: seq<Piece<K, V>>, c: seq<Piece<K, V>>)
    requires SameMeaning(a, b) && SameMeaning(b, c)
    ensures SameMeaning(a, c)
  {
  }

  // --------------------------------------------------------------------- queries

  /** Some partition of a region into non-empty boxes. */
  method ScanByBoxes<K(==)>(region: set<K>) returns (boxes: seq<set<K>>)
    ensures forall i :: 0 <= i < |boxes| ==> boxes[i] != {} && boxes[i] <= region
    ensures forall i, j :: 0 <= i < j < |boxes| ==> boxes[i] !! boxes[j]
    ensures forall p :: p in region ==> exists i :: 0 <= i < |boxes| && p in boxes[i]
  {
    boxes := [];
    var rest := region;
    while rest != {}
      invariant rest <= region
      invariant forall i :: 0 <= i < |boxes| ==> boxes[i] != {} && boxes[i] <= region && boxes[i] !! rest
      invariant forall i, j :: 0 <= i < j < |boxes| ==> boxes[i] !! boxes[j]
      invariant forall p :: p in region && p !in rest ==> exists i :: 0 <= i < |boxes| && p in boxes[i]
      decreases rest
    {
      var p :| p in rest;
      var box :| box <= rest && p in box;
      ghost var before := boxes;
      boxes := boxes + [box];
      assert forall i :: 0 <= i < |before| ==> boxes[i] == before[i];
      assert boxes[|before|] == box;
      rest := rest - box;
    }
  }

  class RegionMap<K(==, !new), V(==, !new)> {
    const extent: set<K>
    var defaultInitialized: set<K>
    var regionValues: seq<Piece<K, V>>
    ghost const defaultValue: V
    ghost var points: map<K, V>           // the map it stands for
    ghost var updated: set<K>             // the points that have been updated
    ghost var wroteDefault: bool          // some point has been updated with the default value
    ghost var applied: bool               // values have been changed in place

    ghost predicate Valid()
      reads this
    {
      && points.Keys == extent && Represents(regionValues, points) && Apart(regionValues) && Distinct(regionValues)
      && HistoryOk(points, defaultInitialized, updated, defaultValue, wroteDefault, applied)
    }

    constructor (extent: set<K>, defaultValue: V)
      ensures Valid() && this.extent == extent && this.defaultValue == defaultValue && updated == {} && !wroteDefault
      ensures !applied
      ensures forall p :: p in extent ==> points[p] == defaultValue
    {
      this.extent, this.defaultValue := extent, defaultValue;
      updated, wroteDefault, applied := {}, false, false;
      defaultInitialized := extent;
      regionValues := [Piece(extent, defaultValue)];
      points := map p | p in extent :: defaultValue;
      new;
      assert regionValues[0] == Piece(extent, defaultValue);
    }

    /** Merges entries with equal values into the first of them. */
    method CollapseRegions()
      modifies this`regionValues
      ensures SameMeaning(old(regionValues), regionValues) && Distinct(regionValues)
    {
      hide SameMeaning, CollapsedTo, RowTo;
      ghost var entries := regionValues;
      var marked: set<nat> := {};
      NothingCollapsed(regionValues);
      for i := 0 to |regionValues|
        invariant |regionValues| == |entries| && SameMeaning(entries, regionValues)
        invariant CollapsedTo(regionValues, i, marked)
      {
        RowStarts(regionValues, i, marked);
        for j := i + 1 to |regionValues|
          invariant |regionValues| == |entries| && SameMeaning(entries, regionValues)
          invariant CollapsedTo(regionValues, i, marked) && RowTo(regionValues, i, j, marked)
        {
          if regionValues[i].value == regionValues[j].value {
            ghost var was := regionValues;
            MergeKeepsMeaning(regionValues, i, j);
            OneMerge(regionValues, i, j, marked);
            regionValues := regionValues[i := Piece(regionValues[i].box + regionValues[j].box, regionValues[i].value)];
            SameTwice(entries, was, regionValues);
            marked := marked + {j};
          } else {
            RowSkips(regionValues, i, j, marked);
          }
        }
        RowEnds(regionValues, i, marked);
      }
      EraseMarked(entries, marked);
    }

    /** Erases the marked entries, the last one first. */
    method EraseMarked(ghost entries: seq<Piece<K, V>>, marked: set<nat>)
      requires SameMeaning(entries, regionValues) && CollapsedTo(regionValues, |regionValues|, marked)
      modifies this`regionValues
      ensures SameMeaning(entries, regionValues) && Distinct(regionValues)
    {
      hide SameMeaning;
      ghost var merged := regionValues;
      for k := |regionValues| downto 0
        invariant k <= |regionValues| && k <= |merged| && regionValues[..k] == merged[..k]
        invariant SameMeaning(entries, regionValues)
        invariant forall a, b :: 0 <= a < b < |regionValues| && k <= b ==>
                                   regionValues[a].value != regionValues[b].value
      {
        if k in marked {
          StillAbsorbed(merged, regionValues, k, marked);
          EraseKeepsMeaning(regionValues, k);
          SameTwice(entries, regionValues, regionValues[..k] + regionValues[k + 1..]);
          regionValues := regionValues[..k] + regionValues[k + 1..];
        } else {
          assert regionValues[k] == merged[k] by { assert regionValues[..k + 1] == merged[..k + 1]; }
        }
      }
    }

    /** The entries outside the region. */
    method Outside(region: set<K>) returns (rest: seq<Piece<K, V>>)
      ensures Cut(regionValues, |regionValues|, region, rest)
    {
      hide Cut;
      rest := [];
      NothingCut(regionValues, region);
      for i := 0 to |regionValues|
        invariant Cut(regionValues, i, region, rest)
      {
        var box := regionValues[i].box - region;
        OneMoreCut(regionValues, i, region, rest);
        if box != {} {
          rest := rest + [Piece(box, regionValues[i].value)];
        }
      }
    }

    method UpdateRegion(region: set<K>, value: V)
      requires Valid() && region <= extent
      modifies this
      ensures Valid() && points == Updated(old(points), region, value)
      ensures updated == old(updated) + region && applied == old(applied)
      ensures wroteDefault == (old(wroteDefault) || (region != {} && value == defaultValue))
    {
      hide Maps, HistoryOk, Cut, Represents, SameMeaning, Apart, Distinct, Updated;
      UpdateHistory(points, defaultInitialized, updated, defaultValue, wroteDefault, applied, region, value);
      ghost var remaining := defaultInitialized - region;
      if defaultInitialized != {} {
        defaultInitialized := defaultInitialized - region;
      }
      assert defaultInitialized == remaining;
      var newRegionValues := Outside(region);
      UpdateMeaning(regionValues, points, region, value, newRegionValues);
      newRegionValues := newRegionValues + [Piece(region, value)];
      regionValues := newRegionValues;
      points := Updated(points, region, value);
      updated, wroteDefault := updated + region, wroteDefault || (region != {} && value == defaultValue);
      CollapseRegions();
      SameRepresents(newRegionValues, regionValues, points);
      DistinctMeansApart(regionValues, points);
    }

    /** The entry that shares most with what remains of a request. */
    method LargestOverlap(remaining: set<K>) returns (largest: nat)
      requires Valid() && remaining != {} && remaining <= extent
      ensures largest < |regionValues| && |regionValues[largest].box * remaining| > 0
      ensures forall i :: 0 <= i < |regionValues| ==>
                            |regionValues[i].box * remaining| <= |regionValues[largest].box * remaining|
    {
      var overlap := 0;
      largest := 0;
      for i := 0 to |regionValues|
        invariant overlap > 0 ==> largest < i && overlap == |regionValues[largest].box * remaining|
        invariant forall k :: 0 <= k < i ==> |regionValues[k].box * remaining| <= overlap
      {
        var area := |regionValues[i].box * remaining|;
        if area > overlap {
          overlap, largest := area, i;
        }
      }
      ghost var p :| p in remaining;
      assert Maps(regionValues, p, points[p]);
      ghost var k :| 0 <= k < |regionValues| && p in regionValues[k].box;
      assert p in regionValues[k].box * remaining;
      assert |regionValues[k].box * remaining| > 0;
    }

    /** Takes the largest overlap until nothing of the request remains. */
    method GetRegionValues(request: set<K>) returns (pieces: seq<Piece<K, V>>)
      requires Valid() && request <= extent
      ensures Pieces(points, request, pieces)
    {
      hide Pieces, Maps, Represents;
      pieces := [];
      NoPieces(points);
      var remaining := request;
      while |remaining| > 0
        invariant remaining <= request && Pieces(points, request - remaining, pieces)
      {
        var k := LargestOverlap(remaining);
        var r := regionValues[k].box * remaining;
        HasValue(regionValues, points, k);
        SmallerRest(remaining, r);
        pieces := AddBoxes(request - remaining, pieces, r, regionValues[k].value);
        assert request - (remaining - r) == request - remaining + r;
        remaining := remaining - r;
      }
      assert request - remaining == request;
    }

    method AddBoxes(ghost covered: set<K>, pieces: seq<Piece<K, V>>, region: set<K>, value: V)
      returns (pieces': seq<Piece<K, V>>)
      requires Pieces(points, covered, pieces) && region !! covered
      requires forall p :: p in region ==> p in points && points[p] == value
      ensures Pieces(points, covered + region, pieces')
    {
      hide Pieces, BoxesTo;
      var boxes := ScanByBoxes(region);
      pieces' := pieces;
      ghost var done := covered;
      NoBoxes(boxes, covered, region);
      for i := 0 to |boxes|
        invariant Pieces(points, done, pieces') && BoxesTo(boxes, i, covered, region, done)
      {
        NextBox(boxes, i, covered, region, done);
        OneMorePiece(points, done, pieces', boxes[i], value);
        pieces' := pieces' + [Piece(boxes[i], value)];
        done := done + boxes[i];
      }
      AllBoxes(boxes, covered, region, done);
    }

    method ApplyToValues(f: V -> V)
      requires Valid()
      modifies this
      ensures Valid() && points == (map p | p in old(points) :: f(old(points)[p]))
      ensures updated == old(updated) && wroteDefault == old(wroteDefault) && applied
    {
      hide Maps;
      ghost var entries := regionValues;
      for i := 0 to |regionValues|
        invariant |regionValues| == |entries|
        invariant forall k :: 0 <= k < i ==> regionValues[k] == Piece(entries[k].box, f(entries[k].value))
        invariant forall k :: i <= k < |entries| ==> regionValues[k] == entries[k]
        modifies this`regionValues
      {
        regionValues := regionValues[i := Piece(regionValues[i].box, f(regionValues[i].value))];
      }
      ghost var mapped := regionValues;
      AppliedMeaning(entries, mapped, points, f);
      points := map p | p in points :: f(points[p]);
      applied := true;
      CollapseRegions();
      SameRepresents(mapped, regionValues, points);
      DistinctMeansApart(regionValues, points);
    }

    /**
      * Entries of the other map without default-initialized points overwrite this map; other extents are refused. As
      * long as no value of the other map has been changed in place, these are its updated points, other than those that
      * have the default value while some point has not been updated.
      */
    method Merge(other: RegionMap<K, V>) returns (ok: bool)
      requires Valid() && other.Valid() && other != this
      modifies this
      ensures Valid() && (ok <==> extent == other.extent)
      ensures ok ==> points == Merged(old(points), other.points, other.defaultInitialized)
      ensures ok && !other.applied ==>
                forall p :: p in extent ==>
                              points[p] == if p in other.updated
                                  && (other.points[p] != other.defaultValue || other.updated == extent)
                                           then other.points[p] else old(points)[p]
      ensures ok && !other.applied && !other.wroteDefault ==>
                forall p :: p in extent ==> points[p] == if p in other.updated then other.points[p] else old(points)[p]
      ensures !ok ==> points == old(points) && regionValues == old(regionValues) && updated == old(updated)
      ensures old(updated) <= updated && applied == old(applied)
      ensures ok ==> forall p :: p in updated <==> p in old(updated) || Taken(other.points, other.defaultInitialized, p)
    {
      hide HistoryOk;
      ok := extent == other.extent;
      if ok {
        hide Maps, Represents;
        MergedNone(points, other.regionValues, other.defaultInitialized);
        HistoryParts(other.points, other.defaultInitialized, other.updated, other.defaultValue, other.wroteDefault,
                     other.applied);
        for i := 0 to |other.regionValues|
          invariant Valid() && MergedTo(old(points), points, other.regionValues, other.defaultInitialized, i)
          invariant UpdatedTo(old(updated), updated, other.regionValues, other.defaultInitialized, i)
          invariant applied == old(applied)
        {
          var p := other.regionValues[i];
          InsideExtent(other.regionValues, other.points, i);
          ghost var before, wasUpdated := points, updated;
          if other.defaultInitialized * p.box == {} {
            UpdateRegion(p.box, p.value);
          }
          MergedNext(old(points), before, points, other.regionValues, other.defaultInitialized, i);
          UpdatedNext(old(updated), wasUpdated, updated, other.regionValues, other.defaultInitialized, i);
        }
        MergedAll(old(points), points, other.regionValues, other.points, other.defaultInitialized);
        UpdatedAll(old(updated), updated, other.regionValues, other.points, other.defaultInitialized);
        if !other.applied {
          TakenByHistory(other.points, other.defaultInitialized, other.updated, other.defaultValue, other.wroteDefault);
        }
      }
    }
  }

  /** The first `i` boxes and what was covered before make up `done`. */
  ghost predicate BoxesTo<K>(boxes: seq<set<K>>, i: nat, covered: set<K>, region: set<K>, done: set<K>) {
    && covered <= done <= covered + region
    && (forall k :: 0 <= k < i && k < |boxes| ==> boxes[k] <= done)
    && (forall k :: i <= k < |boxes| ==> boxes[k] !! done)
  }

  lemma NoBoxes<K>(boxes: seq<set<K>>, covered: set<K>, region: set<K>)
    requires covered !! region && forall k :: 0 <= k < |boxes| ==> boxes[k] <= region
    ensures BoxesTo(boxes, 0, covered, region, covered)
  {
  }

  lemma NextBox<K>(boxes: seq<set<K>>, i: nat, covered: set<K>, region: set<K>, done: set<K>)
    requires i < |boxes| && BoxesTo(boxes, i, covered, region, done) && boxes[i] <= region
    requires forall k, l :: 0 <= k < l < |boxes| ==> boxes[k] !! boxes[l]
    ensures boxes[i] !! done && BoxesTo(boxes, i + 1, covered, region, done + boxes[i])
  {
    forall k | i + 1 <= k < |boxes|
      ensures boxes[k] !! done + boxes[i]
    {
      assert boxes[i] !! boxes[k] && boxes[k] !! done;
    }
  }

  lemma AllBoxes<K>(boxes: seq<set<K>>, covered: set<K>, region: set<K>, done: set<K>)
    requires BoxesTo(boxes, |boxes|, covered, region, done)
    requires forall p :: p in region ==> exists k :: 0 <= k < |boxes| && p in boxes[k]
    ensures done == covered + region
  {
    forall p | p in region
      ensures p in done
    {
      var k :| 0 <= k < |boxes| && p in boxes[k];
      assert boxes[k] <= done;
    }
  }

  lemma SmallerRest<K>(remaining: set<K>, r: set<K>)
    requires r <= remaining && |r| > 0
    ensures |remaining - r| < |remaining|
  {
    assert remaining == (remaining - r) + r;
  }

  lemma HasValue<K(!new), V(!new)>(entries: seq<Piece<K, V>>, points: map<K, V>, k: nat)
    requires Represents(entries, points) && k < |entries|
    ensures forall p :: p in entries[k].box ==> p in points && points[p] == entries[k].value
  {
    forall p | p in entries[k].box
      ensures p in points && points[p] == entries[k].value
    {
      assert Maps(entries, p, entries[k].value);
    }
  }

  lemma InsideExtent<K(!new), V(!new)>(entries: seq<Piece<K, V>>, points: map<K, V>, k: nat)
    requires Represents(entries, points) && k < |entries|
    ensures entries[k].box <= points.Keys
  {
    HasValue(entries, points, k);
  }

  lemma AppliedMeaning<K(!new), V(!new)>(entries: seq<Piece<K, V>>, mapped: seq<Piece<K, V>>, points: map<K, V>,
                                         f: V -> V)
    requires Represents(entries, points) && |mapped| == |entries|
    requires forall k :: 0 <= k < |entries| ==> mapped[k] == Piece(entries[k].box, f(entries[k].value))
    ensures Represents(mapped, map p | p in points :: f(points[p]))
  {
    forall p, v
      ensures Maps(mapped, p, v) <==> p in points && f(points[p]) == v
    {
      if Maps(mapped, p, v) {
        var k :| 0 <= k < |mapped| && p in mapped[k].box && mapped[k].value == v;
        assert Maps(entries, p, entries[k].value);
      }
      if p in points && f(points[p]) == v {
        assert Maps(entries, p, points[p]);
        var k :| 0 <= k < |entries| && p in entries[k].box && entries[k].value == points[p];
        assert mapped[k].value == v && p in mapped[k].box;
      }
    }
  }

  // --------------------------------------------------------------------- history

  /**
    * Points are default-initialized or updated; values of the former are the default value unless values have been
    * changed in place.
    */
  ghost predicate HistoryOk<K, V>(points: map<K, V>, defaults: set<K>, updated: set<K>, defaultValue: V,
                                  wroteDefault: bool, applied: bool) {
    && defaults !! updated && defaults + updated == points.Keys
    && (!applied ==> forall p :: p in defaults ==> points[p] == defaultValue)
    && (!applied && !wroteDefault ==> forall p :: p in updated ==> points[p] != defaultValue)
  }

  /** The map with the value on every point of the region. */
  ghost function Updated<K, V>(points: map<K, V>, region: set<K>, value: V): map<K, V> {
    points + (map p | p in region :: value)
  }

  lemma UpdateHistory<K, V>(points: map<K, V>, defaults: set<K>, updated: set<K>, defaultValue: V, wroteDefault: bool,
                            applied: bool,
                            region: set<K>, value: V)
    requires HistoryOk(points, defaults, updated, defaultValue, wroteDefault, applied) && region <= points.Keys
    ensures Updated(points, region, value).Keys == points.Keys
    ensures HistoryOk(Updated(points, region, value), defaults - region, updated + region, defaultValue,
                      wroteDefault || (region != {} && value == defaultValue), applied)
  {
    assert (defaults - region) + (updated + region) == points.Keys;
  }

  lemma HistoryParts<K, V>(points: map<K, V>, defaults: set<K>, updated: set<K>, defaultValue: V, wroteDefault: bool,
                           applied: bool)
    requires HistoryOk(points, defaults, updated, defaultValue, wroteDefault, applied)
    ensures defaults <= points.Keys && defaults == points.Keys - updated
  {
  }

  /** What is taken over, said with the history of the other map. */
  lemma TakenByHistory<K(!new), V>(theirs: map<K, V>, defaults: set<K>, updated: set<K>, defaultValue: V,
                                   wroteDefault: bool)
    requires HistoryOk(theirs, defaults, updated, defaultValue, wroteDefault, false)
    ensures forall p :: p in theirs ==>
                          (Taken(theirs, defaults, p) <==>
                           p in updated && (theirs[p] != defaultValue || updated == theirs.Keys))
    ensures !wroteDefault ==> forall p :: p in theirs ==> (Taken(theirs, defaults, p) <==> p in updated)
  {
    forall p | p in theirs
      ensures Taken(theirs, defaults, p) <==> p in updated && (theirs[p] != defaultValue || updated == theirs.Keys)
    {
      if p in updated && theirs[p] == defaultValue && updated != theirs.Keys {
        var q :| q in defaults;
        assert theirs[q] == theirs[p];
      }
    }
  }

  // ----------------------------------------------------------------------- merge

  /** A point has its value from the other map when no default-initialized point of that map has the same value. */
  ghost predicate Taken<K(!new), V>(theirs: map<K, V>, defaults: set<K>, p: K) {
    p in theirs && forall q :: q in defaults && q in theirs ==> theirs[q] != theirs[p]
  }

  ghost function Merged<K(!new), V>(mine: map<K, V>, theirs: map<K, V>, defaults: set<K>): map<K, V> {
    map p | p in mine :: if Taken(theirs, defaults, p) then theirs[p] else mine[p]
  }

  ghost predicate EntryTaken<K, V>(entries: seq<Piece<K, V>>, defaults: set<K>, i: nat)
    requires i < |entries|
  {
    defaults * entries[i].box == {}
  }

  /** The first `i` entries have been merged. */
  ghost predicate MergedTo<K(!new), V>(mine: map<K, V>, points: map<K, V>, entries: seq<Piece<K, V>>, defaults: set<K>,
                                       i: nat)
    requires i <= |entries|
  {
    && points.Keys == mine.Keys
    && (forall k, p :: 0 <= k < i && p in entries[k].box && EntryTaken(entries, defaults, k) && p in points ==>
                         points[p] == entries[k].value)
    && (forall p :: && p in mine
                    && (forall k :: 0 <= k < i && EntryTaken(entries, defaults, k) ==> p !in entries[k].box) ==>
                      points[p] == mine[p])
  }

  lemma MergedNone<K(!new), V>(mine: map<K, V>, entries: seq<Piece<K, V>>, defaults: set<K>)
    ensures MergedTo(mine, mine, entries, defaults, 0)
  {
  }

  lemma MergedNext<K(!new), V>(mine: map<K, V>, before: map<K, V>, after: map<K, V>, entries: seq<Piece<K, V>>,
                               defaults: set<K>, i: nat)
    requires i < |entries| && MergedTo(mine, before, entries, defaults, i) && Apart(entries)
    requires entries[i].box <= mine.Keys
    requires after == if EntryTaken(entries, defaults, i) then Updated(before, entries[i].box, entries[i].value)
               else before
    ensures MergedTo(mine, after, entries, defaults, i + 1)
  {
    hide EntryTaken;
  }

  lemma MergedAll<K(!new), V(!new)>(mine: map<K, V>, points: map<K, V>, entries: seq<Piece<K, V>>, theirs: map<K, V>,
                                    defaults: set<K>)
    requires MergedTo(mine, points, entries, defaults, |entries|) && Represents(entries, theirs) && Distinct(entries)
    requires mine.Keys == theirs.Keys && defaults <= theirs.Keys
    ensures points == Merged(mine, theirs, defaults)
  {
    forall p | p in mine
      ensures points[p] == if Taken(theirs, defaults, p) then theirs[p] else mine[p]
    {
      assert Maps(entries, p, theirs[p]);
      var k :| 0 <= k < |entries| && p in entries[k].box && entries[k].value == theirs[p];
      TakenIff(entries, theirs, defaults, k, p);
      if !EntryTaken(entries, defaults, k) {
        forall l | 0 <= l < |entries| && EntryTaken(entries, defaults, l)
          ensures p !in entries[l].box
        {
          if p in entries[l].box { assert Maps(entries, p, entries[l].value); }
        }
      }
    }
  }

  /** The points that the first `i` entries have updated. */
  ghost predicate UpdatedTo<K(!new), V>(before: set<K>, updated: set<K>, entries: seq<Piece<K, V>>, defaults: set<K>,
                                        i: nat)
    requires i <= |entries|
  {
    forall p :: p in updated <==>
                  p in before || exists k :: 0 <= k < i && EntryTaken(entries, defaults, k) && p in entries[k].box
  }

  lemma UpdatedNext<K(!new), V>(before: set<K>, updated: set<K>, updated': set<K>, entries: seq<Piece<K, V>>,
                                defaults: set<K>, i: nat)
    requires i < |entries| && UpdatedTo(before, updated, entries, defaults, i)
    requires updated' == if EntryTaken(entries, defaults, i) then updated + entries[i].box else updated
    ensures UpdatedTo(before, updated', entries, defaults, i + 1)
  {
    hide EntryTaken;
  }

  lemma UpdatedAll<K(!new), V(!new)>(before: set<K>, updated: set<K>, entries: seq<Piece<K, V>>, theirs: map<K, V>,
                                     defaults: set<K>)
    requires UpdatedTo(before, updated, entries, defaults, |entries|) && Represents(entries, theirs)
    requires Distinct(entries)
    requires defaults <= theirs.Keys
    ensures forall p :: p in updated <==> p in before || Taken(theirs, defaults, p)
  {
    forall p
      ensures p in updated <==> p in before || Taken(theirs, defaults, p)
    {
      if p in theirs {
        assert Maps(entries, p, theirs[p]);
        var k :| 0 <= k < |entries| && p in entries[k].box && entries[k].value == theirs[p];
        TakenIff(entries, theirs, defaults, k, p);
        forall l | 0 <= l < |entries| && p in entries[l].box
          ensures l == k
        {
          assert Maps(entries, p, entries[l].value);
        }
      } else {
        forall l | 0 <= l < |entries|
          ensures p !in entries[l].box
        {
          InsideExtent(entries, theirs, l);
        }
      }
    }
  }

  lemma TakenIff<K(!new), V(!new)>(entries: seq<Piece<K, V>>, theirs: map<K, V>, defaults: set<K>, k: nat, p: K)
    requires Represents(entries, theirs) && Distinct(entries) && defaults <= theirs.Keys
    requires k < |entries| && p in entries[k].box && p in theirs && entries[k].value == theirs[p]
    ensures Taken(theirs, defaults, p) <==> EntryTaken(entries, defaults, k)
  {
    HasValue(entries, theirs, k);
    if q :| q in defaults && theirs[q] == theirs[p] {
      assert Maps(entries, q, theirs[q]);
      var l :| 0 <= l < |entries| && q in entries[l].box && entries[l].value == theirs[q];
      assert l == k;
      assert q in defaults * entries[k].box;
    }
    if q :| q in defaults * entries[k].box { assert theirs[q] == theirs[p]; }
  }

  ghost predicate Precedence<K(!new), V>(mine: map<K, V>, theirs: map<K, V>, defaults: set<K>, updated: set<K>)
    requires mine.Keys == theirs.Keys == defaults + updated
  {
    forall p :: p in updated ==> Merged(mine, theirs, defaults)[p] == theirs[p]
  }

  /**
    * Updated points of the other map take precedence exactly when every updated point that has the value of some
    * default-initialized point of that map already has this value here. As long as no value has been changed in place,
    * that is: when every point has been updated, or those updated with the default value already have it here; and in
    * particular when no update wrote the default value.
    */
  lemma UpdatesTakePrecedence<K(!new), V>(mine: map<K, V>, theirs: map<K, V>, defaults: set<K>, updated: set<K>,
                                          defaultValue: V, wroteDefault: bool, applied: bool)
    requires HistoryOk(theirs, defaults, updated, defaultValue, wroteDefault, applied) && mine.Keys == theirs.Keys
    ensures Precedence(mine, theirs, defaults, updated)
       <==> (forall p, q :: p in updated && q in defaults && theirs[q] == theirs[p] ==> mine[p] == theirs[p])
    ensures !applied && defaults != {} ==>
              (Precedence(mine, theirs, defaults, updated) <==>
               forall p :: p in updated && theirs[p] == defaultValue ==> mine[p] == defaultValue)
    ensures defaults == {} ==> Precedence(mine, theirs, defaults, updated)
    ensures !applied && !wroteDefault ==> Precedence(mine, theirs, defaults, updated)
    ensures forall p :: p in defaults ==> Merged(mine, theirs, defaults)[p] == mine[p]
  {
    var m := Merged(mine, theirs, defaults);
    forall p, q | p in updated && q in defaults && theirs[q] == theirs[p]
      ensures m[p] == mine[p]
    {
      assert !Taken(theirs, defaults, p);
    }
    forall p | p in updated && forall q :: q in defaults ==> theirs[q] != theirs[p]
      ensures m[p] == theirs[p]
    {
      assert Taken(theirs, defaults, p);
    }
    forall p | p in defaults
      ensures m[p] == mine[p]
    {
      assert !Taken(theirs, defaults, p);
    }
    if !applied && defaults != {} {
      var q :| q in defaults;
      assert theirs[q] == defaultValue;
    }
  }

  /** A point updated with the default value of the other map is not taken over. */
  method UpdateLost() returns (mine: RegionMap<int, int>, theirs: RegionMap<int, int>)
    ensures mine.Valid() && theirs.Valid() && mine.extent == theirs.extent == {0, 1}
    ensures theirs.updated == {0} && theirs.points[0] == 7 && mine.points[0] == 5
  {
    mine := new RegionMap({0, 1}, 5);
    theirs := new RegionMap({0, 1}, 7);
    theirs.UpdateRegion({0}, 7);
    assert 1 in theirs.extent && 1 !in theirs.updated;
    var ok := mine.Merge(theirs);
  }

  /** The rest of the first `i` entries outside the region. */
  ghost predicate Cut<K(!new), V(!new)>(entries: seq<Piece<K, V>>, i: nat, region: set<K>, rest: seq<Piece<K, V>>)
    requires i <= |entries|
  {
    forall p, v :: Maps(rest, p, v) <==> Maps(entries[..i], p, v) && p !in region
  }

  lemma NothingCut<K(!new), V(!new)>(entries: seq<Piece<K, V>>, region: set<K>)
    ensures Cut(entries, 0, region, [])
  {
    var none: seq<Piece<K, V>> := [];
    assert entries[..0] == none;
  }

  /** One more entry at the end. */
  lemma MapsMore<K(!new), V(!new)>(entries: seq<Piece<K, V>>, e: Piece<K, V>)
    ensures forall p, v :: Maps(entries + [e], p, v) <==> Maps(entries, p, v) || (p in e.box && e.value == v)
  {
    forall p, v
      ensures Maps(entries + [e], p, v) <==> Maps(entries, p, v) || (p in e.box && e.value == v)
    {
      var all := entries + [e];
      if k :| 0 <= k < |entries| && p in entries[k].box && entries[k].value == v { assert all[k] == entries[k]; }
      if p in e.box && e.value == v { assert all[|entries|] == e; }
    }
  }

  lemma OneMoreCut<K(!new), V(!new)>(entries: seq<Piece<K, V>>, i: nat, region: set<K>, rest: seq<Piece<K, V>>)
    requires i < |entries| && Cut(entries, i, region, rest)
    ensures var box := entries[i].box - region;
            Cut(entries, i + 1, region, if box != {} then rest + [Piece(box, entries[i].value)] else rest)
  {
    hide Maps;
    var box := entries[i].box - region;
    assert entries[..i + 1] == entries[..i] + [entries[i]];
    MapsMore(entries[..i], entries[i]);
    MapsMore(rest, Piece(box, entries[i].value));
  }

  lemma UpdateMeaning<K(!new), V(!new)>(entries: seq<Piece<K, V>>, points: map<K, V>, region: set<K>, value: V,
                                        rest: seq<Piece<K, V>>)
    requires Represents(entries, points) && Cut(entries, |entries|, region, rest)
    ensures Represents(rest + [Piece(region, value)], Updated(points, region, value))
  {
    hide Maps;
    assert entries[..|entries|] == entries;
    MapsMore(rest, Piece(region, value));
  }

  lemma SameRepresents<K(!new), V(!new)>(entries: seq<Piece<K, V>>, entries': seq<Piece<K, V>>, points: map<K, V>)
    requires Represents(entries, points) && SameMeaning(entries, entries')
    ensures Represents(entries', points)
  {
    hide Maps;
  }
}
