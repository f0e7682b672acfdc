/**
 * Live maps as the plugin sees them: each `LeafletMap` has a path, a list of
 * live markers and the marker icons it draws with. The functions here are the
 * snapshot `saveSettings` builds with `.map`, and the filters the plugin
 * applies to its map list and to a map's markers.
 */
module LiveMaps {
  import opened Wrappers
  import opened LeafletTypes
  import opened Settings
  import Embed

  /** A live marker (`LeafletMarker`); its link and icon are edited in place by the context modal. */
  class LiveMarker {
    const id: string
    var loc: LatLng
    var link: Option<string>
    var marker: MarkerIcon

    constructor(marker: MarkerIcon, loc: LatLng, id: string, link: Option<string>)
      ensures this.marker == marker && this.loc == loc && this.id == id && this.link == link
    {
      this.marker := marker;
      this.loc := loc;
      this.id := id;
      this.link := link;
    }
  }

  /** A live map (`LeafletMap`). */
  class LiveMap {
    const path: string
    const image: string
    const height: string
    var markers: seq<LiveMarker>
    var markerIcons: seq<MarkerIcon>

    /** `new LeafletMap(el, image, height, sourcePath, markerIcons)`: an empty map keyed by source path and image. */
    constructor(image: string, height: string, sourcePath: string, icons: seq<MarkerIcon>)
      ensures path == Embed.MapKey(sourcePath, image) && this.image == image && this.height == height
      ensures markers == [] && markerIcons == icons
    {
      this.image := image;
      this.height := height;
      this.path := Embed.MapKey(sourcePath, image);
      markers := [];
      markerIcons := icons;
    }

    /**
     * `loadData(markers)`: one new live marker per stored record, in order,
     * with the record's type, location, id and link; its markup is the map's
     * icon of that type.
     */
    method LoadData(data: seq<MarkerData>)
      modifies this`markers
      ensures |markers| == old(|markers|) + |data|
      ensures markers[..old(|markers|)] == old(markers)
      ensures forall i :: old(|markers|) <= i < |markers| ==> fresh(markers[i])
      ensures MarkerSnapshot(markers) == old(MarkerSnapshot(markers)) + data
    {
      var i := 0;
      ghost var before := MarkerSnapshot(markers);
      while i < |data|
        invariant 0 <= i <= |data|
        invariant |markers| == old(|markers|) + i
        invariant markers[..old(|markers|)] == old(markers)
        invariant forall j :: old(|markers|) <= j < |markers| ==> fresh(markers[j])
        invariant MarkerSnapshot(markers) == before + data[..i]
      {
        var rec := data[i];
        var m := new LiveMarker(MarkerIcon(rec.markerType, HtmlFor(markerIcons, rec.markerType)),
                                LatLng(rec.loc.0, rec.loc.1), rec.id, rec.link);
        SnapshotAppend(markers, m);
        markers := markers + [m];
        assert data[..i + 1] == data[..i] + [rec];
        i := i + 1;
      }
      assert data[..i] == data;
    }

    /** `setMarkerIcons(icons)`. */
    method SetMarkerIcons(icons: seq<MarkerIcon>)
      modifies this`markerIcons
      ensures markerIcons == icons
    {
      markerIcons := icons;
    }
  }

  /** An icon of type `t` whose markup was resolved. */
  predicate ResolvedOfType(icon: MarkerIcon, t: string) {
    icon.markerType == t && !icon.html.Unresolved?
  }

  /**
   * The markup of the first icon of type `t` whose markup is resolved, or
   * `Unresolved(t)` when there is none.
   */
  function HtmlFor(icons: seq<MarkerIcon>, t: string): (g: Glyph)
    ensures g.Unresolved? ==> g == Unresolved(t)
    ensures g.Unresolved? <==> forall i :: 0 <= i < |icons| ==> !ResolvedOfType(icons[i], t)
    ensures !g.Unresolved? ==>
      exists i :: 0 <= i < |icons| && icons[i] == MarkerIcon(t, g) &&
        forall j :: 0 <= j < i ==> !ResolvedOfType(icons[j], t)
  {
    if |icons| == 0 then Unresolved(t)
    else if ResolvedOfType(icons[0], t) then icons[0].html
    else
      var g := HtmlFor(icons[1..], t);
      assert forall i :: 1 <= i < |icons| ==> icons[i] == icons[1..][i - 1];
      assert !g.Unresolved? ==>
        exists i :: 0 <= i < |icons| && icons[i] == MarkerIcon(t, g) &&
          forall j :: 0 <= j < i ==> !ResolvedOfType(icons[j], t) by {
        if !g.Unresolved? {
          var i :| 0 <= i < |icons[1..]| && icons[1..][i] == MarkerIcon(t, g) &&
            forall j :: 0 <= j < i ==> !ResolvedOfType(icons[1..][j], t);
          assert icons[i + 1] == MarkerIcon(t, g);
        }
      }
      g
  }

  /** The stored form of one live marker: `{ type, id, loc: [lat, lng], link }`. */
  function MarkerRecord(m: LiveMarker): (d: MarkerData)
    reads m
    ensures d.markerType == m.marker.markerType && d.id == m.id
    ensures d.loc == (m.loc.lat, m.loc.lng) && d.link == m.link
  {
    MarkerData(m.marker.markerType, (m.loc.lat, m.loc.lng), m.id, m.link)
  }

  /** `map.markers.map(...)`: one record per live marker, in order. */
  function MarkerSnapshot(ms: seq<LiveMarker>): (r: seq<MarkerData>)
    reads ms
    ensures |r| == |ms|
    ensures forall i :: 0 <= i < |ms| ==>
      r[i].markerType == ms[i].marker.markerType && r[i].id == ms[i].id &&
      r[i].loc == (ms[i].loc.lat, ms[i].loc.lng) && r[i].link == ms[i].link
  {
    seq(|ms|, i reads ms requires 0 <= i < |ms| => MarkerRecord(ms[i]))
  }

  lemma SnapshotAppend(ms: seq<LiveMarker>, m: LiveMarker)
    ensures MarkerSnapshot(ms + [m]) == MarkerSnapshot(ms) + [MarkerRecord(m)]
  {
  }

  /** Every live marker of the given maps. */
  function Footprint(maps: seq<LiveMap>): set<LiveMarker>
    reads maps
  {
    set m, k | m in maps && k in m.markers :: k
  }

  /**
   * `this.maps.map(...)` in `saveSettings`: one record per live map, in the
   * order of `maps`, with the map's path and its markers' records.
   */
  function MapSnapshot(maps: seq<LiveMap>): (r: seq<MapMarkerData>)
    reads maps, Footprint(maps)
    ensures |r| == |maps|
    ensures forall i :: 0 <= i < |maps| ==>
      r[i].path == maps[i].path && r[i].markers == MarkerSnapshot(maps[i].markers)
  {
    if maps == [] then []
    else
      assert forall k | k in maps[0].markers :: k in Footprint(maps);
      [MapMarkerData(maps[0].path, MarkerSnapshot(maps[0].markers))] + MapSnapshot(maps[1..])
  }

  /** `recs` is the snapshot of `maps`: one record per map, in order, with its path and its markers' records. */
  predicate IsSnapshot(recs: seq<MapMarkerData>, maps: seq<LiveMap>)
    reads maps, Footprint(maps)
  {
    && |recs| == |maps|
    && forall i :: 0 <= i < |maps| ==>
      assert forall k | k in maps[i].markers :: k in Footprint(maps);
      recs[i] == MapMarkerData(maps[i].path, MarkerSnapshot(maps[i].markers))
  }

  /** No two live maps share a path. */
  predicate PathsUnique(maps: seq<LiveMap>) {
    forall i, j :: 0 <= i < j < |maps| ==> maps[i].path != maps[j].path
  }

  /** The maps whose path is `p`, in order. */
  function WithPath(maps: seq<LiveMap>, p: string): (r: seq<LiveMap>)
    ensures forall i :: 0 <= i < |r| ==> r[i] in maps && r[i].path == p
    ensures forall i :: 0 <= i < |maps| && maps[i].path == p ==> maps[i] in r
  {
    if maps == [] then []
    else (if maps[0].path == p then [maps[0]] else []) + WithPath(maps[1..], p)
  }

  /** `maps.filter(map => map.path != p)`: the maps of other paths, in order. */
  function WithoutPath(maps: seq<LiveMap>, p: string): (r: seq<LiveMap>)
    ensures |r| <= |maps|
    ensures forall i :: 0 <= i < |r| ==> r[i] in maps && r[i].path != p
    ensures forall i :: 0 <= i < |maps| && maps[i].path != p ==> maps[i] in r
  {
    if maps == [] then []
    else (if maps[0].path != p then [maps[0]] else []) + WithoutPath(maps[1..], p)
  }

  lemma {:induction false} WithPathAppend(a: seq<LiveMap>, b: seq<LiveMap>, p: string)
    ensures WithPath(a + b, p) == WithPath(a, p) + WithPath(b, p)
  {
    if a == [] {
      assert a + b == b;
    } else {
      var ab := a + b;
      assert ab[0] == a[0] && ab[1..] == a[1..] + b;
      WithPathAppend(a[1..], b, p);
      var head := if a[0].path == p then [a[0]] else [];
      calc {
        WithPath(ab, p);
        head + WithPath(ab[1..], p);
        head + (WithPath(a[1..], p) + WithPath(b, p));
        (head + WithPath(a[1..], p)) + WithPath(b, p);
      }
    }
  }

  lemma {:induction false} WithoutPathAppend(a: seq<LiveMap>, b: seq<LiveMap>, p: string)
    ensures WithoutPath(a + b, p) == WithoutPath(a, p) + WithoutPath(b, p)
  {
    if a == [] {
      assert a + b == b;
    } else {
      var ab := a + b;
      assert ab[0] == a[0] && ab[1..] == a[1..] + b;
      WithoutPathAppend(a[1..], b, p);
      var head := if a[0].path != p then [a[0]] else [];
      calc {
        WithoutPath(ab, p);
        head + WithoutPath(ab[1..], p);
        head + (WithoutPath(a[1..], p) + WithoutPath(b, p));
        (head + WithoutPath(a[1..], p)) + WithoutPath(b, p);
      }
    }
  }

  lemma {:induction false} WithoutPathUnique(maps: seq<LiveMap>, p: string)
    requires PathsUnique(maps)
    ensures PathsUnique(WithoutPath(maps, p))
  {
    if maps != [] {
      WithoutPathUnique(maps[1..], p);
      var rest := WithoutPath(maps[1..], p);
      forall k | 0 <= k < |rest| ensures rest[k].path != maps[0].path {
        var j :| 0 <= j < |maps[1..]| && maps[1..][j] == rest[k];
        assert maps[j + 1] == rest[k];
      }
    }
  }

  /**
   * Last-registered-wins: after filtering out the maps of `m`'s path and
   * pushing `m`, `m` is the last map and the only one with its path, the
   * maps of other paths are the old ones in their old order, and paths stay
   * unique.
   */
  lemma Register(maps: seq<LiveMap>, m: LiveMap)
    ensures var r := WithoutPath(maps, m.path) + [m];
      && r[|r| - 1] == m
      && WithPath(r, m.path) == [m]
      && WithoutPath(r, m.path) == WithoutPath(maps, m.path)
      && forall p :: p != m.path ==> WithPath(r, p) == WithPath(maps, p)
    ensures PathsUnique(maps) ==> PathsUnique(WithoutPath(maps, m.path) + [m])
  {
    var kept := WithoutPath(maps, m.path);
    var r := kept + [m];
    WithPathAppend(kept, [m], m.path);
    WithoutPathAppend(kept, [m], m.path);
    NoneWithPath(kept, m.path);
    WithoutPathTwice(maps, m.path);
    forall p | p != m.path ensures WithPath(r, p) == WithPath(maps, p) {
      WithPathAppend(kept, [m], p);
      WithPathOfFiltered(maps, m.path, p);
    }
    if PathsUnique(maps) {
      WithoutPathUnique(maps, m.path);
    }
  }

  lemma {:induction false} WithoutPathTwice(maps: seq<LiveMap>, p: string)
    ensures WithoutPath(WithoutPath(maps, p), p) == WithoutPath(maps, p)
  {
    if maps != [] {
      WithoutPathTwice(maps[1..], p);
      var head := if maps[0].path != p then [maps[0]] else [];
      WithoutPathAppend(head, WithoutPath(maps[1..], p), p);
    }
  }

  lemma {:induction false} NoneWithPath(maps: seq<LiveMap>, p: string)
    requires forall i :: 0 <= i < |maps| ==> maps[i].path != p
    ensures WithPath(maps, p) == []
  {
    if maps != [] {
      NoneWithPath(maps[1..], p);
    }
  }

  lemma {:induction false} WithPathOfFiltered(maps: seq<LiveMap>, q: string, p: string)
    requires p != q
    ensures WithPath(WithoutPath(maps, q), p) == WithPath(maps, p)
  {
    if maps != [] {
      WithPathOfFiltered(maps[1..], q, p);
      var head := if maps[0].path != q then [maps[0]] else [];
      WithPathAppend(head, WithoutPath(maps[1..], q), p);
      WithPathAppend([maps[0]], maps[1..], p);
      assert maps == [maps[0]] + maps[1..];
    }
  }

  /** `IsSnapshot` holds of exactly one record list: the one `saveSettings` computes. */
  lemma IsSnapshotExactly(recs: seq<MapMarkerData>, maps: seq<LiveMap>)
    ensures IsSnapshot(recs, maps) <==> recs == MapSnapshot(maps)
  {
  }

  /**
   * Loading the snapshot back: with unique paths, the record found for a
   * live map's path in a snapshot holds exactly that map's markers.
   */
  lemma SnapshotLookup(recs: seq<MapMarkerData>, maps: seq<LiveMap>, i: nat)
    requires PathsUnique(maps) && IsSnapshot(recs, maps) && i < |maps|
    ensures FindRecord(recs, maps[i].path) ==
      Some(MapMarkerData(maps[i].path, MarkerSnapshot(maps[i].markers)))
  {
  }

  /** `markers.filter(m => m.id != id)`. */
  function WithoutId(ms: seq<LiveMarker>, id: string): (r: seq<LiveMarker>)
    ensures |r| <= |ms|
    ensures forall i :: 0 <= i < |r| ==> r[i] in ms && r[i].id != id
    ensures forall i :: 0 <= i < |ms| && ms[i].id != id ==> ms[i] in r
    ensures (forall i :: 0 <= i < |ms| ==> ms[i].id != id) ==> r == ms
  {
    if ms == [] then []
    else (if ms[0].id != id then [ms[0]] else []) + WithoutId(ms[1..], id)
  }

  /** Filtering by id keeps the relative order: it distributes over concatenation. */
  lemma {:induction false} WithoutIdAppend(a: seq<LiveMarker>, b: seq<LiveMarker>, id: string)
    ensures WithoutId(a + b, id) == WithoutId(a, id) + WithoutId(b, id)
  {
    if a == [] {
      assert a + b == b;
    } else {
      var ab := a + b;
      assert ab[0] == a[0] && ab[1..] == a[1..] + b;
      WithoutIdAppend(a[1..], b, id);
      var head := if a[0].id != id then [a[0]] else [];
      calc {
        WithoutId(ab, id);
        head + WithoutId(ab[1..], id);
        head + (WithoutId(a[1..], id) + WithoutId(b, id));
        (head + WithoutId(a[1..], id)) + WithoutId(b, id);
      }
    }
  }
}
