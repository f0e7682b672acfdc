/**
 * The plugin object of src/main.ts (`ObsidianLeaflet`): its settings, the
 * live map registry and the handlers that change them. Each call of
 * `saveData` is recorded as the blob it writes, in `written`.
 */
module Plugin {
  import opened Wrappers
  import opened LeafletTypes
  import opened Settings
  import opened Embed
  import opened LiveMaps

  class ObsidianLeaflet {
    /** `this.AppData`. */
    var data: AppData
    /** `this.markerIcons`: the markup generated from the catalogue. */
    var markerIcons: seq<MarkerIcon>
    /** `this.maps`: the live maps, in registration order. */
    var maps: seq<LiveMap>
    /** The blobs handed to `saveData`, oldest first. */
    var written: seq<AppData>

    /**
     * What every save re-establishes: the catalogue is filled with the default
     * marker's transform and icon name, `markerIcons` is its markup, and every
     * live map draws with that markup.
     */
    ghost predicate MarkupCurrent()
      reads this, maps
    {
      && data.markerIcons == FillAll(data.markerIcons, data.defaultMarker)
      && markerIcons == MarkerMarkup(data.markerIcons, data.defaultMarker)
      && forall i :: 0 <= i < |maps| ==> maps[i].markerIcons == markerIcons
    }

    /** Registration keeps at most one live map per path, and the markup is current. */
    ghost predicate Valid()
      reads this, maps
    {
      PathsUnique(maps) && MarkupCurrent()
    }

    /** The data after a save: new records, the catalogue filled, every other field kept. */
    ghost predicate SavedFrom(before: AppData)
      reads this
    {
      data == before.(mapMarkers := data.mapMarkers,
                      markerIcons := FillAll(before.markerIcons, before.defaultMarker))
    }

    /** `onload`: `loadSettings`, then `this.markerIcons = this.generateMarkerMarkup(...)`. */
    constructor Onload(defaults: AppData, stored: Option<StoredData>)
      ensures Valid() && maps == [] && written == []
      ensures var loaded := MergeSettings(defaults, stored);
        data == loaded.(markerIcons := FillAll(loaded.markerIcons, loaded.defaultMarker))
      ensures markerIcons == MarkerMarkup(data.markerIcons, data.defaultMarker)
    {
      data := defaults;
      markerIcons := [];
      maps := [];
      written := [];
      new;
      LoadSettings(defaults, stored);
      markerIcons := GenerateMarkerMarkup();
      FillAllIdempotent(MergeSettings(defaults, stored).markerIcons, data.defaultMarker);
    }

    /** `loadSettings`: the defaults overridden by the stored blob's keys. */
    method LoadSettings(defaults: AppData, stored: Option<StoredData>)
      modifies this`data
      ensures data == MergeSettings(defaults, stored)
    {
      data := MergeSettings(defaults, stored);
    }

    /**
     * `generateMarkerMarkup(this.AppData.markerIcons)`: fills each catalogue
     * entry's missing transform and icon name from the default marker, in
     * place, and returns the markup list.
     */
    method GenerateMarkerMarkup() returns (ret: seq<MarkerIcon>)
      modifies this`data
      ensures data == old(data).(markerIcons := FillAll(old(data.markerIcons), old(data.defaultMarker)))
      ensures ret == MarkerMarkup(data.markerIcons, data.defaultMarker)
    {
      var d := data.defaultMarker;
      ret := [];
      var i := 0;
      while i < |data.markerIcons|
        invariant 0 <= i <= |data.markerIcons| == |old(data.markerIcons)|
        invariant data == old(data).(markerIcons := data.markerIcons)
        invariant forall j :: 0 <= j < i ==> data.markerIcons[j] == FillDefaults(old(data.markerIcons)[j], d)
        invariant forall j :: i <= j < |data.markerIcons| ==> data.markerIcons[j] == old(data.markerIcons)[j]
        invariant |ret| == i
        invariant forall j :: 0 <= j < i ==> ret[j] == IconMarkup(data.markerIcons[j], d)
      {
        var filled := FillDefaults(data.markerIcons[i], d);
        data := data.(markerIcons := data.markerIcons[i := filled]);
        ret := ret + [IconMarkup(filled, d)];
        i := i + 1;
      }
      assert data.markerIcons == FillAll(old(data.markerIcons), d);
      if d.iconName != "" {
        ret := [DefaultIcon(d)] + ret;
      }
      var expected := MarkerMarkup(data.markerIcons, d);
      assert |ret| == |expected|;
      assert forall j :: 0 <= j < |ret| ==> ret[j] == expected[j] by {
        var off := if d.iconName != "" then 1 else 0;
        forall j | 0 <= j < |ret| ensures ret[j] == expected[j] {
          if j >= off {
            assert expected[(j - off) + off] == IconMarkup(data.markerIcons[j - off], d);
          }
        }
      }
    }

    /**
     * `saveSettings`: replaces the stored records by a snapshot of the live
     * maps (records of maps that are not live are dropped), writes the data,
     * regenerates the markup and hands it to every live map.
     */
    method SaveSettings()
      modifies this, maps
      ensures maps == old(maps)
      ensures forall i :: 0 <= i < |maps| ==> maps[i].markers == old(maps[i].markers)
      ensures IsSnapshot(data.mapMarkers, maps)
      ensures written == old(written) + [old(data).(mapMarkers := data.mapMarkers)]
      ensures data == old(data).(mapMarkers := data.mapMarkers,
                                 markerIcons := FillAll(old(data.markerIcons), old(data.defaultMarker)))
      ensures markerIcons == MarkerMarkup(data.markerIcons, data.defaultMarker)
      ensures forall i :: 0 <= i < |maps| ==> maps[i].markerIcons == markerIcons
      ensures MarkupCurrent() && SavedFrom(old(data))
    {
      var snapshot := MapSnapshot(maps);
      data := data.(mapMarkers := snapshot);
      written := written + [data];
      markerIcons := GenerateMarkerMarkup();
      SetAllMarkerIcons(maps, markerIcons);
      FillAllIdempotent(old(data.markerIcons), old(data.defaultMarker));
    }

    /**
     * The first half of the vault `delete` handler: drops the first stored
     * record whose path contains the deleted file's path.
     */
    method PruneDeleted(filePath: string) returns (pruned: bool)
      modifies this`data
      ensures pruned <==> FirstContaining(old(data.mapMarkers), filePath).Some?
      ensures data == old(data).(mapMarkers := PruneFirst(old(data.mapMarkers), filePath))
    {
      pruned := FirstContaining(data.mapMarkers, filePath).Some?;
      if pruned {
        data := data.(mapMarkers := PruneFirst(data.mapMarkers, filePath));
      }
    }

    /**
     * The vault `delete` handler: when some stored path contains the deleted
     * file's path, prune the first such record and save; otherwise do nothing.
     */
    method OnVaultDelete(filePath: string) returns (saved: bool)
      modifies this, maps
      ensures saved <==> FirstContaining(old(data.mapMarkers), filePath).Some?
      ensures !saved ==> unchanged(this) && unchanged(maps)
      ensures saved ==> maps == old(maps) && IsSnapshot(data.mapMarkers, maps)
      ensures forall i :: 0 <= i < |maps| ==> maps[i].markers == old(maps[i].markers)
      ensures saved ==> written == old(written) + [old(data).(mapMarkers := data.mapMarkers)]
      ensures saved ==> MarkupCurrent() && SavedFrom(old(data))
      ensures old(Valid()) ==> Valid()
    {
      saved := PruneDeleted(filePath);
      if saved {
        SaveSettings();
      }
    }

    /** `this.maps.find(...)` / `filter(...)` / `push(map)`: last registered wins. */
    method Register(m: LiveMap)
      modifies this`maps
      ensures maps == WithoutPath(old(maps), m.path) + [m]
      ensures old(PathsUnique(maps)) ==> PathsUnique(maps)
      ensures old(Valid()) && m.markerIcons == markerIcons ==> Valid()
    {
      if WithPath(maps, m.path) != [] {
        maps := WithoutPath(maps, m.path);
      } else {
        NoneFiltered(maps, m.path);
      }
      LiveMaps.Register(old(maps), m);
      maps := maps + [m];
    }

    /**
     * `postprocessor`: parse the block; without an image, stop before any map
     * exists. Otherwise build the map, load the markers stored under its path,
     * register it and save.
     */
    method PostProcess(source: string, sourcePath: string) returns (r: Result<LiveMap, EmbedError>)
      requires Valid()
      modifies this, maps
      ensures Valid()
      ensures r.Err? <==> ParseEmbed(source).Err?
      ensures r.Err? ==> r.error == ParseEmbed(source).error && unchanged(this) && unchanged(maps)
      ensures r.Ok? ==>
        var m := r.value;
        && fresh(m)
        && m.path == MapKey(sourcePath, ParseEmbed(source).value.image)
        && m.image == ParseEmbed(source).value.image
        && m.height == ParseEmbed(source).value.height
        && maps == WithoutPath(old(maps), m.path) + [m]
        && (forall mp :: mp in old(maps) ==> mp.markers == old(mp.markers))
        && MarkerSnapshot(m.markers) == StoredMarkers(old(data.mapMarkers), m.path)
        && IsSnapshot(data.mapMarkers, maps)
        && written == old(written) + [old(data).(mapMarkers := data.mapMarkers)]
        && SavedFrom(old(data))
    {
      var parsed := ParseEmbed(source);
      if parsed.Err? {
        return Err(parsed.error);
      }
      var m := ShowMap(parsed.value, sourcePath);
      r := Ok(m);
    }

    /** The part of `postprocessor` after the image check: build, load, register, save. */
    method ShowMap(cfg: EmbedConfig, sourcePath: string) returns (m: LiveMap)
      requires Valid()
      modifies this, maps
      ensures Valid()
      ensures fresh(m) && m.path == MapKey(sourcePath, cfg.image) && m.image == cfg.image && m.height == cfg.height
      ensures maps == WithoutPath(old(maps), m.path) + [m]
      ensures forall mp :: mp in old(maps) ==> mp.markers == old(mp.markers)
      ensures MarkerSnapshot(m.markers) == StoredMarkers(old(data.mapMarkers), m.path)
      ensures IsSnapshot(data.mapMarkers, maps)
      ensures written == old(written) + [old(data).(mapMarkers := data.mapMarkers)]
      ensures FindRecord(data.mapMarkers, m.path) == Some(MapMarkerData(m.path, StoredMarkers(old(data.mapMarkers), m.path)))
      ensures SavedFrom(old(data))
    {
      m := NewMap(cfg, sourcePath);
      ghost var loaded := MarkerSnapshot(m.markers);
      ghost var ms := m.markers;
      Register(m);
      SaveSettings();
      assert maps[|maps| - 1] == m && m.markers == ms;
      assert MarkerSnapshot(m.markers) == loaded;
      SnapshotLookup(data.mapMarkers, maps, |maps| - 1);
    }

    /** `new LeafletMap(...)` followed by `map.loadData(...)` of the record stored under the map's path, if any. */
    method NewMap(cfg: EmbedConfig, sourcePath: string) returns (m: LiveMap)
      ensures fresh(m) && m.path == MapKey(sourcePath, cfg.image) && m.image == cfg.image && m.height == cfg.height
      ensures m.markerIcons == markerIcons
      ensures MarkerSnapshot(m.markers) == StoredMarkers(data.mapMarkers, m.path)
    {
      m := new LiveMap(cfg.image, cfg.height, sourcePath, markerIcons);
      var stored := FindRecord(data.mapMarkers, m.path);
      if stored.Some? {
        m.LoadData(stored.value.markers);
      }
    }

    /** The context modal's link field: sets the marker's link and saves. */
    method SetMarkerLink(marker: LiveMarker, value: string)
      modifies marker, this, maps
      ensures marker.link == Some(value) && marker.marker == old(marker.marker) && marker.loc == old(marker.loc)
      ensures maps == old(maps) && IsSnapshot(data.mapMarkers, maps)
      ensures forall i :: 0 <= i < |maps| ==> maps[i].markers == old(maps[i].markers)
      ensures written == old(written) + [old(data).(mapMarkers := data.mapMarkers)]
      ensures MarkupCurrent() && SavedFrom(old(data))
      ensures old(Valid()) ==> Valid()
    {
      marker.link := Some(value);
      SaveSettings();
    }

    /**
     * The context modal's type dropdown: resolves the chosen type and, when it
     * exists, gives the marker that type's re-rendered icon and saves. An
     * unknown type stops the handler before anything changes.
     */
    method ChangeMarkerType(marker: LiveMarker, value: string) returns (changed: bool)
      modifies marker, this, maps
      ensures changed <==> ResolveMarkerType(value, old(data.defaultMarker), old(data.markerIcons)).Some?
      ensures !changed ==> unchanged(marker) && unchanged(this) && unchanged(maps)
      ensures changed ==>
        && marker.marker == RetypedIcon(value, old(data.defaultMarker), old(data.markerIcons)).value
        && marker.link == old(marker.link) && marker.loc == old(marker.loc)
        && maps == old(maps) && IsSnapshot(data.mapMarkers, maps)
        && (forall i :: 0 <= i < |maps| ==> maps[i].markers == old(maps[i].markers))
        && written == old(written) + [old(data).(mapMarkers := data.mapMarkers)]
        && MarkupCurrent() && SavedFrom(old(data))
      ensures old(Valid()) ==> Valid()
    {
      var icon := RetypedIcon(value, data.defaultMarker, data.markerIcons);
      if icon.None? {
        return false;
      }
      marker.marker := icon.value;
      SaveSettings();
      changed := true;
    }

    /** The context modal's delete button: removes every marker with that id from the map and saves. */
    method DeleteMarker(owner: LiveMap, marker: LiveMarker)
      modifies owner, this, maps
      ensures owner.markers == WithoutId(old(owner.markers), marker.id)
      ensures maps == old(maps) && IsSnapshot(data.mapMarkers, maps)
      ensures forall i :: 0 <= i < |maps| && maps[i] != owner ==> maps[i].markers == old(maps[i].markers)
      ensures written == old(written) + [old(data).(mapMarkers := data.mapMarkers)]
      ensures MarkupCurrent() && SavedFrom(old(data))
      ensures old(Valid()) ==> Valid()
    {
      owner.markers := WithoutId(owner.markers, marker.id);
      SaveSettings();
    }
  }

  /** `this.maps.forEach(map => map.setMarkerIcons(icons))`; the snapshot of the maps is unaffected. */
  method SetAllMarkerIcons(maps: seq<LiveMap>, icons: seq<MarkerIcon>)
    modifies maps
    ensures forall i :: 0 <= i < |maps| ==> maps[i].markerIcons == icons
    ensures forall i :: 0 <= i < |maps| ==> maps[i].markers == old(maps[i].markers)
  {
    for i := 0 to |maps|
      invariant forall j :: 0 <= j < i ==> maps[j].markerIcons == icons
      invariant forall j :: 0 <= j < |maps| ==> maps[j].markers == old(maps[j].markers)
    {
      maps[i].SetMarkerIcons(icons);
    }
  }

  lemma {:induction false} NoneFiltered(maps: seq<LiveMap>, p: string)
    requires WithPath(maps, p) == []
    ensures WithoutPath(maps, p) == maps
  {
    if maps != [] {
      assert maps[0].path != p by {
        WithPathAppend([maps[0]], maps[1..], p);
        assert maps == [maps[0]] + maps[1..];
      }
      WithPathAppend([maps[0]], maps[1..], p);
      assert maps == [maps[0]] + maps[1..];
      NoneFiltered(maps[1..], p);
    }
  }
}
