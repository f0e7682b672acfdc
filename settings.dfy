/**
 * The plugin's persisted data (`ObsidianAppData`) and the pure parts of the
 * code that reads and writes it in src/main.ts: the `loadSettings` merge,
 * marker-icon markup with its default-filling, marker-type resolution, the
 * record lookup by path and the record chosen by document-deletion pruning.
 */
module Settings {
  import opened Wrappers
  import opened Text

  datatype Transform = Transform(size: real, x: real, y: real)

  /**
   * A marker type of the icon catalogue (the global `Marker` interface).
   * An absent or empty `iconName` is the empty string; absent optional
   * fields are None.
   */
  datatype MarkerDef = MarkerDef(
    markerType: string,
    iconName: string,
    color: Option<string>,
    layer: Option<bool>,
    transform: Option<Transform>)

  /**
   * Rendered icon markup. The glyph library (`icon`, `getIcon`, `toHtml`) is
   * outside the model, so markup is the render request itself: a glyph masked
   * by the default marker's glyph, or the default marker's plain glyph.
   * `Unresolved` is the markup of a loaded marker whose type is not in the
   * map's icon list.
   */
  datatype Glyph =
    | Masked(iconName: string, transform: Option<Transform>, mask: string, color: Option<string>)
    | Plain(iconName: string, color: Option<string>)
    | Unresolved(markerType: string)

  /** `MarkerIcon`: a marker type with its markup. */
  datatype MarkerIcon = MarkerIcon(markerType: string, html: Glyph)

  /** A stored marker (`MarkerData`); `loc` is the `[lat, lng]` pair. */
  datatype MarkerData = MarkerData(markerType: string, loc: (real, real), id: string, link: Option<string>)

  /** The stored markers of one map, keyed by the map's path. */
  datatype MapMarkerData = MapMarkerData(path: string, markers: seq<MarkerData>)

  /** `ObsidianAppData`. */
  datatype AppData = AppData(
    mapMarkers: seq<MapMarkerData>,
    markerIcons: seq<MarkerDef>,
    defaultMarker: MarkerDef,
    color: string)

  /** The blob `loadData` returns: each key may be missing. */
  datatype StoredData = StoredData(
    mapMarkers: Option<seq<MapMarkerData>>,
    markerIcons: Option<seq<MarkerDef>>,
    defaultMarker: Option<MarkerDef>,
    color: Option<string>)

  /** The blob `saveData` writes for `d`: every key present. */
  function Blob(d: AppData): StoredData {
    StoredData(Some(d.mapMarkers), Some(d.markerIcons), Some(d.defaultMarker), Some(d.color))
  }

  /**
   * `Object.assign({}, DEFAULT_SETTINGS, await this.loadData())`: every key
   * present in the loaded blob overrides the default; a missing blob (no data
   * file yet) leaves the defaults.
   */
  function MergeSettings(defaults: AppData, stored: Option<StoredData>): (r: AppData)
    ensures stored.None? ==> r == defaults
    ensures stored.Some? && stored.value.mapMarkers.None? ==> r.mapMarkers == defaults.mapMarkers
    ensures stored.Some? && stored.value.markerIcons.None? ==> r.markerIcons == defaults.markerIcons
    ensures stored.Some? && stored.value.defaultMarker.None? ==> r.defaultMarker == defaults.defaultMarker
    ensures stored.Some? && stored.value.color.None? ==> r.color == defaults.color
    ensures stored.Some? && stored.value.mapMarkers.Some? ==> r.mapMarkers == stored.value.mapMarkers.value
    ensures stored.Some? && stored.value.markerIcons.Some? ==> r.markerIcons == stored.value.markerIcons.value
    ensures stored.Some? && stored.value.defaultMarker.Some? ==> r.defaultMarker == stored.value.defaultMarker.value
    ensures stored.Some? && stored.value.color.Some? ==> r.color == stored.value.color.value
    ensures forall d :: stored == Some(Blob(d)) ==> r == d
  {
    match stored
    case None => defaults
    case Some(s) =>
      AppData(
        s.mapMarkers.GetOr(defaults.mapMarkers),
        s.markerIcons.GetOr(defaults.markerIcons),
        s.defaultMarker.GetOr(defaults.defaultMarker),
        s.color.GetOr(defaults.color))
  }

  /** JavaScript truthiness of an optional string: present and non-empty. */
  predicate Truthy(s: Option<string>) {
    s.Some? && s.value != ""
  }

  /** `color ? color : fallback`. */
  function ColorOr(color: Option<string>, fallback: Option<string>): (r: Option<string>)
    ensures Truthy(color) ==> r == color
    ensures !Truthy(color) ==> r == fallback
  {
    if Truthy(color) then color else fallback
  }

  /**
   * The in-place default-filling `generateMarkerMarkup` applies to each
   * catalogue entry: a missing `transform` and an empty `iconName` are taken
   * from the default marker; nothing else changes.
   */
  function FillDefaults(m: MarkerDef, d: MarkerDef): (r: MarkerDef)
    ensures r == m.(transform := r.transform, iconName := r.iconName)
    ensures m.transform.Some? ==> r.transform == m.transform
    ensures m.transform.None? ==> r.transform == d.transform
    ensures m.iconName != "" ==> r.iconName == m.iconName
    ensures m.iconName == "" ==> r.iconName == d.iconName
    ensures d.transform.Some? ==> r.transform.Some?
    ensures d.iconName != "" ==> r.iconName != ""
  {
    var withTransform := if m.transform.None? then m.(transform := d.transform) else m;
    if withTransform.iconName == "" then withTransform.(iconName := d.iconName) else withTransform
  }

  /** Filling twice is filling once. */
  lemma FillDefaultsIdempotent(m: MarkerDef, d: MarkerDef)
    ensures FillDefaults(FillDefaults(m, d), d) == FillDefaults(m, d)
  {
  }

  /** The default-filling applied to every entry of the catalogue, in order. */
  function FillAll(icons: seq<MarkerDef>, d: MarkerDef): (r: seq<MarkerDef>)
    ensures |r| == |icons|
    ensures forall i :: 0 <= i < |icons| ==> r[i] == FillDefaults(icons[i], d)
  {
    seq(|icons|, i requires 0 <= i < |icons| => FillDefaults(icons[i], d))
  }

  /** Filling a filled catalogue again changes nothing, so every save leaves it as it was. */
  lemma FillAllIdempotent(icons: seq<MarkerDef>, d: MarkerDef)
    ensures FillAll(FillAll(icons, d), d) == FillAll(icons, d)
  {
    forall i | 0 <= i < |icons| ensures FillAll(FillAll(icons, d), d)[i] == FillAll(icons, d)[i] {
      FillDefaultsIdempotent(icons[i], d);
    }
  }

  /** The markup of one filled catalogue entry: masked by the default glyph, coloured with fallback. */
  function IconMarkup(m: MarkerDef, d: MarkerDef): (r: MarkerIcon)
    ensures r.markerType == m.markerType
    ensures r.html.Masked? && r.html.iconName == m.iconName && r.html.transform == m.transform
    ensures r.html.mask == d.iconName && r.html.color == ColorOr(m.color, d.color)
  {
    MarkerIcon(m.markerType, Masked(m.iconName, m.transform, d.iconName, ColorOr(m.color, d.color)))
  }

  /** The `"default"` entry, rendered from the default marker without a mask. */
  function DefaultIcon(d: MarkerDef): (r: MarkerIcon)
    ensures r.markerType == "default"
    ensures !r.html.Masked? && !r.html.Unresolved?
    ensures r.html.iconName == d.iconName && r.html.color == d.color
  {
    MarkerIcon("default", Plain(d.iconName, d.color))
  }

  /**
   * The list `generateMarkerMarkup` returns for the (already filled) catalogue:
   * one entry per catalogue entry, in order and with the same type, preceded by
   * the `"default"` entry exactly when the default marker has an icon name.
   */
  function MarkerMarkup(filled: seq<MarkerDef>, d: MarkerDef): (r: seq<MarkerIcon>)
    ensures |r| == |filled| + (if d.iconName != "" then 1 else 0)
    ensures d.iconName != "" ==> r[0].markerType == "default" && r[0].html == Plain(d.iconName, d.color)
    ensures var off := if d.iconName != "" then 1 else 0;
      forall i :: 0 <= i < |filled| ==>
        r[i + off].markerType == filled[i].markerType && r[i + off] == IconMarkup(filled[i], d)
  {
    var body := seq(|filled|, i requires 0 <= i < |filled| => IconMarkup(filled[i], d));
    if d.iconName != "" then [DefaultIcon(d)] + body else body
  }

  /** First catalogue entry whose type is `t` (`markerIcons.find(m => m.type == t)`). */
  function FindIcon(icons: seq<MarkerDef>, t: string): (r: Option<nat>)
    ensures r.Some? ==> r.value < |icons| && icons[r.value].markerType == t
    ensures r.Some? ==> forall j :: 0 <= j < r.value ==> icons[j].markerType != t
    ensures r.None? ==> forall j :: 0 <= j < |icons| ==> icons[j].markerType != t
  {
    if |icons| == 0 then None
    else if icons[0].markerType == t then Some(0)
    else match FindIcon(icons[1..], t)
      case None => None
      case Some(k) => Some(k + 1)
  }

  /**
   * The marker type the context modal resolves a dropdown value to:
   * `"default"` is the default marker, anything else the first catalogue entry
   * of that type, None when there is none.
   */
  function ResolveMarkerType(value: string, d: MarkerDef, icons: seq<MarkerDef>): (r: Option<MarkerDef>)
    ensures value == "default" ==> r == Some(d)
    ensures value != "default" ==> (r.Some? <==> exists i :: 0 <= i < |icons| && icons[i].markerType == value)
    ensures value != "default" && r.Some? ==>
      exists i :: 0 <= i < |icons| && icons[i] == r.value && r.value.markerType == value &&
        forall j :: 0 <= j < i ==> icons[j].markerType != value
  {
    if value == "default" then Some(d)
    else match FindIcon(icons, value)
      case None => None
      case Some(i) => Some(icons[i])
  }

  /**
   * The marker icon a live marker gets after a type change in the context
   * modal: the resolved type's glyph with the modal's fixed transform, masked
   * by the default glyph, coloured with the resolved colour or else the
   * default marker's. None when the type does not resolve.
   */
  function RetypedIcon(value: string, d: MarkerDef, icons: seq<MarkerDef>): (r: Option<MarkerIcon>)
    ensures r.Some? <==> ResolveMarkerType(value, d, icons).Some?
    ensures r.Some? ==>
      var n := ResolveMarkerType(value, d, icons).value;
      && r.value.markerType == n.markerType
      && r.value.html == Masked(n.iconName, Some(Transform(6.0, 0.0, -2.0)), d.iconName, ColorOr(n.color, d.color))
  {
    match ResolveMarkerType(value, d, icons)
    case None => None
    case Some(n) =>
      Some(MarkerIcon(n.markerType, Masked(n.iconName, Some(Transform(6.0, 0.0, -2.0)), d.iconName, ColorOr(n.color, d.color))))
  }

  /** The stored record whose path is exactly `key` (the first one, as `find` returns). */
  function FindRecord(recs: seq<MapMarkerData>, key: string): (r: Option<MapMarkerData>)
    ensures r.Some? ==> r.value.path == key
    ensures r.Some? ==>
      exists i :: 0 <= i < |recs| && recs[i] == r.value && forall j :: 0 <= j < i ==> recs[j].path != key
    ensures r.None? <==> forall j :: 0 <= j < |recs| ==> recs[j].path != key
  {
    if |recs| == 0 then None
    else if recs[0].path == key then Some(recs[0])
    else
      var r := FindRecord(recs[1..], key);
      assert r.Some? ==> exists i :: 0 <= i < |recs| && recs[i] == r.value && forall j :: 0 <= j < i ==> recs[j].path != key by {
        if r.Some? {
          var i :| 0 <= i < |recs[1..]| && recs[1..][i] == r.value && forall j :: 0 <= j < i ==> recs[1..][j].path != key;
          assert recs[i + 1] == r.value;
          assert forall j :: 0 <= j < i + 1 ==> recs[j].path != key by {
            forall j | 0 <= j < i + 1 ensures recs[j].path != key {
              if j > 0 { assert recs[j] == recs[1..][j - 1]; }
            }
          }
        }
      }
      assert r.None? ==> forall j :: 0 <= j < |recs| ==> recs[j].path != key by {
        if r.None? {
          forall j | 0 <= j < |recs| ensures recs[j].path != key {
            if j > 0 { assert recs[j] == recs[1..][j - 1]; }
          }
        }
      }
      r
  }

  /** The markers a new map starts with: those of the record stored under `key`, none when there is no such record. */
  function StoredMarkers(recs: seq<MapMarkerData>, key: string): (r: seq<MarkerData>)
    ensures (forall j :: 0 <= j < |recs| ==> recs[j].path != key) ==> r == []
    ensures r != [] ==> exists i :: 0 <= i < |recs| && recs[i].path == key && recs[i].markers == r
    ensures forall i :: 0 <= i < |recs| && recs[i].path == key && (forall j :: 0 <= j < i ==> recs[j].path != key) ==>
      r == recs[i].markers
  {
    match FindRecord(recs, key)
    case None => []
    case Some(rec) =>
      assert forall i :: 0 <= i < |recs| && recs[i].path == key && (forall j :: 0 <= j < i ==> recs[j].path != key) ==>
        rec == recs[i] by {
        var k :| 0 <= k < |recs| && recs[k] == rec && forall j :: 0 <= j < k ==> recs[j].path != key;
        forall i | 0 <= i < |recs| && recs[i].path == key && (forall j :: 0 <= j < i ==> recs[j].path != key)
          ensures rec == recs[i]
        {
        }
      }
      rec.markers
  }

  /** Index of the first record whose path contains `filePath` (`path.includes(file.path)`). */
  function FirstContaining(recs: seq<MapMarkerData>, filePath: string): (r: Option<nat>)
    ensures r.Some? ==> r.value < |recs| && Includes(recs[r.value].path, filePath)
    ensures r.Some? ==> forall j :: 0 <= j < r.value ==> !Includes(recs[j].path, filePath)
    ensures r.None? <==> forall j :: 0 <= j < |recs| ==> !Includes(recs[j].path, filePath)
  {
    if |recs| == 0 then None
    else if Includes(recs[0].path, filePath) then Some(0)
    else match FirstContaining(recs[1..], filePath)
      case None =>
        assert forall j :: 1 <= j < |recs| ==> recs[j] == recs[1..][j - 1];
        None
      case Some(k) => Some(k + 1)
  }

  /**
   * The records left after pruning for a deleted document: when some path
   * contains the document's path, exactly the first such record is removed and
   * the others keep their order; otherwise nothing changes.
   */
  function PruneFirst(recs: seq<MapMarkerData>, filePath: string): (r: seq<MapMarkerData>)
    ensures FirstContaining(recs, filePath).None? ==> r == recs
    ensures FirstContaining(recs, filePath).Some? ==>
      var i := FirstContaining(recs, filePath).value;
      && |r| == |recs| - 1
      && r[..i] == recs[..i]
      && r[i..] == recs[i + 1..]
      && forall j :: 0 <= j < i ==> !Includes(r[j].path, filePath)
  {
    match FirstContaining(recs, filePath)
    case None => recs
    case Some(i) => recs[..i] + recs[i + 1..]
  }
}
