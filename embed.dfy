/**
 * The code-block side of `postprocessor` in src/main.ts: reading the block's
 * `key: value` lines, the path key a map is stored under, and the link made
 * from a document dropped on the map.
 */
module Embed {
  import opened Wrappers
  import opened Text

  /** One `[key, value]` entry for `Object.fromEntries`; a line without `": "` has no value. */
  datatype Entry = Entry(key: string, value: Option<string>)

  datatype EmbedConfig = EmbedConfig(image: string, height: string)

  datatype EmbedError = MissingImage

  const LineSeparator: string := "\n"
  const KeySeparator: string := ": "
  const DefaultHeight: string := "500px"

  /**
   * `l.split(": ")` read as an entry: the text before the first `": "` is the
   * key and the text between the first and the second `": "` is the value; a
   * line without `": "` is a key without a value.
   */
  function ParseLine(l: string): (e: Entry)
    ensures e.value.None? <==> !Includes(l, KeySeparator)
    ensures e.value.None? ==> e.key == l
    ensures e.value.Some? ==> StartsWith(l, e.key + KeySeparator + e.value.value)
    ensures !Includes(e.key, KeySeparator)
    ensures e.value.Some? ==> !Includes(e.value.value, KeySeparator)
    ensures e.value.Some? ==>
      var end := |e.key| + |KeySeparator| + |e.value.value|;
      end == |l| || OccursAt(l, KeySeparator, end)
  {
    var parts := Split(l, KeySeparator);
    SplitPiecesFree(l, KeySeparator);
    JoinSplit(l, KeySeparator);
    if |parts| > 1 then
      assert parts == [parts[0]] + parts[1..];
      assert l == parts[0] + KeySeparator + Join(parts[1..], KeySeparator);
      assert StartsWith(Join(parts[1..], KeySeparator), parts[1]);
      assert Includes(l, KeySeparator) by {
        assert OccursAt(l, KeySeparator, |parts[0]|);
      }
      var end := |parts[0]| + |KeySeparator| + |parts[1]|;
      assert end == |l| || OccursAt(l, KeySeparator, end) by {
        if |parts| > 2 {
          var tail := parts[1..];
          assert tail == [parts[1]] + tail[1..];
          assert l == parts[0] + KeySeparator + parts[1] + KeySeparator + Join(tail[1..], KeySeparator);
          assert l[end..end + |KeySeparator|] == KeySeparator;
        } else {
          assert parts[1..] == [parts[1]];
        }
      }
      Entry(parts[0], Some(parts[1]))
    else
      assert parts == [l];
      Entry(parts[0], None)
  }

  /** `source.split("\n").map(l => l.split(": "))`, one entry per line. */
  function Entries(source: string): (es: seq<Entry>)
    ensures |es| == |Split(source, LineSeparator)|
    ensures forall i :: 0 <= i < |es| ==> es[i] == ParseLine(Split(source, LineSeparator)[i])
  {
    var lines := Split(source, LineSeparator);
    seq(|lines|, i requires 0 <= i < |lines| => ParseLine(lines[i]))
  }

  /**
   * The property `Object.fromEntries(es)[key]`: the value of the LAST entry
   * with that key (a later line overrides an earlier one, even with no value);
   * None when no entry has the key.
   */
  function Lookup(es: seq<Entry>, key: string): (r: Option<string>)
    ensures (forall i :: 0 <= i < |es| ==> es[i].key != key) ==> r.None?
    ensures r.Some? ==>
      exists i :: 0 <= i < |es| && es[i] == Entry(key, r) && forall j :: i < j < |es| ==> es[j].key != key
    ensures forall i :: 0 <= i < |es| && es[i].key == key && (forall j :: i < j < |es| ==> es[j].key != key) ==>
      r == es[i].value
  {
    if |es| == 0 then None
    else if es[|es| - 1].key == key then es[|es| - 1].value
    else
      var init := es[..|es| - 1];
      var r := Lookup(init, key);
      assert r.Some? ==> exists i :: 0 <= i < |es| && es[i] == Entry(key, r) && forall j :: i < j < |es| ==> es[j].key != key by {
        if r.Some? {
          var i :| 0 <= i < |init| && init[i] == Entry(key, r) &&
            forall j :: i < j < |init| ==> init[j].key != key;
          assert es[i] == Entry(key, r);
          assert forall j :: i < j < |es| ==> es[j].key != key by {
            forall j | i < j < |es| ensures es[j].key != key {
              if j < |es| - 1 { assert es[j] == init[j]; }
            }
          }
        }
      }
      assert forall i :: 0 <= i < |es| && es[i].key == key && (forall j :: i < j < |es| ==> es[j].key != key) ==>
        r == es[i].value by {
        forall i | 0 <= i < |es| && es[i].key == key && (forall j :: i < j < |es| ==> es[j].key != key)
          ensures r == es[i].value
        {
          assert i < |es| - 1;
          assert es[i] == init[i];
          assert forall j :: i < j < |init| ==> init[j].key != key by {
            forall j | i < j < |init| ensures init[j].key != key { assert init[j] == es[j]; }
          }
        }
      }
      r
  }

  /**
   * `let { image, height = "500px" } = Object.fromEntries(...)` followed by
   * the `if (!image)` check: a missing or empty image aborts; a missing height
   * (or a height line without a value) becomes "500px".
   */
  function ParseEmbed(source: string): (r: Result<EmbedConfig, EmbedError>)
    ensures var image := Lookup(Entries(source), "image");
      r.Err? <==> (image.None? || image.value == "")
    ensures r.Ok? ==> r.value.image == Lookup(Entries(source), "image").value
    ensures r.Ok? ==> r.value.height == Lookup(Entries(source), "height").GetOr(DefaultHeight)
  {
    var es := Entries(source);
    match Lookup(es, "image")
    case None => Err(MissingImage)
    case Some(image) =>
      if image == "" then Err(MissingImage)
      else Ok(EmbedConfig(image, Lookup(es, "height").GetOr(DefaultHeight)))
  }

  /** A block none of whose lines has the key `height` gets the default height. */
  lemma HeightDefaults(source: string)
    requires forall l :: l in Split(source, LineSeparator) ==> ParseLine(l).key != "height"
    ensures ParseEmbed(source).Ok? ==> ParseEmbed(source).value.height == DefaultHeight
  {
  }

  /** A block whose last `image` line carries a non-empty value is accepted with that image. */
  lemma ImageLineAccepted(source: string, i: nat, image: string)
    requires i < |Entries(source)|
    requires Entries(source)[i] == Entry("image", Some(image)) && image != ""
    requires forall j :: i < j < |Entries(source)| ==> Entries(source)[j].key != "image"
    ensures ParseEmbed(source).Ok? && ParseEmbed(source).value.image == image
  {
  }

  /** In an accepted block, the value of the last `height` line is the height. */
  lemma HeightLineTaken(source: string, i: nat, height: string)
    requires i < |Entries(source)|
    requires Entries(source)[i] == Entry("height", Some(height))
    requires forall j :: i < j < |Entries(source)| ==> Entries(source)[j].key != "height"
    ensures ParseEmbed(source).Ok? ==> ParseEmbed(source).value.height == height
  {
  }

  /** A block none of whose lines has the key `image` is rejected. */
  lemma MissingImageRejected(source: string)
    requires forall l :: l in Split(source, LineSeparator) ==> ParseLine(l).key != "image"
    ensures ParseEmbed(source) == Err(MissingImage)
  {
  }

  /** The path a map is registered and stored under: `${sourcePath}/${image}`. */
  function MapKey(sourcePath: string, image: string): (k: string)
    ensures |k| == |sourcePath| + 1 + |image|
    ensures StartsWith(k, sourcePath + "/") && EndsWith(k, image)
  {
    sourcePath + "/" + image
  }

  const FileMarker: string := "file="
  const NoteSuffix: string := ".md"

  /**
   * The link a dropped document becomes: `data.split("file=").pop() + ".md"`
   * over the decoded drag data. The result is the text after the last
   * `file=` (all of `data` when there is none) followed by `.md`.
   */
  function DropLink(data: string): (link: string)
    ensures EndsWith(link, NoteSuffix)
    ensures var file := link[..|link| - |NoteSuffix|];
      && |file| <= |data|
      && data == data[..|data| - |file|] + file
      && !Includes(file, FileMarker)
      && (!Includes(data, FileMarker) <==> file == data)
      && (Includes(data, FileMarker) ==> EndsWith(data[..|data| - |file|], FileMarker))
  {
    SplitLast(data, FileMarker);
    var file := Last(Split(data, FileMarker));
    assert (file + NoteSuffix)[..|file|] == file;
    file + NoteSuffix
  }
}
