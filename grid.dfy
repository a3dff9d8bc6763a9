/** The albums listing: `gridData` in `init` and the tile data of
    `buildAlbumsGrid` (js/main.js). */
module Grid {
  import opened Wrappers
  import Catalog
  import Paths
  import Decimal

  /** What one album tile shows: the album it links to (the link target is
      `album.html?album=` and the encoded name), the thumbnail source, the
      title text and the count text. */
  datatype Tile = Tile(album: string, thumb: string, title: string, count: string)

  /** `${n} images`, with no singular form. */
  function CountLabel(n: nat): (text: string)
    ensures |text| > 7 && text[|text| - 7..] == " images"
    ensures text == Decimal.NatToString(n) + " images"
  {
    Decimal.NatToString(n) + " images"
  }

  /** The count text reads back as the number it was made from. */
  lemma CountLabelValue(n: nat)
    ensures var text := CountLabel(n);
            var digits := text[..|text| - 7];
            digits == Decimal.NatToString(n) &&
            (forall i :: 0 <= i < |digits| ==> '0' <= digits[i] <= '9') &&
            Decimal.ValueOf(digits) == n
  {
    var text := CountLabel(n);
    assert text[..|text| - 7] == Decimal.NatToString(n);
    Decimal.ValueOfNatToString(n);
  }

  /** The tile of album `name` with resolved paths `images`, titled from `meta`. */
  function TileOf(name: string, images: seq<string>, meta: seq<(string, Catalog.Entry)>): (t: Tile)
    ensures t.album == name
    ensures t.thumb == if images == [] then "" else images[0]
    ensures (Catalog.Find(meta, name).Some? && Catalog.Find(meta, name).value.title != "") ==>
              t.title == Catalog.Find(meta, name).value.title
    ensures !(Catalog.Find(meta, name).Some? && Catalog.Find(meta, name).value.title != "") ==>
              t.title == Paths.DerivedTitle(name)
    ensures t.count == CountLabel(|images|)
  {
    var found := Catalog.Find(meta, name);
    Tile(name,
         if |images| > 0 then images[0] else "",
         // `meta && meta[name] && meta[name].title`
         if found.Some? && found.value.title != "" then found.value.title else Paths.DerivedTitle(name),
         CountLabel(|images|))
  }

  /** `gridData`: each normalized album's images resolved under
      `assets/images/albums/<name>/`, keys in catalog order. */
  function GridDataOf(normalized: seq<(string, Catalog.Entry)>): (r: seq<(string, seq<string>)>)
    ensures Catalog.Keys(r) == Catalog.Keys(normalized)
  {
    var r := seq(|normalized|, i requires 0 <= i < |normalized| =>
                   (normalized[i].0, Paths.SectionPaths("albums", normalized[i].0, normalized[i].1.images)));
    assert Catalog.Keys(r) == Catalog.Keys(normalized);
    r
  }

  /** The tiles of `buildAlbumsGrid(albums, meta)`, one per album in order. */
  function TilesOf(albums: seq<(string, seq<string>)>, meta: seq<(string, Catalog.Entry)>): (tiles: seq<Tile>)
    ensures |tiles| == |albums|
  {
    seq(|albums|, i requires 0 <= i < |albums| => TileOf(albums[i].0, albums[i].1, meta))
  }

  /** The forEach loop that fills `gridData`, returning `Object.entries(gridData)`. */
  method GridData(normalized: seq<(string, Catalog.Entry)>) returns (gridData: seq<(string, seq<string>)>)
    requires Catalog.UniqueKeys(normalized)
    ensures gridData == GridDataOf(normalized)
  {
    var d := new Catalog.Dict<seq<string>>();
    var i := 0;
    while i < |normalized|
      invariant 0 <= i <= |normalized|
      invariant d.Valid()
      invariant d.keys == Catalog.Keys(normalized[..i])
      invariant forall j :: 0 <= j < i ==> normalized[j].0 in d.values
      invariant forall j :: 0 <= j < i ==>
                  d.values[normalized[j].0] ==
                    Paths.SectionPaths("albums", normalized[j].0, normalized[j].1.images)
    {
      var (name, info) := normalized[i];
      assert name !in d.keys by {
        assert Catalog.Keys(normalized)[i] == name;
        forall j | 0 <= j < i ensures d.keys[j] != name && normalized[j].0 != name {
          assert d.keys[j] == Catalog.Keys(normalized)[j] == normalized[j].0;
        }
      }
      d.Set(name, Paths.SectionPaths("albums", name, info.images));
      assert Catalog.Keys(normalized[..i + 1]) == Catalog.Keys(normalized[..i]) + [name];
      i := i + 1;
    }
    assert normalized[..i] == normalized;
    gridData := d.Entries();
    assert gridData == GridDataOf(normalized);
  }

  /** The forEach loop of `buildAlbumsGrid`: one tile appended per album. */
  method BuildAlbumsGrid(albums: seq<(string, seq<string>)>, meta: seq<(string, Catalog.Entry)>)
    returns (tiles: seq<Tile>)
    ensures tiles == TilesOf(albums, meta)
  {
    tiles := [];
    var i := 0;
    while i < |albums|
      invariant 0 <= i <= |albums|
      invariant |tiles| == i
      invariant forall j :: 0 <= j < i ==> tiles[j] == TileOf(albums[j].0, albums[j].1, meta)
    {
      var (name, images) := albums[i];
      tiles := tiles + [TileOf(name, images, meta)];
      i := i + 1;
    }
  }

  /** The albums listing of a loaded catalog: tile `i` is album `i` of the
      catalog, its thumbnail is the album's first asset path (or `''`), its
      title is the normalized title, and its count is the number of images. */
  lemma {:induction false} CatalogTiles(catalog: seq<(string, Catalog.Raw)>, i: nat)
    requires Catalog.UniqueKeys(catalog) && i < |catalog|
    ensures var normalized := Catalog.NormalizeAll(catalog);
            var tiles := TilesOf(GridDataOf(normalized), normalized);
            var e := normalized[i].1;
            && |tiles| == |catalog|
            && tiles[i].album == catalog[i].0
            && tiles[i].thumb == (if e.images == [] then ""
                                  else "assets/images/albums/" + catalog[i].0 + "/" + e.images[0])
            && tiles[i].title == e.title
            && tiles[i].count == CountLabel(|e.images|)
  {
    var normalized := Catalog.NormalizeAll(catalog);
    assert Catalog.Keys(normalized) == Catalog.Keys(catalog);
    assert normalized[i].0 == Catalog.Keys(normalized)[i] == catalog[i].0;
    Catalog.FindUnique(normalized, i);
  }

  /** The labels of one and of two images. */
  lemma SmallCountLabels()
    ensures CountLabel(1) == "1 images" && CountLabel(2) == "2 images"
  {
    assert Decimal.NatToString(1) == "1" && Decimal.NatToString(2) == "2";
  }

  /** The sample catalog of two albums. */
  predicate IsSampleCatalog(catalog: seq<(string, Catalog.Raw)>) {
    catalog == [("sunset-trip", Catalog.Titled(Some("Sunset"), ["1.jpg"])),
                ("rainy-day", Catalog.BareList(["2.jpg", "3.jpg"]))]
  }

  /** The sample catalog normalizes to "Sunset" with one image and "rainy day"
      with two. */
  lemma SampleEntries(catalog: seq<(string, Catalog.Raw)>)
    requires IsSampleCatalog(catalog)
    ensures Catalog.UniqueKeys(catalog) && |catalog| == 2
    ensures var normalized := Catalog.NormalizeAll(catalog);
            && normalized[0].1.title == "Sunset" && |normalized[0].1.images| == 1
            && normalized[1].1.title == "rainy day" && |normalized[1].1.images| == 2
  {
    assert Catalog.Keys(catalog) == ["sunset-trip", "rainy-day"];
    assert Paths.DerivedTitle("rainy-day") == "rainy day";
  }

  /** The two-album listing: `{"sunset-trip": {title: "Sunset", images: ["1.jpg"]},
      "rainy-day": ["2.jpg", "3.jpg"]}` gives title "Sunset" with "1 images" and
      title "rainy day" with "2 images". */
  lemma TwoAlbumExample(catalog: seq<(string, Catalog.Raw)>)
    requires IsSampleCatalog(catalog)
    ensures var normalized := Catalog.NormalizeAll(catalog);
            var tiles := TilesOf(GridDataOf(normalized), normalized);
            && |tiles| == 2
            && tiles[0].title == "Sunset" && tiles[0].count == "1 images"
            && tiles[1].title == "rainy day" && tiles[1].count == "2 images"
  {
    SampleEntries(catalog);
    CatalogTiles(catalog, 0);
    CatalogTiles(catalog, 1);
    SmallCountLabels();
  }
}
