/** The page bootstrapper (js/main.js `init`): which sections a page renders
    and with which data, given the two loaded documents. */
module Page {
  import opened Wrappers
  import Catalog
  import Sections
  import Grid
  import Paths

  /** Which mount points the current page has (`document.getElementById(...)`
      found the carousel track, the albums container, the selected-work
      container and the gallery container). */
  datatype Mounts = Mounts(carousel: bool, albums: bool, selectedWork: bool, gallery: bool)

  /** What each section is given to render; `None` for a section whose mount
      point is absent. */
  datatype View = View(carousel: Option<seq<string>>,
                       tiles: Option<seq<Grid.Tile>>,
                       selectedWork: Option<seq<string>>,
                       gallery: Option<Sections.Gallery>)

  /** `let d = {}; try { d = await fetchJSON(path) } catch (e) { }`: a document
      that failed to load is the empty object. */
  function Loaded<V>(doc: Option<seq<(string, V)>>): (d: seq<(string, V)>)
    ensures doc.None? ==> d == []
    ensures doc.Some? ==> d == doc.value
  {
    doc.GetOr([])
  }

  /** The sections of a page, each gated by its mount point and computed from
      the normalized catalog and the selections. */
  function PageView(albums: Option<seq<(string, Catalog.Raw)>>,
                    selections: Option<seq<(string, Sections.Selection)>>,
                    albumParam: Option<string>, mounts: Mounts): (v: View)
    ensures v.carousel.Some? == mounts.carousel && v.tiles.Some? == mounts.albums
    ensures v.selectedWork.Some? == mounts.selectedWork && v.gallery.Some? == mounts.gallery
  {
    var normalized := Catalog.NormalizeAll(Loaded(albums));
    var sel := Loaded(selections);
    View(if mounts.carousel then Some(Sections.CarouselPaths(sel, normalized)) else None,
         if mounts.albums then Some(Grid.TilesOf(Grid.GridDataOf(normalized), normalized)) else None,
         if mounts.selectedWork then Some(Sections.SelectedWorkPaths(sel)) else None,
         if mounts.gallery then Some(Sections.GalleryView(normalized, albumParam)) else None)
  }

  /** `init()` after its two loads: normalize, then fill each mounted section. */
  method Init(albums: Option<seq<(string, Catalog.Raw)>>,
              selections: Option<seq<(string, Sections.Selection)>>,
              albumParam: Option<string>, mounts: Mounts) returns (v: View)
    requires albums.Some? ==> Catalog.UniqueKeys(albums.value)
    ensures v == PageView(albums, selections, albumParam, mounts)
  {
    var sel := Loaded(selections);
    var normalized := Catalog.Normalize(Loaded(albums));
    v := View(None, None, None, None);
    if mounts.carousel {
      v := v.(carousel := Some(Sections.CarouselPaths(sel, normalized)));
    }
    if mounts.albums {
      var gridData := Grid.GridData(normalized);
      var tiles := Grid.BuildAlbumsGrid(gridData, normalized);
      v := v.(tiles := Some(tiles));
    }
    if mounts.selectedWork {
      v := v.(selectedWork := Some(Sections.SelectedWorkPaths(sel)));
    }
    if mounts.gallery {
      v := v.(gallery := Some(Sections.GalleryView(normalized, albumParam)));
    }
  }

  /** Without `albums.json` the listing has no tiles, the album page shows the
      derived title of the requested album with no images, and the carousel
      can only come from the selections. */
  lemma MissingCatalog(selections: Option<seq<(string, Sections.Selection)>>,
                       albumParam: Option<string>, mounts: Mounts)
    ensures var v := PageView(None, selections, albumParam, mounts);
            && (mounts.albums ==> v.tiles == Some([]))
            && (mounts.gallery ==>
                  v.gallery == Some(Sections.Gallery(
                    Paths.DerivedTitle(Sections.GalleryAlbum(albumParam)), [])))
            && (mounts.carousel &&
                Sections.SelectionImages(Loaded(selections), "front-page").None? ==>
                  v.carousel == Some([]))
  {
    assert Catalog.Keys(Catalog.NormalizeAll([])) == [];
  }

  /** The two loads fail independently: the listing and the album page do not
      depend on the selections, and the selected-work strip does not depend on
      the catalog. */
  lemma IndependentLoads(albums: Option<seq<(string, Catalog.Raw)>>,
                         albums': Option<seq<(string, Catalog.Raw)>>,
                         selections: Option<seq<(string, Sections.Selection)>>,
                         selections': Option<seq<(string, Sections.Selection)>>,
                         albumParam: Option<string>, mounts: Mounts)
    ensures PageView(albums, selections, albumParam, mounts).tiles ==
            PageView(albums, selections', albumParam, mounts).tiles
    ensures PageView(albums, selections, albumParam, mounts).gallery ==
            PageView(albums, selections', albumParam, mounts).gallery
    ensures PageView(albums, selections, albumParam, mounts).selectedWork ==
            PageView(albums', selections, albumParam, mounts).selectedWork
  {
  }
}
