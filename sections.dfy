/** Which file names each page section shows, and under which asset path
    (js/main.js, the section blocks of `init`). */
module Sections {
  import opened Wrappers
  import Catalog
  import Paths

  /** One value of `data/selections.json`: its `images` array when it has one
      (a missing key, a non-object or a missing `images` field is `None`). */
  datatype Selection = Selection(images: Option<seq<string>>)

  /** The images array of the selection stored under `key`, if there is one. */
  function SelectionImages(selections: seq<(string, Selection)>, key: string): (r: Option<seq<string>>)
    ensures r.Some? ==> Catalog.Find(selections, key) == Some(Selection(r))
    ensures r.None? <==> (Catalog.Find(selections, key).None? ||
                          Catalog.Find(selections, key).value.images.None?)
  {
    var found: Option<Selection> := Catalog.Find(selections, key);
    if found.Some? then found.value.images else None
  }

  /** The home carousel's paths. `selections['front-page'].images` wins whenever
      it exists (even when it is empty) and is resolved under `selections`;
      otherwise the normalized `front-page` album under `albums`; otherwise none. */
  function CarouselPaths(selections: seq<(string, Selection)>,
                         normalized: seq<(string, Catalog.Entry)>): (paths: seq<string>)
    ensures SelectionImages(selections, "front-page").Some? ==>
              paths == Paths.SectionPaths("selections", "front-page",
                                          SelectionImages(selections, "front-page").value)
    ensures (SelectionImages(selections, "front-page").None? &&
             Catalog.Find(normalized, "front-page").Some?) ==>
              paths == Paths.SectionPaths("albums", "front-page",
                                          Catalog.Find(normalized, "front-page").value.images)
    ensures (SelectionImages(selections, "front-page").None? &&
             Catalog.Find(normalized, "front-page").None?) ==> paths == []
  {
    var frontSel := SelectionImages(selections, "front-page");
    var front :=
      if frontSel.Some? then frontSel.value
      else match Catalog.Find(normalized, "front-page")
           case Some(e) => e.images
           case None => [];
    Paths.SectionPaths(if frontSel.Some? then "selections" else "albums", "front-page", front)
  }

  /** The selected-work strip's paths: `selections['selected_work'].images`
      under `selections/selected_work`, or none. */
  function SelectedWorkPaths(selections: seq<(string, Selection)>): (paths: seq<string>)
    ensures SelectionImages(selections, "selected_work").Some? ==>
              paths == Paths.SectionPaths("selections", "selected_work",
                                          SelectionImages(selections, "selected_work").value)
    ensures SelectionImages(selections, "selected_work").None? ==> paths == []
  {
    Paths.SectionPaths("selections", "selected_work",
                       SelectionImages(selections, "selected_work").GetOr([]))
  }

  /** `getQueryParam('album') || 'front-page'`: a missing or empty parameter
      selects the `front-page` album. */
  function GalleryAlbum(param: Option<string>): (album: string)
    ensures album != ""
    ensures param.Some? && param.value != "" ==> album == param.value
    ensures (param.None? || param.value == "") ==> album == "front-page"
  {
    match param
    case Some(p) => if p != "" then p else "front-page"
    case None => "front-page"
  }

  /** What the album page shows: a title and the album's paths. */
  datatype Gallery = Gallery(title: string, paths: seq<string>)

  /** The album page for the query parameter `param`: a known album shows its
      normalized title and images; an unknown one shows the title derived from
      its name and no images. */
  function GalleryView(normalized: seq<(string, Catalog.Entry)>, param: Option<string>): (g: Gallery)
    ensures Catalog.Find(normalized, GalleryAlbum(param)).Some? ==>
              var e := Catalog.Find(normalized, GalleryAlbum(param)).value;
              g == Gallery(e.title, Paths.SectionPaths("albums", GalleryAlbum(param), e.images))
    ensures Catalog.Find(normalized, GalleryAlbum(param)).None? ==>
              g == Gallery(Paths.DerivedTitle(GalleryAlbum(param)), [])
  {
    var album := GalleryAlbum(param);
    var info := Catalog.Find(normalized, album).GetOr(Catalog.Entry(Paths.DerivedTitle(album), []));
    Gallery(info.title, Paths.SectionPaths("albums", album, info.images))
  }
}
