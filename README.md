# Photo-gallery page logic, modelled in Dafny

This project models the data and state logic of the photo-gallery site's page
script, `js/main.js`, with the DOM calls taken out. It covers:

- the album catalog read from `data/albums.json` and its normalization into
  `{title, images}` entries;
- how asset paths are built with `relativePath`;
- which file names the home carousel, the albums listing, the selected-work
  strip and the album page show;
- the tile data of the albums listing;
- the carousel's position counter;
- the lightbox viewer, which is a state machine driven by a click listener
  and a keydown listener.

Modules, one per component of the script:

| module | file | what it holds |
|---|---|---|
| `Wrappers` | wrappers.dfy | `Option`, for presence tests and default arguments |
| `Seqs` | seqs.dfy | `IndexOf` (`Array.prototype.indexOf`) and its first-occurrence lemmas |
| `Decimal` | decimal.dfy | `${n}` for a natural number, and reading it back |
| `Paths` | paths.dfy | `relativePath` with its inverse `Split`, asset paths, the title derived from a name |
| `Catalog` | catalog.dfy | raw and normalized catalog values, `Dict` (a JavaScript object that is filled in place), the normalization loop |
| `Sections` | sections.dfy | the data chosen for the carousel, the selected-work strip and the album page |
| `Grid` | grid.dfy | the `gridData` loop and the tile loop of `buildAlbumsGrid` |
| `Carousel` | carousel.dfy | the position arithmetic and the `Track` class updated by prev, next and the timer |
| `Lightbox` | lightbox.dfy | the state transitions as functions, with lemmas, and the `Viewer` class whose methods perform them |
| `Page` | page.dfy | `init`: which sections are rendered, and from which documents |

Modelling decisions:

- **JavaScript objects.** An object is modelled as an ordered sequence of
  `(key, value)` pairs with distinct keys, in `Object.entries` order. The two
  objects the script fills in place (`normalized` and `gridData`) are `Dict`
  objects that a loop fills with `Set`.
- **Mutable state.** The lightbox variables (`lightboxImages`,
  `lightboxIndex`, the overlay's visibility and whether the prev/next buttons
  are displayed) are the fields of `Lightbox.Viewer`. The carousel's closure
  variable `index` and the track's `style.transform` are the fields of
  `Carousel.Track`.
- **Method contracts.** Each method's `ensures` ties the new state to a pure
  transition function: `AfterOpen`, `AfterClose`, `AfterPrev`, `AfterNext`,
  `AfterCommand`, `Forward` and `Backward`. The lemmas are proved about those
  functions.
- **Loaded documents are inputs.** A document that failed to load is `None`,
  and it becomes the empty object, as the `catch` does.
- **The album query parameter is an input.** It is `None` when the URL does
  not carry one.

Behaviour of the code that is easy to misread, modelled as the code does it:

- `selections['front-page'].images` wins whenever it is an array. An empty
  array is truthy, so an empty selection still wins over the catalog's
  `front-page` album (`Sections.CarouselPaths`).
- The thumbnail of an album with no images gets the source `''`. It is not
  left without an image (`Grid.TileOf`).
- A carousel over zero images would take a remainder by zero. The code does
  not guard against this, so `Carousel.Track` requires at least one slide
  instead of inventing a no-op.
- A selected-work click opens the lightbox at the first occurrence of the
  clicked file, not at the clicked position. `mountSelectedWork` ignores its
  index (`Lightbox.SelectedWorkClick`).

## Model

| member | source | states |
|---|---|---|
| `Seqs.IndexOf` | js/main.js:81-82 | the result is -1 exactly when the element is absent; otherwise it is a position holding the element with no earlier occurrence |
| `Seqs.IndexOfDistinct` | js/main.js:81 | in a list without repeats, the first occurrence of element `k` is `k` |
| `Seqs.IndexOfAtMost` | js/main.js:81 | the first occurrence of element `k` is at most `k`, and equals `k` iff the element does not occur earlier |
| `Decimal.NatToString` | js/main.js:49 | `${n}` is a non-empty string of digits with no leading zero |
| `Decimal.ValueOfNatToString` | js/main.js:49 | reading `${n}` back as a decimal gives `n` |
| `Decimal.NatToStringInjective` | js/main.js:49 | different counts print differently |
| `Paths.RelativePath` | js/main.js:7-9 | zero parts give `""`; otherwise the length is the total length of the parts plus one `/` between each pair of neighbours |
| `Paths.SplitRelativePath` | js/main.js:7-9 | splitting the joined string at `/` gives back the parts when no part contains `/`: nothing is merged, dropped or normalized |
| `Paths.RelativePathExamples` | js/main.js:7-9 | `("a","b","c")` gives `"a/b/c"`, `("a","","b")` gives `"a//b"` (no normalization), `()` gives `""` |
| `Paths.AssetPath` | js/main.js:173 | the path is `assets/images/<category>/<name>/<file>` |
| `Paths.FileOfAssetPath` | js/main.js:173 | an asset path with `/`-free segments splits back into its five segments |
| `Paths.SectionPaths` | js/main.js:181 | one path per file name, same length and order, each under `assets/images/<category>/<name>/` |
| `Paths.DerivedTitle` | js/main.js:148 | same length; every `-` becomes a space and every other character is unchanged |
| `Paths.DerivedTitleFixpoint` | js/main.js:48 | the derived title has no `-`; a name equals its derived title iff it has no `-`; deriving twice is deriving once |
| `Catalog.Find` | js/main.js:188 | `o[key]` is undefined exactly when the key is absent; otherwise the value is one stored under that key |
| `Catalog.FindUnique` | js/main.js:188 | with distinct keys, looking up a key gives the value stored with it |
| `Catalog.Dict.Entries` | js/main.js:172 | `Object.entries` lists the keys in insertion order with no repeats, each with its stored value |
| `Catalog.Dict.constructor` | js/main.js:144 | `{}` has no keys |
| `Catalog.Dict.Set` | js/main.js:147-157 | assigning a property appends a new key at the end and keeps an existing key in place; the value is replaced |
| `Catalog.NormalizeEntry` | js/main.js:146-158 | a bare list keeps its files; a titled object keeps its images; anything else has none. The title is the given one when non-empty, else the derived title, so it is empty only for an empty name |
| `Catalog.NormalizeAll` | js/main.js:144-159 | the normalized catalog has exactly the raw catalog's keys, in the same order |
| `Catalog.Normalize` | js/main.js:144-159 | the forEach loop that fills `normalized` produces exactly `NormalizeAll` of the catalog |
| `Catalog.FindNormalized` | js/main.js:144-159 | an album is in the normalized catalog iff it is in the raw one, and its entry is the normalization of its own raw value |
| `Catalog.NormalizedTitleNonEmpty` | js/main.js:148-157 | every album with a non-empty name gets a non-empty title |
| `Sections.SelectionImages` | js/main.js:163 | `selections[key] && selections[key].images`: the images array of the selection stored under the key, and none when the key is absent or its value has no `images` array |
| `Sections.CarouselPaths` | js/main.js:163-165 | the selection's `front-page` images win, under `selections`, even when empty; otherwise the catalog's `front-page` album under `albums`; otherwise no paths |
| `Sections.SelectedWorkPaths` | js/main.js:180-181 | the `selected_work` selection's images under `selections/selected_work`, or no paths |
| `Sections.GalleryAlbum` | js/main.js:187 | a missing or empty query parameter selects `front-page`; any other value is used as given |
| `Sections.GalleryView` | js/main.js:187-189 | a known album shows its normalized title and its paths under `albums/<album>`; an unknown one shows its derived title and no images |
| `Grid.CountLabel` | js/main.js:49 | the count label is exactly the decimal numeral of the count followed by `" images"` |
| `Grid.CountLabelValue` | js/main.js:49 | the part before `" images"` is `${n}`, a digit string whose value is the image count |
| `Grid.TileOf` | js/main.js:38-49 | the tile links to its album; the thumbnail is the first path or `''`; the title is the meta title when truthy, else the derived name; the count is the label of the path count |
| `Grid.GridDataOf` | js/main.js:171-174 | `gridData` has the normalized catalog's keys in order |
| `Grid.TilesOf` | js/main.js:37-52 | one tile per album |
| `Grid.GridData` | js/main.js:171-174 | the forEach loop that fills `gridData` produces exactly `GridDataOf` |
| `Grid.BuildAlbumsGrid` | js/main.js:37-52 | the tile loop emits exactly `TilesOf` of its input, in order |
| `Grid.CatalogTiles` | js/main.js:37-52 | for a loaded catalog, tile `i` is album `i`: thumbnail = its first asset path or `''`, title = its normalized title, count = the label of its image count |
| `Grid.SmallCountLabels` | js/main.js:49 | the counts 1 and 2 print as `"1 images"` and `"2 images"` (no singular form) |
| `Grid.SampleEntries` | js/main.js:144-159 | the sample catalog normalizes to `"Sunset"` with one image and `"rainy day"` with two |
| `Grid.TwoAlbumExample` | js/main.js:37-52 | the sample catalog's tiles read `"Sunset"`/`"1 images"` and `"rainy day"`/`"2 images"` |
| `Carousel.Forward` | js/main.js:29 | next stays below the slide count and wraps from the last slide to the first |
| `Carousel.Backward` | js/main.js:28 | prev stays below the slide count and wraps from the first slide to the last |
| `Carousel.BackwardForward` | js/main.js:28-29 | prev undoes next and next undoes prev |
| `Carousel.Advance` | js/main.js:29-30 | any number of next clicks or timer ticks keeps a valid position valid |
| `Carousel.AdvanceWithinRange` | js/main.js:29-30 | moves that do not pass the last slide count up by one each |
| `Carousel.AdvanceAdditive` | js/main.js:30 | `a` moves then `b` moves equal `a + b` moves |
| `Carousel.FullCycle` | js/main.js:29-30 | `total` next clicks or timer ticks return to the starting slide |
| `Carousel.Transform` | js/main.js:27 | the style is `translateX(-<n>%)`, with `<n>` the decimal of `index*100` |
| `Carousel.Track.constructor` | js/main.js:25-26 | the counter starts at 0 over a positive slide count, and no transform is set yet |
| `Carousel.Track.Update` | js/main.js:27 | `update` keeps the index and sets the track's transform to `Transform(index)` |
| `Carousel.Track.Prev` | js/main.js:28 | the prev handler keeps the index in range, moves it by `Backward` and updates the transform |
| `Carousel.Track.Next` | js/main.js:29 | the next handler keeps the index in range, moves it by `Forward` and updates the transform |
| `Carousel.Track.Tick` | js/main.js:30 | a timer tick keeps the index in range, moves it by `Forward` and updates the transform |
| `Lightbox.AfterOpen` | js/main.js:75-94 | the list becomes the given one (default `[src]`); the index is the first position of `src`, or 0 when absent; the overlay is shown; the nav buttons are shown iff there is more than one image; the invariant holds |
| `Lightbox.AfterClose` | js/main.js:96-102 | the overlay is hidden, the list is empty and the index is 0 |
| `Lightbox.AfterPrev` | js/main.js:104-109 | does nothing on an empty list; otherwise stays in range and wraps from the first image to the last |
| `Lightbox.AfterNext` | js/main.js:111-116 | does nothing on an empty list; otherwise stays in range and wraps from the last image to the first |
| `Lightbox.AfterCommand` | js/main.js:118-131 | every click or key keeps the invariant; keys change nothing while the overlay is hidden; close and backdrop clicks close whatever the state; Escape closes while shown; a prev click, or ArrowLeft while shown, performs `AfterPrev`; a next click, or ArrowRight while shown, performs `AfterNext` |
| `Lightbox.Current` | js/main.js:84 | the image shown, `lightboxImages[lightboxIndex]`: under the invariant there is one exactly when the list is non-empty, and it is the list's element at the index |
| `Lightbox.NextPrevInverse` | js/main.js:104-116 | next then prev, and prev then next, restore the state |
| `Lightbox.NavigationAfterClose` | js/main.js:96-116 | after a close, prev and next (clicked or keyed) are no-ops |
| `Lightbox.NextTimesWithinRange` | js/main.js:111-116 | next moves that do not pass the last image count up by one each |
| `Lightbox.NextTimesAdditive` | js/main.js:111-116 | `a` next moves then `b` equal `a + b` |
| `Lightbox.NextTimesFullCycle` | js/main.js:111-116 | as many next moves as there are images return to the starting state |
| `Lightbox.GalleryClick` | js/main.js:66 | a gallery image opens alone: list `[src]`, index 0, no nav buttons |
| `Lightbox.SelectedWorkClick` | js/main.js:197-202 | thumbnail `k` opens the whole strip at the first occurrence of its file: at `k` iff no earlier thumbnail repeats it, so always at `k` when the strip has no repeats |
| `Lightbox.ThreeImageWalk` | js/main.js:75-116 | opening `b.jpg` among a, b, c gives index 1; next gives 2; next wraps to 0; next after a close leaves the list empty and the index 0 |
| `Lightbox.Viewer.constructor` | js/main.js:72-73 | page load: empty list, index 0, overlay hidden |
| `Lightbox.Viewer.Open` | js/main.js:75-94 | `openLightbox` changes the fields as `AfterOpen` says and keeps the invariant |
| `Lightbox.Viewer.Close` | js/main.js:96-102 | `closeLightbox` changes the fields as `AfterClose` says |
| `Lightbox.Viewer.Prev` | js/main.js:104-109 | `lightboxPrev` changes the fields as `AfterPrev` says |
| `Lightbox.Viewer.Next` | js/main.js:111-116 | `lightboxNext` changes the fields as `AfterNext` says |
| `Lightbox.Viewer.Click` | js/main.js:118-123 | the click listener performs `AfterCommand` for the clicked control |
| `Lightbox.Viewer.KeyDown` | js/main.js:125-131 | the keydown listener performs `AfterCommand` for the key, doing nothing while hidden |
| `Page.Loaded` | js/main.js:135-140 | a document that failed to load becomes the empty object; a loaded one is used as is |
| `Page.PageView` | js/main.js:161-191 | a section is rendered exactly when its mount point is present |
| `Page.Init` | js/main.js:133-192 | `init` normalizes through the loop and computes every mounted section exactly as `PageView` |
| `Page.MissingCatalog` | js/main.js:135-136 | without `albums.json`: no tiles, the album page shows the derived title with no images, and the carousel comes only from the selections |
| `Page.IndependentLoads` | js/main.js:135-140 | the listing and the album page do not depend on the selections; the selected-work strip does not depend on the catalog |

## Left out

- `fetchJSON` and the `try/catch` around it: network I/O. The loaded documents are inputs of `Page.Init`, and a failed load is `None`. The warning logged on failure is not modelled.
- `setYear`: it reads the clock.
- `getQueryParam` and `encodeURIComponent`: browser URL library calls. The album parameter is an input. A tile records the album name its link targets, and the encoding of the link is not modelled.
- The `setInterval` scheduling: it belongs to the event loop. Only the effect of one firing is modelled, as `Carousel.Track.Tick`.
- A carousel over zero images: the source takes a remainder by zero, yielding `NaN`. `Carousel.Track` requires a positive slide count.
- DOM work, which is presentation only: element creation, `appendChild`, `innerHTML`, `loading='lazy'`, `className`, `img.src`, `style.display`, `hidden`. The overlay's visibility and the nav buttons' display are boolean fields. The image shown is `Lightbox.Current`.
- The early returns of `openLightbox` and `closeLightbox` when the overlay or image element is missing: the model assumes the lightbox markup is present.
- The carousel's prev and next buttons are assumed present. Without them `document.getElementById('prev').addEventListener` throws, and `init` stops before the albums, selected-work and gallery sections; `Page.PageView` does not model that abort.
- A loaded document is assumed to be an object. A document that parses to `null` makes `Object.entries(null)` or `selections['front-page']` throw, which `Page.PageView` does not model.
- The `if(prev && next)` guard on the nav buttons: the model assumes the buttons are present.
- The overlay's initial `hidden` attribute: it comes from the page markup. `Lightbox.Viewer.constructor` starts hidden.
- Clicks on other elements and other keys: the listeners ignore them, so they are not commands.
- Property keys that JavaScript orders before the others (integer-like names such as `"2019"`): the model takes the catalog in its `Object.entries` order. `albums` and `normalized` are ordered by the same rule, so normalization keeps that order either way.
- Inherited properties: `normalized['constructor']` and similar names would find `Object.prototype` members. Lookups only see the catalog's own keys.
- Catalog and selection values outside the documented shapes are reduced to the cases the script distinguishes. A title that is not a string is not modelled, and neither is a selection whose truthy `images` is not an array (`.map` would throw).
- scripts/generate_albums.py is not part of this model. It walks the filesystem and writes JSON, and its `human_title` depends on Python's Unicode `str.title()`.
