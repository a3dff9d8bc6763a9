/** The album catalog and its normalization (js/main.js, inside `init`). */
module Catalog {
  import opened Wrappers
  import Seqs
  import Paths

  /** One value of `data/albums.json` as the page script tells them apart. */
  datatype Raw =
    | BareList(files: seq<string>)                        // "name": ["1.jpg", ...]
    | Titled(title: Option<string>, images: seq<string>)  // "name": {title?, images: [...]}
    | Malformed                                           // anything else

  /** The canonical entry every raw value becomes. */
  datatype Entry = Entry(title: string, images: seq<string>)

  /** The keys of an ordered key/value listing (`Object.entries(o)`), in order. */
  function Keys<V>(d: seq<(string, V)>): seq<string> {
    seq(|d|, i requires 0 <= i < |d| => d[i].0)
  }

  /** A JavaScript object never holds one key twice. */
  predicate UniqueKeys<V>(d: seq<(string, V)>) {
    Seqs.Distinct(Keys(d))
  }

  /** `o[key]` on an object listed as `d`: the value of the first pair whose key
      is `key`, or `None` for undefined. */
  function Find<V>(d: seq<(string, V)>, key: string): (r: Option<V>)
    ensures r.None? <==> key !in Keys(d)
    ensures r.Some? ==> exists i :: 0 <= i < |d| && d[i] == (key, r.value)
  {
    var k := Seqs.IndexOf(Keys(d), key);
    if k == -1 then None else Some(d[k].1)
  }

  /** Under unique keys, `Find` returns the pair that holds the key. */
  lemma FindUnique<V>(d: seq<(string, V)>, i: nat)
    requires UniqueKeys(d) && i < |d|
    ensures Find(d, d[i].0) == Some(d[i].1)
  {
    Seqs.IndexOfDistinct(Keys(d), i);
  }

  /** A JavaScript object as the page script builds one: its keys in insertion
      order and the value stored under each. */
  class Dict<V> {
    var keys: seq<string>
    var values: map<string, V>

    ghost predicate Valid()
      reads this
    {
      Seqs.Distinct(keys) && (forall k :: k in values <==> k in keys)
    }

    /** `Object.entries(this)`. */
    function Entries(): (r: seq<(string, V)>)
      reads this
      requires Valid()
      ensures Keys(r) == keys && UniqueKeys(r)
      ensures forall i :: 0 <= i < |r| ==> r[i].1 == values[keys[i]]
    {
      assert forall i :: 0 <= i < |keys| ==> keys[i] in values;
      var r := seq(|keys|, i requires 0 <= i < |keys| && keys[i] in values reads this => (keys[i], values[keys[i]]));
      assert Keys(r) == keys;
      r
    }

    /** `{}` */
    constructor ()
      ensures Valid() && keys == [] && values == map[]
    {
      keys := [];
      values := map[];
    }

    /** `this[key] = value`: a new key goes last, an existing one keeps its place. */
    method Set(key: string, value: V)
      requires Valid()
      modifies this
      ensures Valid()
      ensures keys == if key in old(keys) then old(keys) else old(keys) + [key]
      ensures values == old(values)[key := value]
    {
      if key !in keys {
        keys := keys + [key];
      }
      values := values[key := value];
    }
  }

  /** The normalized entry of the album `name` whose raw value is `raw`. */
  function NormalizeEntry(name: string, raw: Raw): (e: Entry)
    ensures e.images == match raw
                        case BareList(files) => files
                        case Titled(_, images) => images
                        case Malformed => []
    ensures raw.Titled? && raw.title.Some? && raw.title.value != "" ==> e.title == raw.title.value
    ensures !(raw.Titled? && raw.title.Some? && raw.title.value != "") ==> e.title == Paths.DerivedTitle(name)
    ensures e.title == "" ==> name == ""
  {
    match raw
    case BareList(files) => Entry(Paths.DerivedTitle(name), files)
    case Titled(title, images) =>
      // `value.title || name.replace(/-/g,' ')`: an empty title counts as absent
      var t := title.GetOr("");
      Entry(if t != "" then t else Paths.DerivedTitle(name), images)
    case Malformed => Entry(Paths.DerivedTitle(name), [])
  }

  /** The normalized catalog: every key kept, in order, with its entry. */
  function NormalizeAll(catalog: seq<(string, Raw)>): (r: seq<(string, Entry)>)
    ensures Keys(r) == Keys(catalog)
  {
    var r := seq(|catalog|, i requires 0 <= i < |catalog| =>
                   (catalog[i].0, NormalizeEntry(catalog[i].0, catalog[i].1)));
    assert Keys(r) == Keys(catalog);
    r
  }

  /** The forEach loop that fills `normalized`, returning
      `Object.entries(normalized)`. */
  method Normalize(albums: seq<(string, Raw)>) returns (normalized: seq<(string, Entry)>)
    requires UniqueKeys(albums)
    ensures normalized == NormalizeAll(albums)
  {
    var d := new Dict<Entry>();
    var i := 0;
    while i < |albums|
      invariant 0 <= i <= |albums|
      invariant d.Valid()
      invariant d.keys == Keys(albums[..i])
      invariant forall j :: 0 <= j < i ==> albums[j].0 in d.values
      invariant forall j :: 0 <= j < i ==>
                  d.values[albums[j].0] == NormalizeEntry(albums[j].0, albums[j].1)
    {
      var (name, value) := albums[i];
      assert name !in d.keys by {
        assert Keys(albums)[i] == name;
        forall j | 0 <= j < i ensures d.keys[j] != name && albums[j].0 != name {
          assert d.keys[j] == Keys(albums)[j] == albums[j].0;
        }
      }
      d.Set(name, NormalizeEntry(name, value));
      assert Keys(albums[..i + 1]) == Keys(albums[..i]) + [name];
      i := i + 1;
    }
    assert albums[..i] == albums;
    normalized := d.Entries();
    assert normalized == NormalizeAll(albums);
  }

  /** Normalization keeps every key and maps each key to the normalized form
      of its own raw value. */
  lemma {:induction false} FindNormalized(catalog: seq<(string, Raw)>, name: string)
    ensures Find(NormalizeAll(catalog), name) ==
              match Find(catalog, name)
              case None => None
              case Some(raw) => Some(NormalizeEntry(name, raw))
  {
    var n := NormalizeAll(catalog);
    assert Keys(n) == Keys(catalog);
  }

  /** An album that is present has a non-empty title unless its name is empty. */
  lemma NormalizedTitleNonEmpty(catalog: seq<(string, Raw)>, i: nat)
    requires i < |catalog| && catalog[i].0 != ""
    ensures NormalizeAll(catalog)[i].1.title != ""
  {
  }
}
