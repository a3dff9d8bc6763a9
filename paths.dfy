/** Asset paths and name-derived titles (js/main.js `relativePath` and the
    `name.replace(/-/g,' ')` rule). */
module Paths {

  /** Sum of the lengths of the parts. */
  function TotalLength(parts: seq<string>): nat {
    if parts == [] then 0 else |parts[0]| + TotalLength(parts[1..])
  }

  /** `relativePath(...parts)`, i.e. `parts.join('/')`: the parts in order with
      one '/' between neighbours and nothing removed, added or encoded. */
  function RelativePath(parts: seq<string>): (r: string)
    ensures parts == [] ==> r == ""
    ensures parts != [] ==> |r| == TotalLength(parts) + |parts| - 1
  {
    if parts == [] then ""
    else if |parts| == 1 then parts[0]
    else parts[0] + "/" + RelativePath(parts[1..])
  }

  /** Cutting a string at every '/': the inverse of `RelativePath` for parts
      that contain no '/'. */
  function Split(s: string): (r: seq<string>)
    ensures |r| >= 1
  {
    if s == [] then [""]
    else if s[0] == '/' then [""] + Split(s[1..])
    else
      var t := Split(s[1..]);
      [[s[0]] + t[0]] + t[1..]
  }

  /** A '/'-free prefix glues onto the first piece. */
  lemma {:induction false} SplitPrefix(p: string, s: string)
    requires '/' !in p
    ensures Split(p + s) == [p + Split(s)[0]] + Split(s)[1..]
  {
    if p != [] {
      assert (p + s)[0] == p[0];
      assert (p + s)[1..] == p[1..] + s;
      SplitPrefix(p[1..], s);
      assert [p[0]] + (p[1..] + Split(s)[0]) == p + Split(s)[0];
    } else {
      var t := Split(s);
      assert p + s == s && p + t[0] == t[0];
      assert t == [t[0]] + t[1..];
    }
  }

  /** Joining '/'-free parts and splitting the result gives the parts back:
      `relativePath` loses nothing and merges nothing. */
  lemma {:induction false} SplitRelativePath(parts: seq<string>)
    requires parts != []
    requires forall i :: 0 <= i < |parts| ==> '/' !in parts[i]
    ensures Split(RelativePath(parts)) == parts
  {
    if |parts| == 1 {
      SplitPrefix(parts[0], "");
      assert parts[0] + "" == parts[0];
    } else {
      var rest := RelativePath(parts[1..]);
      assert RelativePath(parts) == parts[0] + ("/" + rest);
      SplitRelativePath(parts[1..]);
      SplitPrefix(parts[0], "/" + rest);
      assert ("/" + rest)[0] == '/' && ("/" + rest)[1..] == rest;
      var t := Split("/" + rest);
      assert t == [""] + parts[1..];
      assert t[0] == "" && t[1..] == parts[1..];
      assert parts[0] + t[0] == parts[0];
      assert parts == [parts[0]] + parts[1..];
    }
  }

  /** The joining rule on the inputs `("a","b","c")`, `("a","","b")` and `()`. */
  lemma RelativePathExamples()
    ensures RelativePath(["a", "b", "c"]) == "a/b/c"
    ensures RelativePath(["a", "", "b"]) == "a//b"
    ensures RelativePath([]) == ""
  {
    assert RelativePath(["c"]) == "c";
    assert RelativePath(["b", "c"]) == "b/c";
    assert RelativePath(["", "b"]) == "/b";
  }

  /** `relativePath('assets','images',category,name,file)`. */
  function AssetPath(category: string, name: string, file: string): (r: string)
    ensures r == "assets/images/" + category + "/" + name + "/" + file
  {
    var parts := ["assets", "images", category, name, file];
    assert RelativePath(parts[3..]) == name + "/" + file;
    assert RelativePath(parts[2..]) == category + "/" + name + "/" + file;
    assert RelativePath(parts[1..]) == "images/" + category + "/" + name + "/" + file;
    RelativePath(parts)
  }

  /** The file name can be read back from an asset path whose segments contain
      no '/'. */
  lemma FileOfAssetPath(category: string, name: string, file: string)
    requires '/' !in category && '/' !in name && '/' !in file
    ensures Split(AssetPath(category, name, file)) == ["assets", "images", category, name, file]
  {
    SplitRelativePath(["assets", "images", category, name, file]);
  }

  /** `files.map(f => relativePath('assets','images',category,name,f))`:
      one asset path per file name, same length, same order. */
  function SectionPaths(category: string, name: string, files: seq<string>): (r: seq<string>)
    ensures |r| == |files|
    ensures forall i :: 0 <= i < |files| ==>
              r[i] == "assets/images/" + category + "/" + name + "/" + files[i]
  {
    seq(|files|, i requires 0 <= i < |files| => AssetPath(category, name, files[i]))
  }

  /** `name.replace(/-/g,' ')`: the display title derived from an album name. */
  function DerivedTitle(name: string): (r: string)
    ensures |r| == |name|
    ensures forall i :: 0 <= i < |name| ==>
              r[i] == (if name[i] == '-' then ' ' else name[i])
  {
    if name == [] then []
    else [if name[0] == '-' then ' ' else name[0]] + DerivedTitle(name[1..])
  }

  /** The derived title contains no '-', and a name is its own derived title
      exactly when it contains no '-'; so deriving twice equals deriving once. */
  lemma DerivedTitleFixpoint(name: string)
    ensures '-' !in DerivedTitle(name)
    ensures DerivedTitle(name) == name <==> '-' !in name
    ensures DerivedTitle(DerivedTitle(name)) == DerivedTitle(name)
  {
    var r := DerivedTitle(name);
    assert '-' !in r by {
      forall i | 0 <= i < |r| ensures r[i] != '-' { }
    }
    if '-' in name {
      var i :| 0 <= i < |name| && name[i] == '-';
      assert r[i] == ' ';
    } else {
      assert forall i :: 0 <= i < |name| ==> r[i] == name[i];
    }
    var rr := DerivedTitle(r);
    assert forall i :: 0 <= i < |r| ==> rr[i] == r[i];
  }
}
