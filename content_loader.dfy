/**
 * The blog folder loader (`blog/content_loader.py`). A folder
 * `{root}/{name}` holds `content.md` (the post), `meta.md` (key: value lines,
 * a `---` separator, then the SNS text) and optionally `assets/` (images).
 * The file system is a map from paths to nodes; a directory lists its entry
 * names in the order the operating system returns them.
 */
module Loader {
  import opened Wrappers
  import opened Text
  import opened ContentModel
  import opened Sorting

  datatype Node = File(data: string) | Dir(names: seq<string>)

  type FileSystem = map<string, Node>

  /** `path / name`. */
  function PathJoin(dir: string, name: string): string
  {
    dir + "/" + name
  }

  /** `Path(path).name`: the part after the last `/`. */
  function BaseName(path: string): (r: string)
    ensures '/' !in r
  {
    match LastIndexOf(path, '/')
    case Some(i) =>
      path[i + 1..]
    case None => path
  }

  /** The name of a joined path is the name that was joined. */
  lemma BaseNameJoin(dir: string, name: string)
    requires '/' !in name
    ensures BaseName(PathJoin(dir, name)) == name
  {
    var p := PathJoin(dir, name);
    assert p[|dir|] == '/';
    assert forall j :: |dir| < j < |p| ==> p[j] == name[j - |dir| - 1];
    assert LastIndexOf(p, '/') == Some(|dir|);
    assert p[|dir| + 1..] == name;
  }

  // ----- meta.md -----

  /** A metadata value: a plain string, or a comma-separated list already split. */
  datatype MetaValue = Str(s: string) | Items(items: seq<string>)

  type Meta = map<string, MetaValue>

  /** The keys whose values are comma-separated lists. */
  predicate IsListKey(k: string)
  {
    k == "tags" || k == "categories" || k == "platforms"
  }

  /** `[t.strip() for t in value.split(",")]`: trimmed items in order; an empty value gives `[""]`. */
  function CommaList(value: string): (r: seq<string>)
    ensures |r| == |Split(value, ",")|
    ensures forall i :: 0 <= i < |r| ==> r[i] == Strip(Split(value, ",")[i])
    ensures value == "" ==> r == [""]
  {
    var parts := Split(value, ",");
    seq(|parts|, i requires 0 <= i < |parts| => Strip(parts[i]))
  }

  /**
   * One metadata line: `None` when it has no colon; otherwise the key and
   * value around the first colon, both trimmed, the value split into items
   * for the list keys.
   */
  function MetaEntry(line: string): (r: Option<(string, MetaValue)>)
    ensures r.None? <==> !Contains(line, ":")
    ensures r.Some? ==> exists i :: FirstColon(line, i) && r.value == EntryAt(line, i)
    ensures r.Some? && IsListKey(r.value.0) ==> r.value.1.Items?
    ensures r.Some? && !IsListKey(r.value.0) ==> r.value.1.Str?
  {
    match Find(line, ":")
    case None => None
    case Some(i) =>
      FindColon(line, i);
      Some(EntryAt(line, i))
  }

  lemma FindColon(line: string, i: nat)
    requires Find(line, ":") == Some(i)
    ensures FirstColon(line, i)
  {
    assert line[i..i + 1] == ":";
    forall j | 0 <= j < i
      ensures line[..i][j] != ':'
    {
      assert !OccursAt(line, ":", j) && line[j..j + 1] == [line[j]];
    }
  }

  /** Position `i` holds the first colon of `line`. */
  predicate FirstColon(line: string, i: int)
  {
    0 <= i < |line| && line[i] == ':' && ':' !in line[..i]
  }

  /** The entry `line.split(":", 1)` gives when it splits at `i`: key and value trimmed, list keys comma-split. */
  function EntryAt(line: string, i: nat): (string, MetaValue)
    requires i < |line|
  {
    var key := Strip(line[..i]);
    var value := Strip(line[i + 1..]);
    (key, if IsListKey(key) then Items(CommaList(value)) else Str(value))
  }

  /** The effect of one line on the metadata dict. */
  function ApplyLine(m: Meta, line: string): Meta
  {
    match MetaEntry(line)
    case None => m
    case Some(e) => m[e.0 := e.1]
  }

  /** The metadata dict after processing the lines in order. */
  function FoldLines(m: Meta, lines: seq<string>): Meta
    decreases |lines|
  {
    if lines == [] then m else FoldLines(ApplyLine(m, lines[0]), lines[1..])
  }

  /** `text.split("---", 1)` when `---` occurs, else the whole text and `""`. */
  function SplitMeta(text: string): (r: (string, string))
    ensures Contains(text, "---") ==> text == r.0 + "---" + r.1 && !Contains(r.0, "---")
    ensures !Contains(text, "---") ==> r == (text, "")
  {
    match Find(text, "---")
    case None => (text, "")
    case Some(i) =>
      assert text == text[..i] + "---" + text[i + 3..];
      assert !Contains(text[..i], "---") by {
        if Contains(text[..i], "---") {
          OccursInPrefix(text, "---", i, Find(text[..i], "---").value);
        }
      }
      (text[..i], text[i + 3..])
  }

  /** `meta_part.strip().split("\n")`. */
  function MetaLines(text: string): seq<string>
  {
    Split(Strip(SplitMeta(text).0), "\n")
  }

  /** What `_parse_meta_file` returns for the text of `meta.md`. */
  function MetaOf(text: string): Meta
  {
    FoldLines(map[], MetaLines(text))["sns_text" := Str(Strip(SplitMeta(text).1))]
  }

  lemma MetaOfUnfold(text: string, base: Meta)
    requires base == FoldLines(map[], MetaLines(text))
    ensures MetaOf(text) == base["sns_text" := Str(Strip(SplitMeta(text).1))]
  {
  }

  lemma FoldStep(m: Meta, lines: seq<string>, i: nat)
    requires i < |lines|
    ensures FoldLines(m, lines[i..]) == FoldLines(ApplyLine(m, lines[i]), lines[i + 1..])
  {
    assert lines[i..][1..] == lines[i + 1..];
  }

  /**
   * `_parse_meta_file`: fills the dict line by line, then stores the trimmed
   * text after the separator under `sns_text`.
   */
  method ParseMetaFile(text: string) returns (meta: Meta)
    ensures meta == MetaOf(text)
  {
    var parts := SplitMeta(text);
    var lines := Split(Strip(parts.0), "\n");
    meta := map[];
    var i := 0;
    assert lines[0..] == lines;
    while i < |lines|
      invariant 0 <= i <= |lines|
      invariant FoldLines(meta, lines[i..]) == FoldLines(map[], lines)
    {
      FoldStep(meta, lines, i);
      match MetaEntry(lines[i]) {
        case None =>
        case Some(e) =>
          meta := meta[e.0 := e.1];
      }
      i := i + 1;
    }
    assert lines[i..] == [];
    MetaOfUnfold(text, meta);
    meta := meta["sns_text" := Str(Strip(SplitMeta(text).1))];
  }

  /** The key a line sets, if any. */
  function LineKey(line: string): Option<string>
  {
    match MetaEntry(line)
    case None => None
    case Some(e) => Some(e.0)
  }

  lemma ApplyLineElsewhere(m: Meta, line: string, k: string)
    requires LineKey(line) != Some(k)
    ensures (k in ApplyLine(m, line)) == (k in m)
    ensures k in m ==> ApplyLine(m, line)[k] == m[k]
  {
    match MetaEntry(line)
    case None =>
    case Some(e) =>
      assert e.0 != k;
  }

  lemma ApplyLineHere(m: Meta, line: string)
    requires LineKey(line).Some?
    ensures var k := LineKey(line).value;
      k in ApplyLine(m, line) && ApplyLine(m, line)[k] == MetaEntry(line).value.1
  {
  }

  /** Lines that do not set `k` leave the value of `k` as it was. */
  lemma {:induction false} FoldKeepsUntouched(m: Meta, lines: seq<string>, k: string)
    requires forall j :: 0 <= j < |lines| ==> LineKey(lines[j]) != Some(k)
    ensures (k in FoldLines(m, lines)) == (k in m)
    ensures k in m ==> FoldLines(m, lines)[k] == m[k]
    decreases |lines|
  {
    if lines != [] {
      ApplyLineElsewhere(m, lines[0], k);
      FoldKeepsUntouched(ApplyLine(m, lines[0]), lines[1..], k);
    }
  }

  /** The last line that sets a key decides its value: later duplicates overwrite earlier ones. */
  lemma {:induction false} LastLineWins(m: Meta, lines: seq<string>, k: string, j: nat)
    requires j < |lines| && LineKey(lines[j]) == Some(k)
    requires forall j' :: j < j' < |lines| ==> LineKey(lines[j']) != Some(k)
    ensures k in FoldLines(m, lines) && FoldLines(m, lines)[k] == MetaEntry(lines[j]).value.1
    decreases |lines|
  {
    var m' := ApplyLine(m, lines[0]);
    if j == 0 {
      ApplyLineHere(m, lines[0]);
      forall j' | 0 <= j' < |lines[1..]| ensures LineKey(lines[1..][j']) != Some(k) {
        assert lines[1..][j'] == lines[j' + 1];
      }
      FoldKeepsUntouched(m', lines[1..], k);
    } else {
      assert lines[1..][j - 1] == lines[j];
      forall j' | j - 1 < j' < |lines[1..]| ensures LineKey(lines[1..][j']) != Some(k) {
        assert lines[1..][j'] == lines[j' + 1];
      }
      LastLineWins(m', lines[1..], k, j - 1);
    }
  }

  /** Lines without a colon are ignored. */
  lemma NoColonIgnored(m: Meta, line: string)
    requires !Contains(line, ":")
    ensures ApplyLine(m, line) == m
  {
  }

  /** `tags`, `categories` and `platforms` always hold lists. */
  lemma {:induction false} ListKeysHoldItems(m: Meta, lines: seq<string>, k: string)
    requires IsListKey(k)
    requires k in m ==> m[k].Items?
    ensures k in FoldLines(m, lines) ==> FoldLines(m, lines)[k].Items?
    decreases |lines|
  {
    if lines != [] {
      ListKeysHoldItems(ApplyLine(m, lines[0]), lines[1..], k);
    }
  }

  /**
   * `sns_text` is the trimmed text after the first `---` (anywhere in the
   * file, not only on a line of its own), overriding any `sns_text:` line;
   * without a separator it is empty.
   */
  lemma SnsTextFromSeparator(text: string)
    ensures "sns_text" in MetaOf(text)
    ensures Contains(text, "---") ==>
      exists pre :: text == pre + "---" + SplitMeta(text).1 && !Contains(pre, "---")
        && MetaOf(text)["sns_text"] == Str(Strip(SplitMeta(text).1))
    ensures !Contains(text, "---") ==> MetaOf(text)["sns_text"] == Str("")
  {
    if Contains(text, "---") {
      var pre := SplitMeta(text).0;
      assert text == pre + "---" + SplitMeta(text).1 && !Contains(pre, "---");
    }
  }

  // ----- assets/ -----

  /** The index of the last occurrence of `c`. */
  function LastIndexOf(s: string, c: char): (r: Option<nat>)
    ensures r.Some? ==> r.value < |s| && s[r.value] == c
    ensures r.Some? ==> forall j :: r.value < j < |s| ==> s[j] != c
    ensures r.None? ==> c !in s
  {
    if s == [] then None
    else if s[|s| - 1] == c then Some(|s| - 1)
    else
      assert s == s[..|s| - 1] + [s[|s| - 1]];
      LastIndexOf(s[..|s| - 1], c)
  }

  /** `PurePath(name).stem`: the name without its last suffix; a leading or trailing dot is not a suffix. */
  function Stem(name: string): (r: string)
    ensures StartsWith(name, r)
    ensures r == name || '.' !in name[|r| + 1..]
    ensures r != name ==> 0 < |r| < |name| - 1 && name[|r|] == '.'
    ensures r == name <==> forall i :: 0 < i < |name| - 1 ==> name[i] != '.' || '.' in name[i + 1..]
  {
    match LastIndexOf(name, '.')
    case Some(i) => if 0 < i < |name| - 1 then name[..i] else name
    case None => name
  }

  /** The sort key: the integer value of the stem's leading digits, or 999 when it has none. */
  function AssetKey(name: string): nat
  {
    var d := LeadingDigits(Stem(name));
    if d == "" then 999 else DigitsValue(d)
  }

  /** Each entry paired with its key, as `sorted` computes the key once per entry. */
  function Keyed(names: seq<string>): (r: seq<(nat, string)>)
    ensures |r| == |names|
    ensures forall i :: 0 <= i < |r| ==> r[i] == (AssetKey(names[i]), names[i])
  {
    seq(|names|, i requires 0 <= i < |names| => (AssetKey(names[i]), names[i]))
  }

  function Names(ps: seq<(nat, string)>): (r: seq<string>)
    ensures |r| == |ps| && forall i :: 0 <= i < |ps| ==> r[i] == ps[i].1
  {
    seq(|ps|, i requires 0 <= i < |ps| => ps[i].1)
  }

  /** `sorted(assets_dir.glob("*"), key=AssetKey)`. */
  function SortAssets(names: seq<string>): seq<string>
  {
    Names(SortBy(Keyed(names)))
  }

  /** The sorted assets are the listed entries, each once, in key order, ties kept in listing order. */
  lemma SortAssetsSpec(names: seq<string>, k: nat)
    ensures multiset(SortBy(Keyed(names))) == multiset(Keyed(names))
    ensures SortedBy(SortBy(Keyed(names)))
    ensures WithKey(SortBy(Keyed(names)), k) == WithKey(Keyed(names), k)
    ensures |SortAssets(names)| == |names|
  {
    SortByPermutes(Keyed(names));
    SortBySorted(Keyed(names));
    SortStable(Keyed(names), k);
  }

  /** A numbered asset sorts by the number in its name. */
  lemma AssetKeyNumbered()
    ensures AssetKey("2.png") == 2 && AssetKey("10.jpg") == 10
  {
    assert LastIndexOf("2.png", '.') == Some(1);
    assert LeadingDigits("2") == "2";
    assert LastIndexOf("10.jpg", '.') == Some(2);
    assert LeadingDigits("10") == "10";
    assert DigitsValue("10") == 10 by { assert "10"[..1] == "1"; }
  }

  /** A stem without leading digits gets key 999, so it sorts before `1000.jpg`. */
  lemma AssetKeyUnnumbered()
    ensures AssetKey("cover.jpg") == 999
  {
    assert LastIndexOf("cover.jpg", '.') == Some(5);
    assert Stem("cover.jpg") == "cover";
  }

  predicate IsFileAt(fs: FileSystem, dir: string, n: string)
  {
    PathJoin(dir, n) in fs && fs[PathJoin(dir, n)].File?
  }

  /** Only regular files are kept: `[str(f) for f in image_files if f.is_file()]`. */
  function KeepFiles(fs: FileSystem, dir: string, names: seq<string>): (r: seq<string>)
    ensures forall p :: p in r ==> p in fs && fs[p].File?
    ensures forall p :: p in r ==> exists n :: n in names && p == PathJoin(dir, n)
    ensures forall n :: n in names && IsFileAt(fs, dir, n) ==> PathJoin(dir, n) in r
    ensures |r| <= |names|
  {
    if names == [] then []
    else
      var p := PathJoin(dir, names[0]);
      (if p in fs && fs[p].File? then [p] else []) + KeepFiles(fs, dir, names[1..])
  }

  /** Keeping the files of a concatenation keeps them part by part: the listing order survives. */
  lemma {:induction false} KeepFilesAppend(fs: FileSystem, dir: string, a: seq<string>, b: seq<string>)
    ensures KeepFiles(fs, dir, a + b) == KeepFiles(fs, dir, a) + KeepFiles(fs, dir, b)
  {
    if a == [] {
      assert a + b == b;
    } else {
      var p := PathJoin(dir, a[0]);
      var h := if p in fs && fs[p].File? then [p] else [];
      assert (a + b)[0] == a[0];
      assert (a + b)[1..] == a[1..] + b;
      KeepFilesAppend(fs, dir, a[1..], b);
      assert h + (KeepFiles(fs, dir, a[1..]) + KeepFiles(fs, dir, b))
          == (h + KeepFiles(fs, dir, a[1..])) + KeepFiles(fs, dir, b);
    }
  }

  /** The listed names that are regular files under `dir`, in listing order. */
  function FileNames(fs: FileSystem, dir: string, names: seq<string>): (r: seq<string>)
    ensures forall n :: n in r <==> n in names && IsFileAt(fs, dir, n)
  {
    if names == [] then []
    else (if IsFileAt(fs, dir, names[0]) then [names[0]] else []) + FileNames(fs, dir, names[1..])
  }

  /** Each name joined to `dir`. */
  function Paths(dir: string, names: seq<string>): (r: seq<string>)
    ensures |r| == |names| && forall i :: 0 <= i < |names| ==> r[i] == PathJoin(dir, names[i])
  {
    seq(|names|, i requires 0 <= i < |names| => PathJoin(dir, names[i]))
  }

  /** The image paths of a folder: the files directly under `assets/`, sorted by key. */
  function AssetPaths(fs: FileSystem, assets: string): (r: seq<string>)
    ensures assets !in fs || fs[assets].File? ==> r == []
  {
    if assets in fs && fs[assets].Dir? then KeepFiles(fs, assets, SortAssets(fs[assets].names)) else []
  }

  lemma {:induction false} KeepFilesPaths(fs: FileSystem, dir: string, names: seq<string>)
    ensures KeepFiles(fs, dir, names) == Paths(dir, FileNames(fs, dir, names))
  {
    if names != [] {
      KeepFilesPaths(fs, dir, names[1..]);
      var f := FileNames(fs, dir, names[1..]);
      if IsFileAt(fs, dir, names[0]) {
        PathsCons(dir, names[0], f);
      }
    }
  }

  lemma PathsCons(dir: string, n: string, f: seq<string>)
    ensures Paths(dir, [n] + f) == [PathJoin(dir, n)] + Paths(dir, f)
  {
    var a := Paths(dir, [n] + f);
    var b := [PathJoin(dir, n)] + Paths(dir, f);
    forall i | 0 <= i < |a|
      ensures a[i] == b[i]
    {
      if i > 0 {
        assert ([n] + f)[i] == f[i - 1];
      }
    }
  }

  lemma KeyedCons(n: string, f: seq<string>)
    ensures Keyed([n] + f) == [(AssetKey(n), n)] + Keyed(f)
  {
    var a := Keyed([n] + f);
    var b := [(AssetKey(n), n)] + Keyed(f);
    forall i | 0 <= i < |a|
      ensures a[i] == b[i]
    {
      if i > 0 {
        assert ([n] + f)[i] == f[i - 1];
      }
    }
  }

  lemma {:induction false} FileNamesOfNames(fs: FileSystem, dir: string, ps: seq<(nat, string)>)
    ensures FileNames(fs, dir, Names(ps)) == Names(Filter(ps, n => IsFileAt(fs, dir, n)))
  {
    var p := n => IsFileAt(fs, dir, n);
    if ps != [] {
      assert Names(ps)[1..] == Names(ps[1..]);
      FileNamesOfNames(fs, dir, ps[1..]);
      var f := Filter(ps[1..], p);
      if p(ps[0].1) {
        assert Names([ps[0]] + f) == [ps[0].1] + Names(f);
      }
    }
  }

  lemma {:induction false} KeyedFileNames(fs: FileSystem, dir: string, names: seq<string>)
    ensures Keyed(FileNames(fs, dir, names)) == Filter(Keyed(names), n => IsFileAt(fs, dir, n))
  {
    var p := n => IsFileAt(fs, dir, n);
    if names != [] {
      assert Keyed(names)[1..] == Keyed(names[1..]);
      KeyedFileNames(fs, dir, names[1..]);
      var f := FileNames(fs, dir, names[1..]);
      if p(names[0]) {
        KeyedCons(names[0], f);
      }
    }
  }

  /**
   * Dropping the entries that are not files and sorting commute: the image
   * paths are the files of `assets/`, stably sorted by key.
   */
  lemma AssetPathsSorted(fs: FileSystem, assets: string)
    requires assets in fs && fs[assets].Dir?
    ensures AssetPaths(fs, assets) == Paths(assets, SortAssets(FileNames(fs, assets, fs[assets].names)))
  {
    var names := fs[assets].names;
    var p := n => IsFileAt(fs, assets, n);
    KeepFilesPaths(fs, assets, SortAssets(names));
    FileNamesOfNames(fs, assets, SortBy(Keyed(names)));
    SortByFilter(Keyed(names), p);
    KeyedFileNames(fs, assets, names);
  }

  /** Every sorted pair still carries its name's key. */
  lemma KeyedSorted(names: seq<string>)
    ensures Keyed(SortAssets(names)) == SortBy(Keyed(names))
  {
    var s := SortBy(Keyed(names));
    SortByPermutes(Keyed(names));
    forall i | 0 <= i < |s|
      ensures s[i] == (AssetKey(s[i].1), s[i].1)
    {
      assert s[i] in multiset(Keyed(names));
      var j :| 0 <= j < |names| && Keyed(names)[j] == s[i];
    }
  }

  function BaseNames(paths: seq<string>): (r: seq<string>)
    ensures |r| == |paths| && forall i :: 0 <= i < |paths| ==> r[i] == BaseName(paths[i])
  {
    seq(|paths|, i requires 0 <= i < |paths| => BaseName(paths[i]))
  }

  /**
   * The image paths are in non-decreasing key order, and for every key the
   * files holding it appear as in the directory listing: so each file of
   * `assets/` is named once, ties in listing order.
   */
  lemma AssetPathsOrder(fs: FileSystem, assets: string, k: nat)
    requires assets in fs && fs[assets].Dir?
    requires forall n :: n in fs[assets].names ==> '/' !in n
    ensures var r, files := AssetPaths(fs, assets), FileNames(fs, assets, fs[assets].names);
      && (forall i, j :: 0 <= i < j < |r| ==> AssetKey(BaseName(r[i])) <= AssetKey(BaseName(r[j])))
      && WithKey(Keyed(BaseNames(r)), k) == WithKey(Keyed(files), k)
      && |r| == |files|
  {
    var r, files := AssetPaths(fs, assets), FileNames(fs, assets, fs[assets].names);
    AssetPathsSorted(fs, assets);
    var sorted := SortAssets(files);
    SortAssetsOrdered(files, k);
    forall i | 0 <= i < |r|
      ensures BaseName(r[i]) == sorted[i]
    {
      BaseNameJoin(assets, sorted[i]);
    }
    assert BaseNames(r) == sorted;
  }

  lemma SortAssetsOrdered(names: seq<string>, k: nat)
    ensures var s := SortAssets(names);
      && (forall i, j :: 0 <= i < j < |s| ==> AssetKey(s[i]) <= AssetKey(s[j]))
      && WithKey(Keyed(s), k) == WithKey(Keyed(names), k)
      && (forall i :: 0 <= i < |s| ==> s[i] in names)
  {
    var s := SortAssets(names);
    KeyedSorted(names);
    SortAssetsSpec(names, k);
    forall i | 0 <= i < |s|
      ensures s[i] in names
    {
      assert SortBy(Keyed(names))[i] in multiset(Keyed(names));
      var j :| 0 <= j < |names| && Keyed(names)[j] == SortBy(Keyed(names))[i];
    }
    forall i, j | 0 <= i < j < |s|
      ensures AssetKey(s[i]) <= AssetKey(s[j])
    {
      assert Keyed(s)[i].0 <= Keyed(s)[j].0;
    }
  }

  // ----- load_from_folder -----

  /** What `load_from_folder` returns. */
  datatype Loaded = Loaded(blogContent: Content, snsText: string, platforms: seq<string>)

  /** `FileNotFoundError` for a missing item, or a read error for an item that is a directory. */
  datatype LoadError = FolderNotFound(path: string) | ContentNotFound(path: string)
                     | MetaNotFound(path: string) | Unreadable(path: string)

  function GetStr(m: Meta, k: string, default: string): string
  {
    if k in m && m[k].Str? then m[k].s else default
  }

  function GetItems(m: Meta, k: string, default: seq<string>): seq<string>
  {
    if k in m && m[k].Items? then m[k].items else default
  }

  /**
   * The record and bundle built from the parsed parts: a blog-kind record
   * whose title defaults to the folder name, tags and categories to empty
   * lists, images absent when there are none, dated `now`; the SNS text; the
   * platforms defaulting to `["x", "threads"]`.
   */
  function Assemble(folder: string, text: string, meta: Meta, images: seq<string>, now: DateTime): (r: Loaded)
    ensures r.blogContent.contentType == Blog && r.blogContent.text == text
    ensures r.blogContent.title == Some(if "title" in meta && meta["title"].Str? then meta["title"].s else folder)
    ensures "title" !in meta ==> r.blogContent.title == Some(folder)
    ensures "tags" !in meta ==> r.blogContent.tags == Some([])
    ensures "categories" !in meta ==> r.blogContent.categories == Some([])
    ensures "platforms" !in meta ==> r.platforms == ["x", "threads"]
    ensures "tags" in meta && meta["tags"].Items? ==> r.blogContent.tags == Some(meta["tags"].items)
    ensures "categories" in meta && meta["categories"].Items? ==> r.blogContent.categories == Some(meta["categories"].items)
    ensures "platforms" in meta && meta["platforms"].Items? ==> r.platforms == meta["platforms"].items
    ensures r.snsText == if "sns_text" in meta && meta["sns_text"].Str? then meta["sns_text"].s else ""
    ensures r.blogContent.imagePaths == (if images == [] then None else Some(images))
    ensures r.blogContent.date == Some(now)
    ensures r.blogContent.platforms == [] && r.blogContent.slug.None?
  {
    var content := Content(Blog, text, Some(GetStr(meta, "title", folder)),
                           if images == [] then None else Some(images), None,
                           Some(GetItems(meta, "tags", [])), [], None, None, None, Some(now),
                           Some(GetItems(meta, "categories", [])));
    Loaded(content, GetStr(meta, "sns_text", ""), GetItems(meta, "platforms", ["x", "threads"]))
  }

  /**
   * `load_from_folder`: the folder, `content.md` and `meta.md` are checked in
   * that order, each failure naming the missing item; otherwise the bundle
   * is assembled from the two files and the sorted assets.
   */
  method LoadFromFolder(fs: FileSystem, root: string, folder: string, now: DateTime)
    returns (r: Result<Loaded, LoadError>)
    ensures var dir := PathJoin(root, folder);
      dir !in fs ==> r == Err(FolderNotFound(dir))
    ensures var dir := PathJoin(root, folder);
      dir in fs && PathJoin(dir, "content.md") !in fs ==> r == Err(ContentNotFound(PathJoin(dir, "content.md")))
    ensures var dir := PathJoin(root, folder);
      var c, m := PathJoin(dir, "content.md"), PathJoin(dir, "meta.md");
      dir in fs && c in fs && fs[c].File? && m !in fs ==> r == Err(MetaNotFound(m))
    ensures r.Ok? <==> var dir := PathJoin(root, folder);
      var c, m := PathJoin(dir, "content.md"), PathJoin(dir, "meta.md");
      dir in fs && c in fs && fs[c].File? && m in fs && fs[m].File?
    ensures r.Ok? ==> var dir := PathJoin(root, folder);
      r.value == Assemble(folder, fs[PathJoin(dir, "content.md")].data,
                          MetaOf(fs[PathJoin(dir, "meta.md")].data),
                          AssetPaths(fs, PathJoin(dir, "assets")), now)
  {
    var dir := PathJoin(root, folder);
    if dir !in fs {
      return Err(FolderNotFound(dir));
    }
    var contentFile := PathJoin(dir, "content.md");
    if contentFile !in fs {
      return Err(ContentNotFound(contentFile));
    }
    if fs[contentFile].Dir? {
      return Err(Unreadable(contentFile));
    }
    var text := fs[contentFile].data;
    var metaFile := PathJoin(dir, "meta.md");
    if metaFile !in fs {
      return Err(MetaNotFound(metaFile));
    }
    if fs[metaFile].Dir? {
      return Err(Unreadable(metaFile));
    }
    var meta := ParseMetaFile(fs[metaFile].data);
    var images := AssetPaths(fs, PathJoin(dir, "assets"));
    return Ok(Assemble(folder, text, meta, images, now));
  }

  // ----- list_folders -----

  predicate IsListedFolder(fs: FileSystem, root: string, name: string)
  {
    PathJoin(root, name) in fs && fs[PathJoin(root, name)].Dir? && !StartsWith(name, ".")
  }

  function FilterFolders(fs: FileSystem, root: string, names: seq<string>): (r: seq<string>)
    ensures forall n :: n in r <==> n in names && IsListedFolder(fs, root, n)
    ensures |r| <= |names|
  {
    if names == [] then []
    else (if IsListedFolder(fs, root, names[0]) then [names[0]] else []) + FilterFolders(fs, root, names[1..])
  }

  /**
   * `list_folders`: exactly the subdirectories of the root whose names do
   * not start with a dot, in listing order; nothing when the root is
   * absent. A root that is a regular file cannot be listed (`None`).
   */
  function ListFolders(fs: FileSystem, root: string): (r: Option<seq<string>>)
    ensures root !in fs ==> r == Some([])
    ensures r.None? <==> root in fs && fs[root].File?
    ensures root in fs && fs[root].Dir? ==>
      forall n :: n in r.value <==> n in fs[root].names && IsListedFolder(fs, root, n)
  {
    if root !in fs then Some([])
    else match fs[root]
      case File(_) => None
      case Dir(names) => Some(FilterFolders(fs, root, names))
  }
}
