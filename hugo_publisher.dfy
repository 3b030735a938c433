/**
 * The Hugo blog publisher (`blog/hugo_publisher.py`): validation, the Hugo
 * front matter, slugs and post URLs, the image upload map and the rewriting
 * of image paths, reading a post back, and the classification of git
 * failures. Git, the file writes and the uploader are outcomes passed in.
 */
module Hugo {
  import opened Wrappers
  import opened Text
  import opened ContentModel
  import Dict
  import Loader
  import Translator

  /** The `hugo` section of the configuration, with the constructor's defaults. */
  datatype Settings = Settings(repoPath: string, contentDir: string, baseUrl: string,
                               defaultLanguage: string, languages: seq<string>)

  datatype BlogError =
    | ValueError(message: string)
    | FileNotFound(message: string)
    | TypeError(message: string)
    | Unreadable(path: string)
    | RuntimeError(message: string)

  // ----- validate -----

  predicate HasTitle(c: Content)
  {
    c.title.Some? && c.title.value != ""
  }

  /**
   * `validate`: blank text, then a missing or empty title, then a missing
   * repository, the first failing check deciding the error.
   */
  function Validate(s: Settings, c: Content, repoExists: bool): (r: Result<bool, BlogError>)
    ensures IsBlank(c.text) ==> r == Err(ValueError("Text content is required"))
    ensures !IsBlank(c.text) && !HasTitle(c) ==> r == Err(ValueError("Title is required"))
    ensures !IsBlank(c.text) && HasTitle(c) && !repoExists
            ==> r == Err(FileNotFound("Blog repository not found: " + s.repoPath))
    ensures r.Ok? <==> !IsBlank(c.text) && HasTitle(c) && repoExists
    ensures r.Ok? ==> r.value
  {
    if IsBlank(c.text) then Err(ValueError("Text content is required"))
    else if !HasTitle(c) then Err(ValueError("Title is required"))
    else if !repoExists then Err(FileNotFound("Blog repository not found: " + s.repoPath))
    else Ok(true)
  }

  // ----- the date stamp -----

  /** `strftime("%Y-%m-%dT%H:%M:%S+09:00")`: local time, always labelled +09:00. */
  function DateStamp(d: DateTime): (r: string)
    ensures |r| == 25
  {
    Pad(d.year, 4) + "-" + Pad(d.month, 2) + "-" + Pad(d.day, 2) + "T"
    + Pad(d.hour, 2) + ":" + Pad(d.minute, 2) + ":" + Pad(d.second, 2) + "+09:00"
  }

  /** The digits field `s[i..i + w]`, read as a number. */
  function Field(s: string, i: nat, w: nat): Option<nat>
  {
    if i + w <= |s| && AllDigits(s[i..i + w]) then Some(DigitsValue(s[i..i + w])) else None
  }

  /** Reads a date stamp back, checking every separator. */
  function ParseDateStamp(s: string): (r: Option<DateTime>)
    ensures r.Some? ==> |s| == 25 && s[19..] == "+09:00"
  {
    if |s| != 25 || s[4] != '-' || s[7] != '-' || s[10] != 'T' || s[13] != ':' || s[16] != ':'
       || s[19..] != "+09:00" then None
    else
      var y, mo, d, h, mi, se := Field(s, 0, 4), Field(s, 5, 2), Field(s, 8, 2),
                                 Field(s, 11, 2), Field(s, 14, 2), Field(s, 17, 2);
      if y.None? || mo.None? || d.None? || h.None? || mi.None? || se.None? then None
      else Some(DateTime(y.value, mo.value, d.value, h.value, mi.value, se.value))
  }

  lemma FieldOfPad(s: string, i: nat, n: nat, w: nat)
    requires i + w <= |s| && s[i..i + w] == Pad(n, w) && n < Pow10(w)
    ensures Field(s, i, w) == Some(n)
  {
    PadValue(n, w);
  }

  /** Where each field sits in the stamp. */
  lemma StampLayout(y: string, mo: string, da: string, h: string, mi: string, se: string)
    requires |y| == 4 && |mo| == 2 && |da| == 2 && |h| == 2 && |mi| == 2 && |se| == 2
    ensures var s := y + "-" + mo + "-" + da + "T" + h + ":" + mi + ":" + se + "+09:00";
      s[0..4] == y && s[5..7] == mo && s[8..10] == da && s[11..13] == h && s[14..16] == mi
      && s[17..19] == se && s[4] == '-' && s[7] == '-' && s[10] == 'T' && s[13] == ':'
      && s[16] == ':' && s[19..] == "+09:00"
  {
  }

  /** Every field of a valid date-time reads back from its stamp. */
  lemma DateStampRoundTrip(d: DateTime)
    requires ValidDateTime(d)
    ensures ParseDateStamp(DateStamp(d)) == Some(d)
  {
    var s := DateStamp(d);
    StampLayout(Pad(d.year, 4), Pad(d.month, 2), Pad(d.day, 2), Pad(d.hour, 2), Pad(d.minute, 2), Pad(d.second, 2));
    assert Pow10(2) == 100 && Pow10(4) == 10000;
    FieldOfPad(s, 0, d.year, 4);
    FieldOfPad(s, 5, d.month, 2);
    FieldOfPad(s, 8, d.day, 2);
    FieldOfPad(s, 11, d.hour, 2);
    FieldOfPad(s, 14, d.minute, 2);
    FieldOfPad(s, 17, d.second, 2);
  }

  // ----- format_content -----

  /** `x or []`: an absent list is rendered as the empty list. */
  function OrEmpty(xs: Option<seq<string>>): seq<string>
  {
    if xs.Some? then xs.value else []
  }

  /** The lines between the two `---` delimiters. */
  function FrontMatterLines(c: Content, now: DateTime): string
  {
    "\ntitle: \"" + Shown(c.title) + "\"\ndate: " + DateStamp(c.date.GetOr(now))
    + "\ndraft: false\ntags: " + PyList(OrEmpty(c.tags))
    + "\ncategories: " + PyList(OrEmpty(c.categories)) + "\n"
  }

  /** The front matter block, ending in a blank line. */
  function FrontMatter(c: Content, now: DateTime): string
  {
    "---" + FrontMatterLines(c, now) + "---\n\n"
  }

  /** `_generate_slug` needs a title: `unicodedata.normalize` rejects `None`. */
  function PostSlug(c: Content, now: DateTime): (r: Result<string, BlogError>)
    ensures c.slug.Some? && c.slug.value != "" ==> r == Ok(c.slug.value)
    ensures r.Err? <==> (c.slug.None? || c.slug.value == "") && c.title.None?
  {
    if c.slug.Some? && c.slug.value != "" then Ok(c.slug.value)
    else if c.title.None? then Err(TypeError("normalize() argument 2 must be str, not None"))
    else Ok(GenerateSlug(c.title.value, now))
  }

  datatype Formatted = Formatted(markdown: string, slug: string)

  /**
   * `format_content`: the front matter followed by the text unchanged, and
   * the slug (the record's own when set, else generated from the title).
   */
  function FormatContent(c: Content, now: DateTime): (r: Result<Formatted, BlogError>)
    ensures r.Ok? <==> PostSlug(c, now).Ok?
    ensures r.Ok? ==> r.value.slug == PostSlug(c, now).value
    ensures r.Ok? ==> r.value.markdown == FrontMatter(c, now) + c.text
  {
    match PostSlug(c, now)
    case Err(e) => Err(e)
    case Ok(slug) => Ok(Formatted(FrontMatter(c, now) + c.text, slug))
  }

  /** Absent tags and categories are written as empty lists. */
  lemma AbsentListsEmpty(c: Content, now: DateTime)
    requires c.tags.None? && c.categories.None?
    ensures FrontMatterLines(c, now)
            == "\ntitle: \"" + Shown(c.title) + "\"\ndate: " + DateStamp(c.date.GetOr(now))
               + "\ndraft: false\ntags: []\ncategories: []\n"
  {
    assert PyList([]) == "[]" by {
      assert Quoted([]) == [];
    }
  }

  /** Tags are written the way Python prints a list of strings. */
  lemma PyListExample()
    ensures PyList(["test", "hugo"]) == "['test', 'hugo']"
  {
    var q := Quoted(["test", "hugo"]);
    assert "'" + "test" + "'" == "'test'" && "'" + "hugo" + "'" == "'hugo'";
    assert q == ["'test'"] + ["'hugo'"];
    assert Join(q, ", ") == "'test'" + ", " + "'hugo'" by {
      JoinCons("'test'", ["'hugo'"], ", ");
    }
  }


  // ----- read_post -----

  /**
   * The body `read_post` keeps: the trimmed text after the closing `---`
   * when the text opens with `---` and has a closing delimiter, otherwise
   * the whole text, untrimmed.
   */
  function PostBody(text: string): (r: string)
    ensures SplitFrontMatter(text).None? ==> r == text
    ensures SplitFrontMatter(text).Some? ==> r == Strip(SplitFrontMatter(text).value.1)
  {
    match SplitFrontMatter(text)
    case Some(parts) => Strip(parts.1)
    case None => text
  }

  /** `read_post`: a missing file is an error; otherwise a blog record titled by the file's stem. */
  function ReadPost(fs: Loader.FileSystem, path: string): (r: Result<Content, BlogError>)
    ensures path !in fs ==> r == Err(FileNotFound("File not found: " + path))
    ensures r.Ok? <==> path in fs && fs[path].File?
    ensures r.Ok? ==> r.value.contentType == Blog && r.value.text == PostBody(fs[path].data)
                      && r.value.title == Some(Loader.Stem(Loader.BaseName(path)))
  {
    if path !in fs then Err(FileNotFound("File not found: " + path))
    else match fs[path]
      case Dir(_) => Err(Unreadable(path))
      case File(text) => Ok(Make(Blog, PostBody(text)).(title := Some(Loader.Stem(Loader.BaseName(path)))))
  }

  /** A text that does not open with `---` is the body as it stands. */
  lemma PostBodyWithoutFrontMatter(text: string)
    requires !StartsWith(text, "---")
    ensures PostBody(text) == text
  {
  }

  // ----- reading the front matter back -----

  /** Three hyphens in a row, starting at `i`. */
  predicate RunAt(s: string, i: int)
  {
    0 <= i && i + 3 <= |s| && s[i] == '-' && s[i + 1] == '-' && s[i + 2] == '-'
  }

  ghost predicate RunFree(s: string)
  {
    forall i :: !RunAt(s, i)
  }

  lemma RunAtOccurs(s: string, i: int)
    ensures OccursAt(s, "---", i) <==> RunAt(s, i)
  {
    if 0 <= i && i + 3 <= |s| {
      assert s[i..i + 3][0] == s[i] && s[i..i + 3][1] == s[i + 1] && s[i..i + 3][2] == s[i + 2];
      if RunAt(s, i) {
        assert s[i..i + 3] == "---";
      }
    }
  }

  /** A text without a run of three hyphens does not contain `---`. */
  lemma RunFreeNotContains(s: string)
    requires RunFree(s)
    ensures !Contains(s, "---")
  {
    if Contains(s, "---") {
      RunAtOccurs(s, Find(s, "---").value);
    }
  }

  lemma NotContainsRunFree(s: string)
    requires !Contains(s, "---")
    ensures RunFree(s)
  {
    forall i ensures !RunAt(s, i) {
      RunAtOccurs(s, i);
    }
  }

  /** Two run-free pieces make a run-free text when the seam is not hyphen against hyphen. */
  lemma Glue(a: string, b: string)
    requires RunFree(a) && RunFree(b)
    requires a == [] || b == [] || a[|a| - 1] != '-' || b[0] != '-'
    ensures RunFree(a + b)
  {
    var s := a + b;
    forall i ensures !RunAt(s, i) {
      if 0 <= i && i + 3 <= |s| {
        if i + 3 <= |a| {
          assert !RunAt(a, i);
          assert s[i] == a[i] && s[i + 1] == a[i + 1] && s[i + 2] == a[i + 2];
        } else if i >= |a| {
          assert !RunAt(b, i - |a|);
          assert s[i] == b[i - |a|] && s[i + 1] == b[i + 1 - |a|] && s[i + 2] == b[i + 2 - |a|];
        } else if i == |a| - 1 {
          assert s[i] == a[|a| - 1] && s[i + 1] == b[0];
        } else {
          assert s[i + 1] == a[|a| - 1] && s[i + 2] == b[0];
        }
      }
    }
  }

  lemma NoHyphenRunFree(s: string)
    requires '-' !in s
    ensures RunFree(s)
  {
    forall i ensures !RunAt(s, i) {
      if 0 <= i < |s| {
        assert s[i] in s;
      }
    }
  }

  /** The date stamp never holds a run of hyphens, and neither starts nor ends with one. */
  lemma DateStampRunFree(d: DateTime)
    ensures RunFree(DateStamp(d))
    ensures DateStamp(d)[0] != '-' && DateStamp(d)[24] != '-'
  {
    var y, mo, da := Pad(d.year, 4), Pad(d.month, 2), Pad(d.day, 2);
    var tail := "T" + Pad(d.hour, 2) + ":" + Pad(d.minute, 2) + ":" + Pad(d.second, 2) + "+09:00";
    assert forall k :: 0 <= k < |y| ==> y[k] != '-';
    assert forall k :: 0 <= k < |mo| ==> mo[k] != '-';
    assert forall k :: 0 <= k < |da| ==> da[k] != '-';
    NoHyphenRunFree(y);
    NoHyphenRunFree(mo);
    NoHyphenRunFree(da);
    var a := y + "-";
    Glue(y, "-");
    Glue(a, mo);
    var b := a + mo + "-";
    Glue(a + mo, "-");
    Glue(b, da);
    assert forall k :: 0 <= k < |tail| ==> tail[k] != '-';
    NoHyphenRunFree(tail);
    Glue(b + da, tail);
    assert DateStamp(d) == b + da + tail;
  }

  /** `'a', 'b'` holds no run of hyphens when no item does, and starts and ends with a quote. */
  lemma {:induction false} QuotedJoinRunFree(items: seq<string>)
    requires forall i :: 0 <= i < |items| ==> RunFree(items[i])
    ensures var j := Join(Quoted(items), ", ");
      RunFree(j) && (j == [] || (j[0] == '\'' && j[|j| - 1] == '\''))
  {
    if |items| >= 1 {
      var q := "'" + items[0] + "'";
      NoHyphenRunFree("'");
      Glue("'", items[0]);
      Glue("'" + items[0], "'");
      assert Quoted(items)[0] == q;
      if |items| > 1 {
        QuotedJoinRunFree(items[1..]);
        var rest := Join(Quoted(items[1..]), ", ");
        assert Quoted(items) == [q] + Quoted(items[1..]);
        JoinCons(q, Quoted(items[1..]), ", ");
        NoHyphenRunFree(", ");
        Glue(q, ", ");
        Glue(q + ", ", rest);
      }
    }
  }

  lemma PyListRunFree(items: seq<string>)
    requires forall i :: 0 <= i < |items| ==> RunFree(items[i])
    ensures RunFree(PyList(items))
  {
    QuotedJoinRunFree(items);
    NoHyphenRunFree("[");
    NoHyphenRunFree("]");
    var j := Join(Quoted(items), ", ");
    Glue("[", j);
    Glue("[" + j, "]");
  }

  /** The title, tags and categories hold no run of three hyphens. */
  ghost predicate FieldsRunFree(c: Content)
  {
    RunFree(Shown(c.title))
    && (forall i :: 0 <= i < |OrEmpty(c.tags)| ==> RunFree(OrEmpty(c.tags)[i]))
    && (forall i :: 0 <= i < |OrEmpty(c.categories)| ==> RunFree(OrEmpty(c.categories)[i]))
  }

  lemma FrontMatterLinesRunFree(c: Content, now: DateTime)
    requires FieldsRunFree(c)
    ensures RunFree(FrontMatterLines(c, now))
  {
    var t := Shown(c.title);
    var d := DateStamp(c.date.GetOr(now));
    var tg := PyList(OrEmpty(c.tags));
    var ca := PyList(OrEmpty(c.categories));
    DateStampRunFree(c.date.GetOr(now));
    PyListRunFree(OrEmpty(c.tags));
    PyListRunFree(OrEmpty(c.categories));
    var l1, l2, l3, l4, l5 := "\ntitle: \"", "\"\ndate: ", "\ndraft: false\ntags: ", "\ncategories: ", "\n";
    NoHyphenRunFree(l1);
    NoHyphenRunFree(l2);
    NoHyphenRunFree(l3);
    NoHyphenRunFree(l4);
    NoHyphenRunFree(l5);
    var s1 := l1 + t;
    Glue(l1, t);
    var s2 := s1 + l2;
    Glue(s1, l2);
    var s3 := s2 + d;
    Glue(s2, d);
    var s4 := s3 + l3;
    Glue(s3, l3);
    var s5 := s4 + tg;
    Glue(s4, tg);
    var s6 := s5 + l4;
    Glue(s5, l4);
    var s7 := s6 + ca;
    Glue(s6, ca);
    Glue(s7, l5);
    assert FrontMatterLines(c, now) == s7 + l5;
  }

  /** The first delimiter after a run-free text ending in a line break is the one that follows it. */
  lemma FirstDelimiter(inner: string, tail: string)
    requires RunFree(inner) && inner != [] && inner[|inner| - 1] == '\n'
    ensures Find(inner + "---" + tail, "---") == Some(|inner|)
  {
    var rest := inner + "---" + tail;
    assert rest[|inner|..|inner| + 3] == "---";
    assert OccursAt(rest, "---", |inner|);
    forall j | 0 <= j < |inner| ensures !OccursAt(rest, "---", j) {
      RunAtOccurs(rest, j);
      if j + 3 <= |inner| {
        assert !RunAt(inner, j);
        assert rest[j] == inner[j] && rest[j + 1] == inner[j + 1] && rest[j + 2] == inner[j + 2];
      } else {
        assert rest[|inner| - 1] == '\n';
      }
    }
  }

  /** A post whose front matter is run-free and ends in a line break splits back into its parts. */
  lemma ReadBack(inner: string, text: string)
    requires RunFree(inner) && inner != [] && inner[|inner| - 1] == '\n'
    ensures SplitFrontMatter("---" + inner + "---\n\n" + text) == Some((inner, "\n\n" + text))
    ensures PostBody("---" + inner + "---\n\n" + text) == Strip(text)
  {
    var tail := "\n\n" + text;
    var rest := inner + "---" + tail;
    var md := "---" + inner + "---\n\n" + text;
    assert "---\n\n" == "---" + "\n\n";
    assert md == "---" + rest;
    assert md[..3] == "---" && md[3..] == rest;
    FirstDelimiter(inner, tail);
    assert rest[..|inner|] == inner && rest[|inner| + 3..] == tail;
    StripAfterBlank("\n\n", text);
  }

  /**
   * Reading a formatted post back gives its text, trimmed: the front matter
   * closes at the delimiter `format_content` wrote, provided the title, tags
   * and categories hold no run of three hyphens of their own.
   */
  lemma FormatThenRead(c: Content, now: DateTime)
    requires FormatContent(c, now).Ok? && FieldsRunFree(c)
    ensures SplitFrontMatter(FormatContent(c, now).value.markdown) == Some((FrontMatterLines(c, now), "\n\n" + c.text))
    ensures PostBody(FormatContent(c, now).value.markdown) == Strip(c.text)
  {
    var inner := FrontMatterLines(c, now);
    FrontMatterLinesRunFree(c, now);
    assert inner[|inner| - 1] == '\n';
    ReadBack(inner, c.text);
    assert FormatContent(c, now).value.markdown == "---" + inner + "---\n\n" + c.text;
  }

  // ----- slugs -----

  /**
   * `\w` after NFKD: ASCII letters, digits and `_`, and (approximately) any
   * non-ASCII character that is not whitespace.
   */
  predicate IsWordChar(c: char)
  {
    ('a' <= c <= 'z') || ('A' <= c <= 'Z') || ('0' <= c <= '9') || c == '_'
    || (c as int >= 128 && !IsSpace(c))
  }

  /** `[-\s]`. */
  predicate IsSlugSep(c: char)
  {
    c == '-' || IsSpace(c)
  }

  /** `re.sub(r"[^\w\s-]", "", s)`. */
  function KeepSlugChars(s: string): (r: string)
    ensures forall i :: 0 <= i < |r| ==> IsWordChar(r[i]) || IsSlugSep(r[i])
    ensures forall c :: c in r ==> c in s
    ensures (forall i :: 0 <= i < |s| ==> IsWordChar(s[i]) || IsSlugSep(s[i])) ==> r == s
    ensures |r| <= |s|
  {
    if s == [] then []
    else (if IsWordChar(s[0]) || IsSlugSep(s[0]) then [s[0]] else []) + KeepSlugChars(s[1..])
  }

  /**
   * The filter works character by character: the kept characters of a
   * concatenation are those of each part, in order, so every allowed
   * character of the input survives in its place.
   */
  lemma {:induction false} KeepSlugCharsAppend(a: string, b: string)
    ensures KeepSlugChars(a + b) == KeepSlugChars(a) + KeepSlugChars(b)
  {
    if a == [] {
      assert a + b == b;
    } else {
      var h := if IsWordChar(a[0]) || IsSlugSep(a[0]) then [a[0]] else [];
      assert (a + b)[0] == a[0];
      assert (a + b)[1..] == a[1..] + b;
      KeepSlugCharsAppend(a[1..], b);
      assert h + (KeepSlugChars(a[1..]) + KeepSlugChars(b)) == (h + KeepSlugChars(a[1..])) + KeepSlugChars(b);
    }
  }

  /** Drops a leading run of separators. */
  function SkipSeps(s: string): (r: string)
    ensures |r| <= |s| && (r == [] || !IsSlugSep(r[0]))
    ensures r == s[|s| - |r|..]
  {
    if s != [] && IsSlugSep(s[0]) then SkipSeps(s[1..]) else s
  }

  /** `re.sub(r"[-\s]+", "-", s)`: every maximal run of separators becomes one hyphen. */
  function Collapse(s: string): (r: string)
    ensures s == [] ==> r == []
    ensures s != [] && !IsSlugSep(s[0]) ==> r != [] && r[0] == s[0]
    decreases |s|
  {
    if s == [] then []
    else if IsSlugSep(s[0]) then "-" + Collapse(SkipSeps(s))
    else [s[0]] + Collapse(s[1..])
  }

  /** A well-formed slug body: word characters and single hyphens. */
  predicate SlugShaped(s: string)
  {
    (forall i :: 0 <= i < |s| ==> IsWordChar(s[i]) || s[i] == '-')
    && (forall i :: 0 <= i < |s| - 1 ==> !(s[i] == '-' && s[i + 1] == '-'))
  }

  lemma {:induction false} CollapseShaped(s: string)
    requires forall i :: 0 <= i < |s| ==> IsWordChar(s[i]) || IsSlugSep(s[i])
    ensures SlugShaped(Collapse(s))
    decreases |s|
  {
    if s == [] {
    } else if IsSlugSep(s[0]) {
      var t := SkipSeps(s);
      assert forall i :: 0 <= i < |t| ==> t[i] == s[|s| - |t| + i];
      CollapseShaped(t);
      var r := "-" + Collapse(t);
      assert r[1..] == Collapse(t);
      assert t != [] ==> !IsSlugSep(t[0]) && Collapse(t)[0] == t[0];
    } else {
      assert forall i :: 0 <= i < |s[1..]| ==> s[1..][i] == s[i + 1];
      CollapseShaped(s[1..]);
      var r := [s[0]] + Collapse(s[1..]);
      assert r[1..] == Collapse(s[1..]);
    }
  }

  lemma {:induction false} StripDashShaped(s: string)
    requires SlugShaped(s)
    ensures SlugShaped(StripChar(s, '-'))
    decreases |s|
  {
    if s == [] {
    } else if s[0] == '-' {
      assert forall i :: 0 <= i < |s[1..]| ==> s[1..][i] == s[i + 1];
      StripDashShaped(s[1..]);
    } else if s[|s| - 1] == '-' {
      assert forall i :: 0 <= i < |s| - 1 ==> s[..|s| - 1][i] == s[i];
      StripDashShaped(s[..|s| - 1]);
    }
  }

  /** The part of the slug after the date: lower-cased, filtered, separators collapsed, hyphens trimmed. */
  function SlugBody(title: string): string
  {
    StripChar(Collapse(KeepSlugChars(Lower(title))), '-')
  }

  /** The slug body holds only word characters and single hyphens, and neither starts nor ends with one. */
  lemma SlugBodyWellFormed(title: string)
    ensures SlugShaped(SlugBody(title))
    ensures SlugBody(title) == [] || (SlugBody(title)[0] != '-' && SlugBody(title)[|SlugBody(title)| - 1] != '-')
  {
    var kept := KeepSlugChars(Lower(title));
    var collapsed := Collapse(kept);
    CollapseShaped(kept);
    StripDashShaped(collapsed);
    assert SlugBody(title) == StripChar(collapsed, '-');
  }

  /** `_generate_slug`: `YYYYMMDD-` followed by the body. */
  function GenerateSlug(title: string, now: DateTime): (r: string)
    ensures |r| == 9 + |SlugBody(title)| && AllDigits(r[..8]) && r[8] == '-' && r[9..] == SlugBody(title)
  {
    Pad(now.year, 4) + Pad(now.month, 2) + Pad(now.day, 2) + "-" + SlugBody(title)
  }

  /** The date prefix reads back as the day the slug was made. */
  lemma GenerateSlugDate(title: string, now: DateTime)
    requires ValidDateTime(now)
    ensures var r := GenerateSlug(title, now);
      DigitsValue(r[..4]) == now.year && DigitsValue(r[4..6]) == now.month && DigitsValue(r[6..8]) == now.day
  {
    var r := GenerateSlug(title, now);
    assert r[..4] == Pad(now.year, 4) && r[4..6] == Pad(now.month, 2) && r[6..8] == Pad(now.day, 2);
    assert Pow10(2) == 100 && Pow10(4) == 10000;
    PadValue(now.year, 4);
    PadValue(now.month, 2);
    PadValue(now.day, 2);
  }

  /** A stretch without separators passes through the collapse unchanged. */
  lemma {:induction false} CollapseWord(w: string, rest: string)
    requires forall i :: 0 <= i < |w| ==> !IsSlugSep(w[i])
    ensures Collapse(w + rest) == w + Collapse(rest)
  {
    if w == [] {
      assert w + rest == rest;
    } else {
      forall i | 0 <= i < |w[1..]| ensures !IsSlugSep(w[1..][i]) {
        assert w[1..][i] == w[i + 1];
      }
      CollapseWord(w[1..], rest);
      HeadTail(w, rest);
      CollapseCons(w[0], w[1..] + rest);
      HeadTail(w, Collapse(rest));
    }
  }

  /** A character other than a separator is kept and the collapse goes on after it. */
  lemma CollapseCons(c: char, t: string)
    requires !IsSlugSep(c)
    ensures Collapse([c] + t) == [c] + Collapse(t)
  {
    assert ([c] + t)[1..] == t;
  }

  lemma HeadTail(w: string, v: string)
    requires w != []
    ensures w + v == [w[0]] + (w[1..] + v)
  {
    assert w == [w[0]] + w[1..];
  }

  /** A run of separators, however long, becomes a single hyphen. */
  lemma {:induction false} CollapseRun(seps: string, rest: string)
    requires seps != [] && forall i :: 0 <= i < |seps| ==> IsSlugSep(seps[i])
    requires rest == [] || !IsSlugSep(rest[0])
    ensures Collapse(seps + rest) == "-" + Collapse(rest)
  {
    SkipRun(seps, rest);
  }

  lemma {:induction false} SkipRun(seps: string, rest: string)
    requires forall i :: 0 <= i < |seps| ==> IsSlugSep(seps[i])
    requires rest == [] || !IsSlugSep(rest[0])
    ensures SkipSeps(seps + rest) == rest
  {
    if seps != [] {
      assert (seps + rest)[1..] == seps[1..] + rest;
      SkipRun(seps[1..], rest);
    }
  }

  /** `get_post_url`: `{base_url}/{default_language}/posts/{slug}/`. */
  function PostUrl(s: Settings, c: Content, now: DateTime): (r: Result<string, BlogError>)
    ensures r.Ok? <==> PostSlug(c, now).Ok?
    ensures r.Ok? ==> r.value == s.baseUrl + "/" + s.defaultLanguage + "/posts/" + PostSlug(c, now).value + "/"
  {
    match PostSlug(c, now)
    case Err(e) => Err(e)
    case Ok(slug) => Ok(s.baseUrl + "/" + s.defaultLanguage + "/posts/" + slug + "/")
  }

  /** The URL and the slug `format_content` picks agree: the post is published where its URL points. */
  lemma UrlMatchesFormattedSlug(s: Settings, c: Content, now: DateTime)
    requires FormatContent(c, now).Ok?
    ensures PostUrl(s, c, now).Ok?
    ensures PostUrl(s, c, now).value
            == s.baseUrl + "/" + s.defaultLanguage + "/posts/" + FormatContent(c, now).value.slug + "/"
  {
  }

  // ----- image paths -----

  /** The three forms an image reference takes: a link target and the two quoted `src` attributes. */
  function LinkTarget(p: string): string
  {
    "](" + p + ")"
  }

  function DoubleQuotedSrc(p: string): string
  {
    "src=\"" + p + "\""
  }

  function SingleQuotedSrc(p: string): string
  {
    "src='" + p + "'"
  }

  /** One map entry: the three replacements, in the order the loop body makes them. */
  function RewriteOne(s: string, local: string, url: string): string
  {
    Replace(Replace(Replace(s, LinkTarget(local), LinkTarget(url)), DoubleQuotedSrc(local), DoubleQuotedSrc(url)),
            SingleQuotedSrc(local), SingleQuotedSrc(url))
  }

  /** Every entry, in the map's insertion order. */
  function RewriteAll(s: string, urlMap: Dict.Dict<string>): string
    decreases |urlMap|
  {
    if urlMap == [] then s else RewriteAll(RewriteOne(s, urlMap[0].0, urlMap[0].1), urlMap[1..])
  }

  /** `_replace_image_paths`: the map's entries applied one after the other. */
  method ReplaceImagePaths(markdown: string, urlMap: Dict.Dict<string>) returns (result: string)
    ensures result == RewriteAll(markdown, urlMap)
    ensures urlMap == [] ==> result == markdown
  {
    result := markdown;
    assert urlMap[0..] == urlMap;
    for i := 0 to |urlMap|
      invariant RewriteAll(result, urlMap[i..]) == RewriteAll(markdown, urlMap)
    {
      var (local, url) := urlMap[i];
      assert urlMap[i..][1..] == urlMap[i + 1..];
      result := Replace(result, LinkTarget(local), LinkTarget(url));
      result := Replace(result, DoubleQuotedSrc(local), DoubleQuotedSrc(url));
      result := Replace(result, SingleQuotedSrc(local), SingleQuotedSrc(url));
    }
  }

  /** A text that holds none of the three forms of a path is left as it is by that path's entry. */
  lemma RewriteAbsent(s: string, local: string, url: string)
    requires !Contains(s, LinkTarget(local)) && !Contains(s, DoubleQuotedSrc(local)) && !Contains(s, SingleQuotedSrc(local))
    ensures RewriteOne(s, local, url) == s
  {
  }

  /** An entry that maps a path to itself changes nothing, whatever the text. */
  lemma RewriteToItself(s: string, p: string)
    ensures RewriteOne(s, p, p) == s
  {
    ReplaceSelf(s, LinkTarget(p));
    ReplaceSelf(s, DoubleQuotedSrc(p));
    ReplaceSelf(s, SingleQuotedSrc(p));
  }

  /**
   * Each replacement keeps the text between the occurrences: the result is
   * the pieces of the text around the link target, in order, joined by the
   * new target.
   */
  lemma LinkTargetsOnly(s: string, local: string, url: string)
    ensures Replace(s, LinkTarget(local), LinkTarget(url)) == Join(Split(s, LinkTarget(local)), LinkTarget(url))
    ensures forall k :: 0 <= k < |Split(s, LinkTarget(local))| ==> !Contains(Split(s, LinkTarget(local))[k], LinkTarget(local))
  {
    ReplaceIsSplitJoin(s, LinkTarget(local), LinkTarget(url));
    forall k | 0 <= k < |Split(s, LinkTarget(local))|
      ensures !Contains(Split(s, LinkTarget(local))[k], LinkTarget(local))
    {
      SplitPiecesFree(s, LinkTarget(local), k);
    }
  }

  // ----- image uploads -----

  /** The uploader's `upload_file(path, key)`: the object's URL, or `None` when the upload raises. */
  type Upload = (string, string) -> Option<string>

  /** The object key `posts/{slug}/{file name}`. */
  function UploadKey(slug: string, path: string): string
  {
    "posts/" + slug + "/" + Loader.BaseName(path)
  }

  /** A file's object key names the post's folder and the file's own name. */
  lemma UploadKeyName(slug: string, dir: string, name: string)
    requires '/' !in name
    ensures UploadKey(slug, Loader.PathJoin(dir, name)) == "posts/" + slug + "/" + name
  {
    Loader.BaseNameJoin(dir, name);
  }

  /** One image: a missing file or a failed upload is skipped, a success is recorded under the local path. */
  function UploadStep(fs: Loader.FileSystem, up: Upload, slug: string, m: Dict.Dict<string>, path: string): Dict.Dict<string>
  {
    if path !in fs then m
    else match up(path, UploadKey(slug, path))
      case None => m
      case Some(url) => Dict.Put(m, path, url)
  }

  function UploadFold(fs: Loader.FileSystem, up: Upload, slug: string, m: Dict.Dict<string>, paths: seq<string>): Dict.Dict<string>
    decreases |paths|
  {
    if paths == [] then m else UploadFold(fs, up, slug, UploadStep(fs, up, slug, m, paths[0]), paths[1..])
  }

  /** The map `_upload_images_to_s3` returns: empty without an uploader. */
  function UploadMap(uploader: Option<Upload>, fs: Loader.FileSystem, slug: string, paths: seq<string>): Dict.Dict<string>
  {
    match uploader
    case None => []
    case Some(up) => UploadFold(fs, up, slug, [], paths)
  }

  /** `_upload_images_to_s3`: the images in order, each failure skipped. */
  method UploadImages(uploader: Option<Upload>, fs: Loader.FileSystem, paths: seq<string>, slug: string)
    returns (urlMap: Dict.Dict<string>)
    ensures urlMap == UploadMap(uploader, fs, slug, paths)
  {
    if uploader.None? {
      return [];
    }
    var up := uploader.value;
    urlMap := [];
    assert paths[0..] == paths;
    for i := 0 to |paths|
      invariant UploadFold(fs, up, slug, urlMap, paths[i..]) == UploadFold(fs, up, slug, [], paths)
    {
      var path := paths[i];
      assert paths[i..][1..] == paths[i + 1..];
      if path in fs {
        var url := up(path, UploadKey(slug, path));
        if url.Some? {
          urlMap := Dict.Put(urlMap, path, url.value);
        }
      }
    }
    assert paths[|paths|..] == [];
  }

  /** What the fold records under `p`: the upload's URL when `p` is among the paths and exists, else what was there. */
  lemma {:induction false} UploadFoldGet(fs: Loader.FileSystem, up: Upload, slug: string, m: Dict.Dict<string>,
                                         paths: seq<string>, p: string)
    ensures Dict.Get(UploadFold(fs, up, slug, m, paths), p)
            == if p in paths && p in fs && up(p, UploadKey(slug, p)).Some? then up(p, UploadKey(slug, p))
               else Dict.Get(m, p)
    decreases |paths|
  {
    if paths != [] {
      var m' := UploadStep(fs, up, slug, m, paths[0]);
      UploadFoldGet(fs, up, slug, m', paths[1..], p);
      assert p in paths <==> p == paths[0] || p in paths[1..];
    }
  }

  /**
   * The upload map holds exactly the paths that exist and uploaded, each
   * with its URL; nothing at all without an uploader.
   */
  lemma UploadMapExact(uploader: Option<Upload>, fs: Loader.FileSystem, slug: string, paths: seq<string>, p: string)
    ensures uploader.None? ==> UploadMap(uploader, fs, slug, paths) == []
    ensures uploader.Some? ==>
      Dict.Get(UploadMap(uploader, fs, slug, paths), p)
      == if p in paths && p in fs then uploader.value(p, UploadKey(slug, p)) else None
  {
    if uploader.Some? {
      UploadFoldGet(fs, uploader.value, slug, [], paths, p);
    }
  }

  /** The map never holds a path twice. */
  lemma {:induction false} UploadFoldDistinct(fs: Loader.FileSystem, up: Upload, slug: string, m: Dict.Dict<string>,
                                              paths: seq<string>)
    requires Dict.Distinct(Dict.Keys(m))
    ensures Dict.Distinct(Dict.Keys(UploadFold(fs, up, slug, m, paths)))
    decreases |paths|
  {
    if paths != [] {
      var m' := UploadStep(fs, up, slug, m, paths[0]);
      if paths[0] in fs && up(paths[0], UploadKey(slug, paths[0])).Some? {
        Dict.PutDistinct(m, paths[0], up(paths[0], UploadKey(slug, paths[0])).value);
      }
      UploadFoldDistinct(fs, up, slug, m', paths[1..]);
    }
  }

  // ----- git -----

  /** What a git command did: exited cleanly, or failed with this standard error. */
  datatype GitRun = Done | Failed(stderr: string)

  /**
   * `_git_commit`: `git add`, then, only after a clean add, `git commit`.
   * The first failure is tolerated when its standard error says "nothing to
   * commit" and raised otherwise.
   */
  function GitCommit(add: GitRun, commit: GitRun): (r: Option<BlogError>)
    ensures add.Failed? ==> (r.None? <==> Contains(add.stderr, "nothing to commit"))
    ensures add.Done? && commit.Failed? ==> (r.None? <==> Contains(commit.stderr, "nothing to commit"))
    ensures add.Done? && commit.Done? ==> r.None?
    ensures r.Some? ==> r.value.RuntimeError?
  {
    var failure := if add.Failed? then add else commit;
    match failure
    case Done => None
    case Failed(err) => if Contains(err, "nothing to commit") then None else Some(RuntimeError("Git commit failed: " + err))
  }

  /** A failed add stops there: the commit's outcome does not matter, because it never runs. */
  lemma CommitNotRunAfterFailedAdd(err: string, c1: GitRun, c2: GitRun)
    ensures GitCommit(Failed(err), c1) == GitCommit(Failed(err), c2)
  {
  }

  // ----- publish -----

  /** What `publish` returns, with the contents of the files it writes. */
  datatype Published = Published(slug: string, url: string, koFile: string, enFile: Option<string>,
                                 images: Dict.Dict<string>, koText: string, enText: Option<string>)

  /** The post's folder: `{blog_repo_path}/{content_dir}/{slug}`. */
  function PostDir(s: Settings, slug: string): string
  {
    Loader.PathJoin(Loader.PathJoin(s.repoPath, s.contentDir), slug)
  }

  /**
   * A successful `publish`: the images are uploaded (when there are any and
   * an uploader), the Korean file holds the markdown with the image paths
   * rewritten, the English file the translation of it (when English is one
   * of the languages and the translation does not raise).
   */
  function Publication(s: Settings, c: Content, now: DateTime, uploader: Option<Upload>, fs: Loader.FileSystem,
                       T: string -> string, translationFails: bool, enExisted: bool): Published
    requires FormatContent(c, now).Ok?
  {
    var f := FormatContent(c, now).value;
    var images := if HasImages(c) && uploader.Some? then UploadMap(uploader, fs, f.slug, c.imagePaths.value) else [];
    var ko := if HasImages(c) && uploader.Some? then RewriteAll(f.markdown, images) else f.markdown;
    var en := if "en" in s.languages && !translationFails then Some(Translator.TranslateMarkdown(T, ko)) else None;
    var dir := PostDir(s, f.slug);
    Published(f.slug, PostUrl(s, c, now).value, Loader.PathJoin(dir, "index.ko.md"),
              if en.Some? || enExisted then Some(Loader.PathJoin(dir, "index.en.md")) else None,
              images, ko, en)
  }

  /**
   * `publish`: format, upload and rewrite, write the files, translate, commit.
   * A content without slug or title fails at formatting, a git failure other
   * than "nothing to commit" fails the publication; a failed translation only
   * leaves the English file unwritten.
   */
  method Publish(s: Settings, c: Content, now: DateTime, uploader: Option<Upload>, fs: Loader.FileSystem,
                 T: string -> string, translationFails: bool, enExisted: bool, add: GitRun, commit: GitRun)
    returns (r: Result<Published, BlogError>)
    ensures FormatContent(c, now).Err? ==> r == Err(FormatContent(c, now).error)
    ensures FormatContent(c, now).Ok? && GitCommit(add, commit).Some? ==> r == Err(GitCommit(add, commit).value)
    ensures r.Ok? <==> FormatContent(c, now).Ok? && GitCommit(add, commit).None?
    ensures r.Ok? ==> r.value == Publication(s, c, now, uploader, fs, T, translationFails, enExisted)
  {
    var formatted := FormatContent(c, now);
    if formatted.Err? {
      return Err(formatted.error);
    }
    var slug := formatted.value.slug;
    var markdown := formatted.value.markdown;
    var imageMap: Dict.Dict<string> := [];
    if HasImages(c) && uploader.Some? {
      imageMap := UploadImages(uploader, fs, c.imagePaths.value, slug);
      markdown := ReplaceImagePaths(markdown, imageMap);
    }
    var dir := PostDir(s, slug);
    var koFile := Loader.PathJoin(dir, "index.ko.md");
    var enFile := Loader.PathJoin(dir, "index.en.md");
    var enText: Option<string> := None;
    if "en" in s.languages && !translationFails {
      enText := Some(Translator.TranslateMarkdown(T, markdown));
    }
    var gitError := GitCommit(add, commit);
    if gitError.Some? {
      return Err(gitError.value);
    }
    var url := PostUrl(s, c, now);
    r := Ok(Published(slug, url.value, koFile, if enText.Some? || enExisted then Some(enFile) else None,
                      imageMap, markdown, enText));
  }

  /** A post without images is written exactly as formatted, and reads back as its text. */
  lemma PublishedWithoutImages(s: Settings, c: Content, now: DateTime, uploader: Option<Upload>, fs: Loader.FileSystem,
                               T: string -> string, translationFails: bool, enExisted: bool)
    requires FormatContent(c, now).Ok? && !HasImages(c) && FieldsRunFree(c)
    ensures var p := Publication(s, c, now, uploader, fs, T, translationFails, enExisted);
      p.images == [] && p.koText == FormatContent(c, now).value.markdown && PostBody(p.koText) == Strip(c.text)
  {
    FormatThenRead(c, now);
  }

  /** Without English among the languages nothing is translated and no English file is reported unless one was there. */
  lemma NoEnglish(s: Settings, c: Content, now: DateTime, uploader: Option<Upload>, fs: Loader.FileSystem,
                  T: string -> string, translationFails: bool, enExisted: bool)
    requires FormatContent(c, now).Ok? && "en" !in s.languages
    ensures var p := Publication(s, c, now, uploader, fs, T, translationFails, enExisted);
      p.enText.None? && (p.enFile.Some? <==> enExisted)
  {
  }

  /**
   * The English file of a formatted post: the front matter translated line
   * by line between fresh delimiters, then the trimmed text translated as a
   * whole.
   */
  lemma TranslateFormatted(T: string -> string, c: Content, now: DateTime)
    requires FormatContent(c, now).Ok? && FieldsRunFree(c)
    ensures Translator.TranslateMarkdown(T, FormatContent(c, now).value.markdown)
            == "---\n" + Translator.FrontMatterText(T, FrontMatterLines(c, now)) + "\n---\n\n"
               + Translator.TranslateText(T, Strip(c.text))
  {
    var md := FormatContent(c, now).value.markdown;
    FormatThenRead(c, now);
    TranslateSplit(T, md, FrontMatterLines(c, now), c.text);
  }

  lemma TranslateSplit(T: string -> string, md: string, fm: string, text: string)
    requires SplitFrontMatter(md) == Some((fm, "\n\n" + text)) && Strip("\n\n" + text) == Strip(text)
    ensures Translator.TranslateMarkdown(T, md)
            == "---\n" + Translator.FrontMatterText(T, fm) + "\n---\n\n" + Translator.TranslateText(T, Strip(text))
  {
  }
}
