/**
 * The markdown translator (`utils/translator.py`): the front matter and the
 * body are split apart, the title, tags and categories lines of the front
 * matter are translated one by one, the body as a whole, and the parts are
 * put back together. The translation itself, an external command, is the
 * function `T`.
 */
module Translator {
  import opened Wrappers
  import opened Text

  /**
   * `_translate_text`: empty or whitespace-only text comes back as it is and
   * `T` is not consulted; any other text is `T`'s answer.
   */
  function TranslateText(T: string -> string, s: string): (r: string)
    ensures IsBlank(s) ==> r == s
    ensures !IsBlank(s) ==> r == T(s)
  {
    if IsBlank(s) then s else T(s)
  }

  /** Each item translated, in order. */
  function TranslateAll(T: string -> string, items: seq<string>): (r: seq<string>)
    ensures |r| == |items| && forall i :: 0 <= i < |items| ==> r[i] == TranslateText(T, items[i])
  {
    seq(|items|, i requires 0 <= i < |items| => TranslateText(T, items[i]))
  }

  // ----- the line patterns -----

  /** The last position, from 1 on, holding `c`: where a greedy `(.+)c` stops. */
  function LastFromOne(u: string, c: char): (r: Option<nat>)
    ensures r.Some? ==> 1 <= r.value < |u| && u[r.value] == c
    ensures r.Some? ==> forall j :: r.value < j < |u| ==> u[j] != c
    ensures r.None? ==> forall j :: 1 <= j < |u| ==> u[j] != c
  {
    if |u| <= 1 then None
    else if u[|u| - 1] == c then Some(|u| - 1)
    else LastFromOne(u[..|u| - 1], c)
  }

  /** The text up to the first line break: what `.` may match. */
  function LineHead(u: string): (r: string)
    ensures |r| <= |u| && r == u[..|r|] && '\n' !in r
    ensures |r| < |u| ==> u[|r|] == '\n'
  {
    if u == [] || u[0] == '\n' then []
    else [u[0]] + LineHead(u[1..])
  }

  /**
   * `re.match(key + r"\s*" + open + "(.+)" + close, line)`: the captured
   * group. The match is anchored at the start only: whatever follows the last
   * closing character on the line is ignored.
   */
  function Capture(line: string, key: string, open: char, close: char): (r: Option<string>)
    ensures r.Some? ==> StartsWith(line, key) && r.value != [] && '\n' !in r.value
  {
    if !StartsWith(line, key) then None
    else
      var rest := StripLeft(line[|key|..]);
      if rest == [] || rest[0] != open then None
      else
        var v := LineHead(rest[1..]);
        match LastFromOne(v, close)
        case None => None
        case Some(k) => Some(v[..k])
  }

  /** A comprehension with a condition: `f(x)` is the item for `x`, or `None` when `x` is dropped. */
  function FilterMap<A, B>(f: A -> Option<B>, xs: seq<A>): (r: seq<B>)
    ensures |r| <= |xs|
  {
    if xs == [] then []
    else (if f(xs[0]).Some? then [f(xs[0]).value] else []) + FilterMap(f, xs[1..])
  }

  /** One piece of a bracketed list: dropped when whitespace-only, else trimmed of whitespace, then of quotes. */
  function Item(p: string): Option<string>
  {
    if IsBlank(p) then None else Some(StripChars(Strip(p), {'\'', '"'}))
  }

  /** The items of a bracketed list, as the comprehension reads them from the comma-separated pieces. */
  function ListItems(parts: seq<string>): (r: seq<string>)
    ensures |r| <= |parts|
  {
    FilterMap(Item, parts)
  }

  /**
   * A `tags:` or `categories:` line, `key` being the name with its colon:
   * re-rendered with each item translated, or left alone when the pattern
   * fails.
   */
  function ListLine(T: string -> string, key: string, line: string): (r: string)
    ensures Capture(line, key, '[', ']').None? ==> r == line
  {
    match Capture(line, key, '[', ']')
    case None => line
    case Some(s) => key + " " + PyList(TranslateAll(T, ListItems(Split(s, ","))))
  }

  /**
   * One front matter line: the title, tags and categories lines are
   * translated when they match their pattern; every other line is kept.
   */
  function TranslateLine(T: string -> string, line: string): string
  {
    if StartsWith(line, "title:") then
      match Capture(line, "title:", '"', '"')
      case None => line
      case Some(t) => "title: \"" + TranslateText(T, t) + "\""
    else if StartsWith(line, "tags:") then ListLine(T, "tags:", line)
    else if StartsWith(line, "categories:") then ListLine(T, "categories:", line)
    else line
  }

  /**
   * A line is kept as it is unless it starts with `title:`, `tags:` or
   * `categories:` and matches the pattern of that key.
   */
  lemma LineKept(T: string -> string, line: string)
    ensures !StartsWith(line, "title:") && !StartsWith(line, "tags:") && !StartsWith(line, "categories:")
            ==> TranslateLine(T, line) == line
    ensures StartsWith(line, "title:") && Capture(line, "title:", '"', '"').None?
            ==> TranslateLine(T, line) == line
    ensures (!StartsWith(line, "title:") && StartsWith(line, "tags:")
             && Capture(line, "tags:", '[', ']').None?) ==> TranslateLine(T, line) == line
    ensures (!StartsWith(line, "title:") && !StartsWith(line, "tags:") && StartsWith(line, "categories:")
             && Capture(line, "categories:", '[', ']').None?) ==> TranslateLine(T, line) == line
  {
  }

  /** The translated lines: one per input line. */
  function TranslateLines(T: string -> string, lines: seq<string>): (r: seq<string>)
    ensures |r| == |lines|
  {
    if lines == [] then []
    else TranslateLines(T, lines[..|lines| - 1]) + [TranslateLine(T, lines[|lines| - 1])]
  }

  /** Output line `i` is input line `i` translated: the order is kept. */
  lemma {:induction false} TranslateLinesAt(T: string -> string, lines: seq<string>, i: nat)
    requires i < |lines|
    ensures TranslateLines(T, lines)[i] == TranslateLine(T, lines[i])
  {
    if i < |lines| - 1 {
      TranslateLinesAt(T, lines[..|lines| - 1], i);
    }
  }

  lemma TranslateLinesStep(T: string -> string, lines: seq<string>, i: nat)
    requires i < |lines|
    ensures TranslateLines(T, lines[..i + 1]) == TranslateLines(T, lines[..i]) + [TranslateLine(T, lines[i])]
  {
    assert lines[..i + 1][..i] == lines[..i];
  }

  /** What `_translate_front_matter` returns. */
  function FrontMatterText(T: string -> string, frontMatter: string): string
  {
    Join(TranslateLines(T, Split(Strip(frontMatter), "\n")), "\n")
  }

  /** The loop of `_translate_front_matter`: each line translated, appended in order. */
  method TranslateEach(T: string -> string, lines: seq<string>) returns (translated: seq<string>)
    ensures translated == TranslateLines(T, lines)
  {
    translated := [];
    for i := 0 to |lines|
      invariant translated == TranslateLines(T, lines[..i])
    {
      TranslateLinesStep(T, lines, i);
      var line := TranslateLine(T, lines[i]);
      translated := translated + [line];
    }
    assert lines[..|lines|] == lines;
  }

  /** `_translate_front_matter`: the trimmed front matter, line by line. */
  method TranslateFrontMatter(T: string -> string, frontMatter: string) returns (r: string)
    ensures r == FrontMatterText(T, frontMatter)
  {
    var lines := Split(Strip(frontMatter), "\n");
    var translated := TranslateEach(T, lines);
    r := Join(translated, "\n");
  }

  /**
   * `translate_markdown`: with an opening `---` and a closing one, the
   * translated front matter between fresh delimiters, a blank line and the
   * translated trimmed body; otherwise the whole text goes to `T`.
   */
  function TranslateMarkdown(T: string -> string, markdown: string): (r: string)
    ensures SplitFrontMatter(markdown).None? ==> r == TranslateText(T, markdown)
    ensures SplitFrontMatter(markdown).Some? ==>
      var (fm, rest) := SplitFrontMatter(markdown).value;
      r == "---\n" + FrontMatterText(T, fm) + "\n---\n\n" + TranslateText(T, Strip(rest))
  {
    match SplitFrontMatter(markdown)
    case None => TranslateText(T, markdown)
    case Some((fm, rest)) => "---\n" + FrontMatterText(T, fm) + "\n---\n\n" + TranslateText(T, Strip(rest))
  }

  // ----- properties -----

  /** Where the captured group sits in a line of the shape `key open x close`. */
  lemma CaptureOf(key: string, open: char, x: string, close: char)
    requires x != [] && '\n' !in x && !IsSpace(open) && close != '\n'
    ensures Capture(key + " " + [open] + x + [close], key, open, close) == Some(x)
  {
    var y := [open] + x + [close];
    var line := key + " " + [open] + x + [close];
    assert StartsWith(line, key) && line[|key|..] == " " + y by {
      assert line == key + (" " + y);
      AfterKey(key, " " + y);
    }
    assert StripLeft(line[|key|..]) == y by {
      SpaceThenText(y);
    }
    GroupThenClose(x, close);
    assert y[1..] == x + [close];
    CaptureSteps(line, key, open, close, y, x + [close]);
  }

  /** The group followed by its closing character: the line head is all of it and the group ends at the last close. */
  lemma GroupThenClose(x: string, close: char)
    requires x != [] && '\n' !in x && close != '\n'
    ensures LineHead(x + [close]) == x + [close]
    ensures LastFromOne(x + [close], close) == Some(|x|) && (x + [close])[..|x|] == x
  {
    var u := x + [close];
    assert '\n' !in u by {
      assert forall i :: 0 <= i < |u| - 1 ==> u[i] == x[i];
    }
    LineHeadNoBreak(u);
  }

  /** `Capture` once the key, the whitespace and the opening character are behind. */
  lemma CaptureSteps(line: string, key: string, open: char, close: char, rest: string, v: string)
    requires StartsWith(line, key) && StripLeft(line[|key|..]) == rest
    requires rest != [] && rest[0] == open && LineHead(rest[1..]) == v
    ensures LastFromOne(v, close).None? ==> Capture(line, key, open, close).None?
    ensures LastFromOne(v, close).Some? ==> Capture(line, key, open, close) == Some(v[..LastFromOne(v, close).value])
  {
  }

  lemma AfterKey(key: string, y: string)
    ensures StartsWith(key + y, key) && (key + y)[|key|..] == y
  {
    assert (key + y)[..|key|] == key;
  }

  lemma SpaceThenText(y: string)
    requires y != [] && !IsSpace(y[0])
    ensures StripLeft(" " + y) == y
  {
    assert (" " + y)[1..] == y;
  }

  lemma {:induction false} LineHeadNoBreak(u: string)
    requires '\n' !in u
    ensures LineHead(u) == u
  {
    if u != [] {
      assert '\n' !in u[1..];
      LineHeadNoBreak(u[1..]);
    }
  }

  /**
   * The title line the blog publisher writes is translated as a whole title:
   * `title: "x"` becomes `title: "T(x)"`.
   */
  lemma TitleLineTranslated(T: string -> string, x: string)
    requires x != [] && '\n' !in x
    ensures TranslateLine(T, "title: \"" + x + "\"") == "title: \"" + TranslateText(T, x) + "\""
  {
    CaptureOf("title:", '"', x, '"');
    assert "title: \"" == "title:" + " " + ['"'] && "\"" == ['"'];
    assert StartsWith("title: \"" + x + "\"", "title:");
  }

  /**
   * `line` reads `key`, whitespace `w`, `open`, a one-line group `x`,
   * `close` and then anything `y`: one way the pattern can match.
   */
  predicate Matches(line: string, key: string, open: char, close: char, w: string, x: string, y: string)
  {
    IsBlank(w) && x != [] && '\n' !in x && line == key + w + [open] + x + [close] + y
  }

  /**
   * The pattern matches exactly when the line can be read that way, and the
   * captured group then runs up to the last closing character of the line:
   * none follows it before the next line break.
   */
  lemma CaptureMatch(line: string, key: string, open: char, close: char)
    requires !IsSpace(open) && close != '\n'
    ensures Capture(line, key, open, close).Some? <==> exists w, x, y :: Matches(line, key, open, close, w, x, y)
    ensures Capture(line, key, open, close).Some? ==>
      exists w, y :: Matches(line, key, open, close, w, Capture(line, key, open, close).value, y) && close !in LineHead(y)
  {
    if Capture(line, key, open, close).Some? {
      var w, y := CaptureParts(line, key, open, close);
    } else if exists w, x, y :: Matches(line, key, open, close, w, x, y) {
      var w, x, y :| Matches(line, key, open, close, w, x, y);
      MatchCaptures(line, key, open, close, w, x, y);
    }
  }

  /** The pieces of a line around a captured group. */
  lemma CaptureParts(line: string, key: string, open: char, close: char) returns (w: string, y: string)
    requires Capture(line, key, open, close).Some?
    ensures Matches(line, key, open, close, w, Capture(line, key, open, close).value, y) && close !in LineHead(y)
  {
    var x := Capture(line, key, open, close).value;
    var t, rest, u, k := CaptureShape(line, key, open, close);
    KeyThen(line, key);
    w := BlankBefore(t);
    y := u[k + 1..];
    CloseSplit(u, k, close);
    NoCloseAfter(LineHead(u), k, close);
    Regroup(line, key, t, w, rest, open, u, x, close, y);
  }

  /** What a successful `Capture` has read: the rest after the key, its opening character and the greedy group. */
  lemma CaptureShape(line: string, key: string, open: char, close: char) returns (t: string, rest: string, u: string, k: nat)
    requires Capture(line, key, open, close).Some?
    ensures StartsWith(line, key) && t == line[|key|..] && rest == StripLeft(t) && rest == [open] + u
    ensures LastFromOne(LineHead(u), close) == Some(k) && Capture(line, key, open, close).value == LineHead(u)[..k]
  {
    t := line[|key|..];
    rest := StripLeft(t);
    u := rest[1..];
    assert rest == [open] + u;
    k := LastFromOne(LineHead(u), close).value;
  }

  lemma KeyThen(line: string, key: string)
    requires StartsWith(line, key)
    ensures line == key + line[|key|..]
  {
    assert line[..|key|] == key;
  }

  /** After the last closing character of a line head, none follows. */
  lemma NoCloseAfter(v: string, k: nat, close: char)
    requires LastFromOne(v, close) == Some(k)
    ensures close !in v[k + 1..]
  {
    var z := v[k + 1..];
    assert forall j :: 0 <= j < |z| ==> z[j] == v[k + 1 + j];
  }

  /** The whitespace `lstrip()` removes. */
  lemma BlankBefore(t: string) returns (w: string)
    ensures IsBlank(w) && t == w + StripLeft(t)
  {
    w := t[..|t| - |StripLeft(t)|];
  }

  /** Splitting a line at a closing character inside its first line. */
  lemma CloseSplit(u: string, k: nat, close: char)
    requires k < |LineHead(u)| && LineHead(u)[k] == close
    ensures u == LineHead(u)[..k] + [close] + u[k + 1..]
    ensures LineHead(u[k + 1..]) == LineHead(u)[k + 1..]
  {
    var v := LineHead(u);
    assert u[..k] == v[..k];
    assert u == u[..k] + [u[k]] + u[k + 1..];
    LineHeadSuffix(u, k + 1);
  }

  lemma Regroup(line: string, key: string, t: string, w: string, rest: string, open: char,
                u: string, x: string, close: char, y: string)
    requires line == key + t && t == w + rest && rest == [open] + u && u == x + [close] + y
    ensures line == key + w + [open] + x + [close] + y
  {
  }

  /** A line read as a match makes the pattern capture something. */
  lemma MatchCaptures(line: string, key: string, open: char, close: char, w: string, x: string, y: string)
    requires !IsSpace(open) && close != '\n'
    requires Matches(line, key, open, close, w, x, y)
    ensures Capture(line, key, open, close).Some?
  {
    var z := [open] + (x + [close] + y);
    Ungroup(line, key, w, open, x, close, y);
    AfterKey(key, w + z);
    StripLeftBlank(w, z);
    var g := x + [close];
    assert '\n' !in g by {
      assert forall i :: 0 <= i < |x| ==> g[i] == x[i];
    }
    LineHeadAppend(g, y);
    var v := LineHead(z[1..]);
    assert z[1..] == g + y;
    assert v[|x|] == close && 1 <= |x| < |v|;
    CaptureSteps(line, key, open, close, z, v);
  }

  lemma Ungroup(line: string, key: string, w: string, open: char, x: string, close: char, y: string)
    requires line == key + w + [open] + x + [close] + y
    ensures line == key + (w + ([open] + (x + [close] + y)))
  {
  }

  /** Leading whitespace before a non-space character is all `lstrip()` removes. */
  lemma StripLeftBlank(w: string, z: string)
    requires IsBlank(w) && z != [] && !IsSpace(z[0])
    ensures StripLeft(w + z) == z
  {
    StripLeftSkips(w + z, 0, |w|);
    assert (w + z)[0..] == w + z && (w + z)[|w|..] == z;
  }

  lemma {:induction false} LineHeadAppend(a: string, b: string)
    requires '\n' !in a
    ensures LineHead(a + b) == a + LineHead(b)
  {
    if a != [] {
      assert (a + b)[0] == a[0] && (a + b)[1..] == a[1..] + b;
      assert '\n' !in a[1..];
      LineHeadAppend(a[1..], b);
    } else {
      assert a + b == b;
    }
  }

  lemma {:induction false} LineHeadSuffix(u: string, j: nat)
    requires j <= |LineHead(u)|
    ensures LineHead(u[j..]) == LineHead(u)[j..]
  {
    if j > 0 {
      LineHeadSuffix(u[1..], j - 1);
      assert u[1..][j - 1..] == u[j..];
    }
  }

  /**
   * The tags line the blog publisher writes is re-rendered with every item
   * translated, in order: `tags: [x]` becomes `tags: ['T(a)', 'T(b)']` for
   * the items read from the comma-separated pieces of `x`.
   */
  lemma TagsLineTranslated(T: string -> string, x: string)
    requires x != [] && '\n' !in x
    ensures TranslateLine(T, "tags: [" + x + "]") == "tags: " + PyList(TranslateAll(T, ListItems(Split(x, ","))))
  {
    var line := "tags: [" + x + "]";
    TagsLineShape(x);
    ListLineOf(T, "tags:", x, line);
    TagsDispatch(T, line);
  }

  lemma TagsLineShape(x: string)
    ensures var line := "tags: [" + x + "]";
      line == "tags:" + " [" + x + "]" && StartsWith(line, "tags:") && !StartsWith(line, "title:")
      && "tags:" + " " == "tags: "
  {
    var line := "tags: [" + x + "]";
    assert line[..5] == "tags:" && line[1] == 'a';
  }

  lemma TagsDispatch(T: string -> string, line: string)
    requires !StartsWith(line, "title:") && StartsWith(line, "tags:")
    ensures TranslateLine(T, line) == ListLine(T, "tags:", line)
  {
  }

  lemma CategoriesDispatch(T: string -> string, line: string)
    requires !StartsWith(line, "title:") && !StartsWith(line, "tags:") && StartsWith(line, "categories:")
    ensures TranslateLine(T, line) == ListLine(T, "categories:", line)
  {
  }

  /** The categories line likewise: `categories: [x]` becomes the list of the translated items. */
  lemma CategoriesLineTranslated(T: string -> string, x: string)
    requires x != [] && '\n' !in x
    ensures TranslateLine(T, "categories: [" + x + "]")
            == "categories: " + PyList(TranslateAll(T, ListItems(Split(x, ","))))
  {
    var line := "categories: [" + x + "]";
    CategoriesLineShape(x);
    ListLineOf(T, "categories:", x, line);
    CategoriesDispatch(T, line);
  }

  lemma CategoriesLineShape(x: string)
    ensures var line := "categories: [" + x + "]";
      line == "categories:" + " [" + x + "]"
      && StartsWith(line, "categories:") && !StartsWith(line, "title:") && !StartsWith(line, "tags:")
      && "categories:" + " " == "categories: "
  {
    var line := "categories: [" + x + "]";
    assert line[..11] == "categories:" && line[0] == 'c';
  }

  /** A list line written as `key [x]` is re-rendered from the items of `x`. */
  lemma ListLineOf(T: string -> string, key: string, x: string, line: string)
    requires x != [] && '\n' !in x && line == key + " [" + x + "]"
    ensures ListLine(T, key, line) == key + " " + PyList(TranslateAll(T, ListItems(Split(x, ","))))
  {
    assert line == key + " " + ['['] + x + [']'];
    CaptureOf(key, '[', x, ']');
    ListLineCaptured(T, key, line, x);
  }

  lemma ListLineCaptured(T: string -> string, key: string, line: string, x: string)
    requires Capture(line, key, '[', ']') == Some(x)
    ensures ListLine(T, key, line) == key + " " + PyList(TranslateAll(T, ListItems(Split(x, ","))))
  {
  }

  /** `key []`: the group `(.+)` needs at least one character, so an empty list does not match. */
  lemma EmptyListNoMatch(key: string)
    ensures Capture(key + " []", key, '[', ']').None?
  {
    AfterKey(key, " []");
    SpaceThenText("[]");
    assert "[]"[1..] == "]";
    LineHeadNoBreak("]");
    CaptureSteps(key + " []", key, '[', ']', "[]", "]");
  }

  /** The comprehension keeps order: on two runs of elements it gives the items of each, one after the other. */
  lemma {:induction false} FilterMapAppend<A, B>(f: A -> Option<B>, a: seq<A>, b: seq<A>)
    ensures FilterMap(f, a + b) == FilterMap(f, a) + FilterMap(f, b)
  {
    if a == [] {
      assert a + b == b;
    } else {
      var h := if f(a[0]).Some? then [f(a[0]).value] else [];
      assert (a + b)[0] == a[0] && (a + b)[1..] == a[1..] + b;
      FilterMapAppend(f, a[1..], b);
      assert h + (FilterMap(f, a[1..]) + FilterMap(f, b)) == (h + FilterMap(f, a[1..])) + FilterMap(f, b);
    }
  }

  /** When no element is dropped there is one item per element, in order. */
  lemma {:induction false} FilterMapEach<A, B>(f: A -> Option<B>, xs: seq<A>)
    requires forall i :: 0 <= i < |xs| ==> f(xs[i]).Some?
    ensures |FilterMap(f, xs)| == |xs|
    ensures forall i :: 0 <= i < |xs| ==> FilterMap(f, xs)[i] == f(xs[i]).value
  {
    if xs != [] {
      var tail := xs[1..];
      assert forall i :: 0 <= i < |tail| ==> tail[i] == xs[i + 1];
      FilterMapEach(f, tail);
    }
  }

  /** A whitespace-only piece, such as the one after a trailing comma, yields no item. */
  lemma ListItemsDropBlank(a: seq<string>, p: string, b: seq<string>)
    requires IsBlank(p)
    ensures ListItems(a + [p] + b) == ListItems(a) + ListItems(b)
  {
    FilterMapAppend(Item, a + [p], b);
    FilterMapAppend(Item, a, [p]);
    assert [p][1..] == [];
    assert FilterMap(Item, [p]) == [];
  }

  /** Without whitespace-only pieces there is one item per piece: the piece trimmed of whitespace, then of quotes. */
  lemma ListItemsEach(parts: seq<string>)
    requires forall i :: 0 <= i < |parts| ==> !IsBlank(parts[i])
    ensures |ListItems(parts)| == |parts|
    ensures forall i :: 0 <= i < |parts| ==> ListItems(parts)[i] == StripChars(Strip(parts[i]), {'\'', '"'})
  {
    FilterMapEach(Item, parts);
  }

  /** Without a front matter block the whole text is translated as one, and blank text is left alone. */
  lemma NoFrontMatterWhole(T: string -> string, markdown: string)
    requires !StartsWith(markdown, "---")
    ensures TranslateMarkdown(T, markdown) == TranslateText(T, markdown)
    ensures IsBlank(markdown) ==> TranslateMarkdown(T, markdown) == markdown
  {
  }
}
