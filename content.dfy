/**
 * The shared content record (`models/content.py`): the two content kinds and
 * the fields, with the defaults the record declares.
 */
module ContentModel {
  import opened Wrappers

  /** `ContentType`: a string enum with exactly two members. */
  datatype ContentType = Blog | Sns

  /** The member's string value. */
  function ContentTypeValue(t: ContentType): string
  {
    match t
    case Blog => "blog"
    case Sns => "sns"
  }

  /** `ContentType(s)`: only the two values are accepted. */
  function ParseContentType(s: string): (r: Option<ContentType>)
    ensures r.Some? <==> s == "blog" || s == "sns"
    ensures r.Some? ==> ContentTypeValue(r.value) == s
  {
    if s == "blog" then Some(Blog) else if s == "sns" then Some(Sns) else None
  }

  /** Each member is recovered from its value. */
  lemma ContentTypeRoundTrip(t: ContentType)
    ensures ParseContentType(ContentTypeValue(t)) == Some(t)
  {
  }

  /** A naive local `datetime`, to the second. */
  datatype DateTime = DateTime(year: nat, month: nat, day: nat, hour: nat, minute: nat, second: nat)

  /** The ranges Python's `datetime` enforces (the day is not checked against the month). */
  predicate ValidDateTime(d: DateTime)
  {
    1 <= d.year <= 9999 && 1 <= d.month <= 12 && 1 <= d.day <= 31
    && d.hour < 24 && d.minute < 60 && d.second < 60
  }

  /**
   * The `Content` record, with the three fields its readers evidently
   * intend it to have. `slug`, `date` and `categories` are NOT declared by
   * the Python record (models/content.py:12-21): the blog loader passes
   * `date` and `categories` (blog/content_loader.py:84,86), which pydantic
   * drops, and the blog publisher and the workflow read `slug`, `date` and
   * `categories`, which raises `AttributeError` (`AttributeAsWritten` below).
   * The model carries them as optional fields; see "Findings" in the README.
   */
  datatype Content = Content(
    contentType: ContentType,
    text: string,
    title: Option<string>,
    imagePaths: Option<seq<string>>,
    videoPath: Option<string>,
    tags: Option<seq<string>>,
    platforms: seq<string>,
    snsText: Option<string>,
    scheduledAt: Option<DateTime>,
    slug: Option<string>,
    date: Option<DateTime>,
    categories: Option<seq<string>>)

  /** The keyword arguments given to the record's constructor; `None` means "not passed". */
  datatype Fields = Fields(
    contentType: Option<string>,
    text: Option<string>,
    title: Option<string>,
    imagePaths: Option<seq<string>>,
    videoPath: Option<string>,
    tags: Option<seq<string>>,
    platforms: Option<seq<string>>,
    snsText: Option<string>,
    scheduledAt: Option<DateTime>,
    slug: Option<string>,
    date: Option<DateTime>,
    categories: Option<seq<string>>)

  datatype FieldError = Missing(field: string) | NotAnEnumMember(field: string, given: string)

  /** Only the two required fields passed: `Content(content_type=..., text=...)`. */
  function Required(t: Option<string>, text: Option<string>): Fields
  {
    Fields(t, text, None, None, None, None, None, None, None, None, None, None)
  }

  function ContentTypeErrors(t: Option<string>): seq<FieldError>
  {
    match t
    case None => [Missing("content_type")]
    case Some(s) => if ParseContentType(s).Some? then [] else [NotAnEnumMember("content_type", s)]
  }

  /**
   * Record construction: every missing or invalid required field is reported
   * (in declaration order); otherwise the record holds exactly the given
   * values, `platforms` defaulting to the empty list and every other optional
   * field to absent.
   */
  function Construct(f: Fields): (r: Result<Content, seq<FieldError>>)
    ensures r.Ok? <==> f.contentType.Some? && ParseContentType(f.contentType.value).Some? && f.text.Some?
    ensures r.Err? ==> (Missing("text") in r.error <==> f.text.None?)
    ensures r.Err? ==> (Missing("content_type") in r.error <==> f.contentType.None?)
    ensures r.Ok? ==> ContentTypeValue(r.value.contentType) == f.contentType.value && r.value.text == f.text.value
    ensures r.Ok? ==> r.value.platforms == f.platforms.GetOr([])
    ensures r.Ok? ==> (r.value.title == f.title && r.value.imagePaths == f.imagePaths
                       && r.value.videoPath == f.videoPath && r.value.tags == f.tags
                       && r.value.snsText == f.snsText && r.value.scheduledAt == f.scheduledAt
                       && r.value.slug == f.slug && r.value.date == f.date
                       && r.value.categories == f.categories)
  {
    var errors := ContentTypeErrors(f.contentType) + (if f.text.None? then [Missing("text")] else []);
    if errors != [] then Err(errors)
    else
      Ok(Content(ParseContentType(f.contentType.value).value, f.text.value, f.title, f.imagePaths,
                 f.videoPath, f.tags, f.platforms.GetOr([]), f.snsText, f.scheduledAt,
                 f.slug, f.date, f.categories))
  }

  /** The record built from the two required fields only. */
  function Make(t: ContentType, text: string): (c: Content)
  {
    Content(t, text, None, None, None, None, [], None, None, None, None, None)
  }

  /**
   * Passing only the required fields yields `Make`: no title, images, video,
   * tags, SNS text or schedule, and an empty platform list.
   */
  lemma {:induction false} MinimalDefaults(t: ContentType, text: string)
    ensures Construct(Required(Some(ContentTypeValue(t)), Some(text))) == Ok(Make(t, text))
    ensures var c := Make(t, text);
      c.platforms == [] && c.title.None? && c.imagePaths.None? && c.videoPath.None?
      && c.tags.None? && c.snsText.None? && c.scheduledAt.None?
  {
    ContentTypeRoundTrip(t);
  }

  /** How Python's f-strings show an optional string: `None` when absent. */
  function Shown(s: Option<string>): string
  {
    match s
    case None => "None"
    case Some(v) => v
  }

  /** `content.image_paths` is truthy: present and non-empty. */
  predicate HasImages(c: Content)
  {
    c.imagePaths.Some? && c.imagePaths.value != []
  }

  /** The fields `models/content.py` declares. */
  const DeclaredFields: set<string> :=
    {"content_type", "text", "title", "image_paths", "video_path", "tags", "platforms", "sns_text", "scheduled_at"}

  /**
   * Reading attribute `name` of a record as the code is written: pydantic
   * ignores keyword arguments the model does not declare, so a record only
   * has the declared fields and any other name raises `AttributeError`.
   */
  function AttributeAsWritten(name: string): (r: Result<(), string>)
    ensures r.Ok? <==> name in DeclaredFields
    ensures r.Err? ==> r.error == "'Content' object has no attribute '" + name + "'"
  {
    if name in DeclaredFields then Ok(()) else Err("'Content' object has no attribute '" + name + "'")
  }

  /**
   * The date and categories the loader passes are not kept, and the reads of
   * `date`, `categories` and `slug` by the blog publisher and the workflow
   * raise; the declared fields they also read do not.
   */
  lemma UndeclaredFieldsRaise()
    ensures AttributeAsWritten("date").Err? && AttributeAsWritten("categories").Err?
    ensures AttributeAsWritten("slug").Err?
    ensures AttributeAsWritten("title").Ok? && AttributeAsWritten("tags").Ok? && AttributeAsWritten("text").Ok?
  {
  }
}
