# indieshout, modelled in Dafny

indieshout publishes one piece of writing in two places. A post goes to a
Hugo blog: a Markdown file with front matter, its images uploaded to S3, an
English translation, and a git commit. A short text goes to social networks
(X and Threads), with a link to the blog post when there is one.

This project models the core of that pipeline:

- the content record and its two kinds;
- the content formatter and its per-platform dispatch;
- the loader that reads a `blog-content/<folder>` (`content.md`, `meta.md`,
  `assets/`);
- the Hugo publisher: validation, front matter, date stamp, slug, image
  upload and path rewriting, git outcome, reading a post back, and the
  publication as a whole;
- the front-matter-aware translator;
- the X and Threads publishers: authentication, validation, publication;
- the configuration loader with its environment overlay;
- the blog-plus-SNS workflow;
- the `post` command of the CLI.

Everything the program asks of the outside world is a parameter:

- the file system is a map from path to file or directory (`Loader.FileSystem`), or from path to size (`Social.Sizes`);
- the current time is a `DateTime`;
- the translation service is a function `T`;
- the S3 upload is a function from path and key to an optional URL;
- git outcomes are given as results;
- the HTTP answers of the Threads API are given as responses;
- tweepy's answers are given as optional ids;
- the environment is a map.

The workflow and the CLI see each publisher as a function from content to
its outcome.

Python's string operations (`strip`, `split`, `join`, `replace`, `find`,
`lower`), its dict (insertion-ordered, assignment in place) and its stable
`sorted` are modelled in `Text`, `Dict` and `Sorting`. Their contracts state
what Python documents for the cases the core relies on: what `strip` removes
and keeps, the value a dict lookup finds, the order and stability of
`sorted`. Unicode character classes are approximated (see "Left out").

Three modules hold classes, because the source updates those objects in
place: `Threads.ThreadsPublisher`, `Twitter.TwitterPublisher`
and `Config.ConfigDict`. A fourth, `Workflow.PublishWorkflow`, keeps its
configuration and its publisher registry as fields. Loops of the source are
methods with loop invariants, each proved equal to a function that says what
it computes:

| method | function it is proved equal to |
|---|---|
| `Loader.ParseMetaFile` | `MetaOf` |
| `Hugo.ReplaceImagePaths` | `RewriteAll` |
| `Hugo.UploadImages` | `UploadMap` |
| `Translator.TranslateEach` | `TranslateLines` |
| `Social.Validate` | `ValidateSpec` |
| `Config.ConfigDict.InjectEnvSecrets` | `Overlay` |
| `Workflow.PublishWorkflow.PublishSns` | `SnsEntries` |
| `Cli.PublishEach` | `EntryFor` per target |
| `Cli.Tally` | `Successes`, `Failures`, `Skips` |

`models/content.py` does not declare `slug`, `date` or `categories`. As
written, pydantic drops the `date` and `categories` the loader passes, and
every read of the three raises `AttributeError`
(`ContentModel.AttributeAsWritten`). The Hugo publisher, the workflow and the
loader are written as if the three were declared optional fields, and the
model gives the record those fields; "Findings" records the discrepancy.

## Model

| member | source | states |
|---|---|---|
| ContentModel.ParseContentType | src/indieshout/models/content.py:7-9 | only "blog" and "sns" name a content kind, and the kind parsed from a value has that value |
| ContentModel.ContentTypeRoundTrip | src/indieshout/models/content.py:7-9 | each content kind is recovered from its string value |
| ContentModel.Construct | src/indieshout/models/content.py:12-21 | construction succeeds exactly when content_type is a valid member and text is given; a missing required field is reported by name; a built record holds the given values, with platforms defaulting to the empty list; it also carries the optional `slug`, `date` and `categories` the rest of the program reads, which the source's model does not declare (see Findings) |
| ContentModel.MinimalDefaults | src/indieshout/models/content.py:15-21 | a record built from the two required fields has no title, images, video, tags, SNS text or schedule, and an empty platform list |
| ContentModel.AttributeAsWritten | src/indieshout/models/content.py:12-21 | as written, reading an attribute of a record succeeds exactly for the nine declared fields; any other name raises `AttributeError` with pydantic's message naming it |
| ContentModel.UndeclaredFieldsRaise | src/indieshout/blog/hugo_publisher.py:63-79 | as written, the reads of `date`, `categories` and `slug` raise, while `title`, `tags` and `text` are read |
| Text.Strip | src/indieshout/blog/content_loader.py:129-130 | `strip()` leaves neither leading nor trailing whitespace, and gives the empty string exactly for whitespace-only text; Text.StripInfix places the result in the text |
| Text.StripInfix | src/indieshout/blog/content_loader.py:129-130 | the stripped text is an infix of the input with only whitespace before and after it, so nothing inside is changed |
| Text.StripAfterBlank | src/indieshout/blog/hugo_publisher.py:142 | whitespace in front of a text does not survive `strip()` |
| Text.StripChars | src/indieshout/utils/translator.py:61 | `strip(chars)` gives an infix of the text with only characters of the set before and after it, and neither of its ends is in the set |
| Text.Find | src/indieshout/blog/content_loader.py:117-118 | `find` gives the least index where the pattern occurs, and none when it does not occur |
| Text.Split | src/indieshout/blog/content_loader.py:126 | `split(sep)` always gives at least one piece |
| Text.JoinSplit | src/indieshout/utils/translator.py:40-91 | joining the pieces of a split with the same separator gives the text back |
| Text.SplitPiecesFree | src/indieshout/blog/content_loader.py:126 | no piece of a split contains the separator |
| Text.ReplaceIsSplitJoin | src/indieshout/blog/hugo_publisher.py:237-240 | `replace` equals split followed by join: the text between occurrences is kept verbatim |
| Text.ReplaceSelf | src/indieshout/blog/hugo_publisher.py:237-240 | replacing a pattern with itself changes nothing |
| Text.Lower | src/indieshout/publishers/twitter.py:62 | `lower()` keeps the length and maps each character on its own |
| Text.Pad | src/indieshout/blog/hugo_publisher.py:64 | a zero-padded field has exactly its width and only digits |
| Text.PadValue | src/indieshout/blog/hugo_publisher.py:64 | a zero-padded field reads back as its number when the number fits the width |
| Text.Decimal | src/indieshout/publishers/twitter.py:56 | `str(n)` is a non-empty run of digits whose value is n, starting with 0 exactly when n is 0, and without a leading zero when longer than one digit |
| Text.LeadingDigits | src/indieshout/blog/content_loader.py:72 | the group of `(\d+)` at the start is a digit prefix of the text, not followed by a digit |
| Text.SplitFrontMatter | src/indieshout/blog/hugo_publisher.py:138-146 | `startswith("---")` plus `split("---", 2)` with three parts splits the text into an opening `---`, a block without `---`, a second `---` and the rest; otherwise the text does not open with `---` or has no second delimiter |
| Text.Quoted | src/indieshout/utils/translator.py:66 | each item is wrapped in single quotes, in order |
| Dict.Get | src/indieshout/workflows/publish_workflow.py:107 | a key has a value exactly when it is among the dict's keys, and the value found is that of the first entry holding the key |
| Dict.Put | src/indieshout/workflows/publish_workflow.py:115 | after `d[k] = v` the key holds the new value and every other key keeps its value |
| Dict.PutKeys | src/indieshout/workflows/publish_workflow.py:115 | an existing key keeps its place and a new key goes last |
| Dict.PutDistinct | src/indieshout/workflows/publish_workflow.py:115 | assignment never duplicates a key |
| Sorting.SortBy | src/indieshout/blog/content_loader.py:70-75 | `sorted` keeps the number of elements; order, permutation and stability are the lemmas below |
| Sorting.SortByPermutes | src/indieshout/blog/content_loader.py:70-75 | the sorted list is a permutation of the input |
| Sorting.SortBySorted | src/indieshout/blog/content_loader.py:70-75 | the sorted list is ordered by key |
| Sorting.SortStable | src/indieshout/blog/content_loader.py:70-75 | the sort is stable: elements with equal keys keep their input order |
| Sorting.InsertPermutes | src/indieshout/blog/content_loader.py:70-75 | inserting an element adds exactly that element |
| Sorting.InsertSorted | src/indieshout/blog/content_loader.py:70-75 | inserting into a sorted list keeps it sorted |
| Sorting.InsertWithKey | src/indieshout/blog/content_loader.py:70-75 | an inserted element goes after every element with its key |
| Sorting.FilterAppend | src/indieshout/blog/content_loader.py:70-76 | filtering a list keeps order across a concatenation |
| Sorting.InsertFilter | src/indieshout/blog/content_loader.py:70-76 | inserting an element into a sorted list and then filtering equals filtering and then inserting the element if it passes |
| Sorting.SortByFilter | src/indieshout/blog/content_loader.py:70-76 | filtering commutes with the stable sort: keeping the files after sorting gives the sorted files |
| Loader.BaseName | src/indieshout/blog/content_loader.py:156 | a path's name holds no `/` |
| Loader.BaseNameJoin | src/indieshout/blog/content_loader.py:156 | the name of a joined path is the name that was joined |
| Loader.CommaList | src/indieshout/blog/content_loader.py:133-137 | one trimmed item per comma-separated piece, in order; an empty value gives one empty item |
| Loader.MetaEntry | src/indieshout/blog/content_loader.py:127-139 | a line without a colon sets nothing; otherwise the line is split at its first colon, the key and the value are trimmed, tags, categories and platforms get the value's comma-separated trimmed items and every other key gets the string |
| Loader.ApplyLine | src/indieshout/blog/content_loader.py:127-139 | one `meta.md` line sets its entry's key in the metadata, and a line without a colon leaves it unchanged (Loader.NoColonIgnored) |
| Loader.FoldLines | src/indieshout/blog/content_loader.py:126-139 | the lines are applied one after the other, left to right (Loader.LastLineWins, Loader.FoldKeepsUntouched) |
| Loader.MetaLines | src/indieshout/blog/content_loader.py:116-126 | the metadata part before the first `---`, trimmed, split at line breaks (Loader.SplitMeta) |
| Loader.MetaOf | src/indieshout/blog/content_loader.py:114-144 | the metadata of a `meta.md` text is the fold over its metadata lines with `sns_text` set last (Loader.SnsTextFromSeparator, Loader.ParseMetaFile) |
| Loader.SplitMeta | src/indieshout/blog/content_loader.py:117-121 | with a `---`, the text splits at its first occurrence; without one, all of it is metadata and the SNS part is empty |
| Loader.ParseMetaFile | src/indieshout/blog/content_loader.py:114-144 | the line loop builds exactly the metadata the fold over the lines describes, then sets `sns_text` |
| Loader.FoldKeepsUntouched | src/indieshout/blog/content_loader.py:126-139 | lines that do not set a key leave that key's value or absence as it was |
| Loader.LastLineWins | src/indieshout/blog/content_loader.py:126-139 | the last line that sets a key decides its value |
| Loader.NoColonIgnored | src/indieshout/blog/content_loader.py:127 | a line without a colon changes nothing |
| Loader.ListKeysHoldItems | src/indieshout/blog/content_loader.py:132-137 | tags, categories and platforms always hold lists |
| Loader.SnsTextFromSeparator | src/indieshout/blog/content_loader.py:117-142 | `sns_text` is always set: the trimmed text after the first `---`, overriding any `sns_text:` line, or empty when there is no separator |
| Loader.LastIndexOf | src/indieshout/blog/content_loader.py:72 | the index of the last occurrence of a character, or none when it does not occur |
| Loader.Stem | src/indieshout/blog/content_loader.py:72 | a stem is a prefix of the name; it differs from the name exactly when some dot after the first character and before the last is the last dot, and then it ends just before that dot |
| Loader.Keyed | src/indieshout/blog/content_loader.py:70-75 | each asset is paired with its sort key, in listing order |
| Loader.AssetKey | src/indieshout/blog/content_loader.py:72-74 | the key is the number at the start of the stem, or 999 (Loader.AssetKeyNumbered, Loader.AssetKeyUnnumbered) |
| Loader.SortAssets | src/indieshout/blog/content_loader.py:70-75 | the assets sorted stably by key (Loader.SortAssetsSpec, Loader.SortAssetsOrdered) |
| Loader.SortAssetsSpec | src/indieshout/blog/content_loader.py:70-75 | the sorted assets are the listed ones, each once, in key order, with ties in listing order |
| Loader.SortAssetsOrdered | src/indieshout/blog/content_loader.py:70-75 | the sorted assets have non-decreasing keys; for each key they hold the listed assets with that key in listing order, and nothing unlisted |
| Loader.AssetKeyNumbered | src/indieshout/blog/content_loader.py:72-74 | a numbered asset sorts by the number at the start of its stem |
| Loader.AssetKeyUnnumbered | src/indieshout/blog/content_loader.py:72-74 | an asset whose stem does not start with digits gets key 999 |
| Loader.KeepFiles | src/indieshout/blog/content_loader.py:76 | exactly the listed entries that are regular files are kept, each joined to the directory, and no path that is not a listed name joined to it |
| Loader.KeepFilesAppend | src/indieshout/blog/content_loader.py:76 | keeping files goes entry by entry, so the listing order is kept |
| Loader.AssetPaths | src/indieshout/blog/content_loader.py:66-76 | no images without an `assets` directory; with one, the paths are given by Loader.AssetPathsSorted and Loader.AssetPathsOrder |
| Loader.AssetPathsSorted | src/indieshout/blog/content_loader.py:66-76 | the image paths are the regular files of `assets/`, in the order of the stable sort by key of the listing, each joined to the directory |
| Loader.AssetPathsOrder | src/indieshout/blog/content_loader.py:66-76 | the image paths are in non-decreasing key order, there is one per regular file, and for each key the files holding it appear in listing order |
| Loader.Assemble | src/indieshout/blog/content_loader.py:78-93 | the blog record has the blog kind and the content text; the title defaults to the folder name; tags and categories are the listed items when given and empty lists otherwise; images are absent when there are none; the record is dated now; platforms are the listed items when given and x and threads otherwise; the SNS text is the `sns_text` value, or empty |
| Loader.LoadFromFolder | src/indieshout/blog/content_loader.py:46-93 | the folder, then `content.md`, then `meta.md` are checked, each missing one reported by path; loading succeeds exactly when all three exist, and then gives the assembled bundle |
| Loader.FilterFolders | src/indieshout/blog/content_loader.py:155-159 | exactly the listed names that are directories and do not start with a dot are kept |
| Loader.ListFolders | src/indieshout/blog/content_loader.py:146-159 | an absent root lists nothing; otherwise exactly its subdirectories whose names do not start with a dot |
| Formatter.HashtagWords | src/indieshout/formatter/content_formatter.py:16 | each tag gets a `#` prefix, in order |
| Formatter.Hashtags | src/indieshout/formatter/content_formatter.py:16 | the `#tag` words joined by spaces; read back by Formatter.HashtagsReadBack |
| Formatter.FormatDefault | src/indieshout/formatter/content_formatter.py:11-19 | the text is kept whole at the start; without tags it is all, with tags a blank line and the hashtags follow |
| Formatter.FormatForPlatform | src/indieshout/formatter/content_formatter.py:5-9 | the rule a platform defines, else the default rule (Formatter.RegisteredRuleUsed, Formatter.UnregisteredFallsBack, Formatter.RegistrationIsLocal) |
| Formatter.RegisteredRuleUsed | src/indieshout/formatter/content_formatter.py:5-9 | a rule defined for a platform is the one used for it |
| Formatter.RegistrationIsLocal | src/indieshout/formatter/content_formatter.py:5-9 | defining a rule for one platform changes nothing for the others |
| Formatter.UnregisteredFallsBack | src/indieshout/formatter/content_formatter.py:5-9 | a platform without a rule gets the default rule |
| Formatter.BuiltinIsDefaultEverywhere | src/indieshout/formatter/content_formatter.py:5-19 | with the formatter's own rules every platform name gets the default rule |
| Formatter.HashtagsReadBack | src/indieshout/formatter/content_formatter.py:16 | the hashtag line split at spaces gives back `#tag` per tag when no tag holds a space |
| Formatter.DefaultWithTwoTags | src/indieshout/formatter/content_formatter.py:11-19 | "Hello world" with tags python and dev formats as "Hello world\n\n#python #dev" |
| Formatter.DirectRuleCall | src/indieshout/publishers/twitter.py:72-74 | the direct attribute call succeeds exactly when the formatter defines a rule with that name |
| Formatter.PlatformRulesMissing | src/indieshout/publishers/threads.py:68-70 | the direct calls for x and threads fail for every content |
| Formatter.PlatformText | src/indieshout/formatter/content_formatter.py:5-9 | the text a publisher posts is the default format of the content |
| Formatter.PlatformTextForX | src/indieshout/publishers/twitter.py:72-74 | for X, "Hello world" with tag dev becomes "Hello world\n\n#dev" |
| Hugo.Validate | src/indieshout/blog/hugo_publisher.py:46-58 | blank text, then a missing title, then a missing repository is reported, first failure first; valid exactly when all three checks pass |
| Hugo.DateStamp | src/indieshout/blog/hugo_publisher.py:63-64 | the stamp always has 25 characters |
| Hugo.ParseDateStamp | src/indieshout/blog/hugo_publisher.py:64 | a parsed stamp has 25 characters and ends in +09:00 |
| Hugo.DateStampRoundTrip | src/indieshout/blog/hugo_publisher.py:63-64 | every valid date-time is read back from its stamp |
| Hugo.FrontMatterLines | src/indieshout/blog/hugo_publisher.py:66-72 | the title, date stamp, draft flag, tags and categories lines, in that order (Hugo.AbsentListsEmpty, Hugo.FrontMatterLinesRunFree) |
| Hugo.FrontMatter | src/indieshout/blog/hugo_publisher.py:66-75 | the lines between two `---` delimiters, read back by Hugo.ReadBack |
| Hugo.PostSlug | src/indieshout/blog/hugo_publisher.py:79 | a non-empty slug of the record is used; without one a slug is generated, which fails exactly when there is no title |
| Hugo.FormatContent | src/indieshout/blog/hugo_publisher.py:60-80 | formatting fails exactly when no slug can be had; the Markdown is the front matter followed by the unchanged text |
| Hugo.AbsentListsEmpty | src/indieshout/blog/hugo_publisher.py:66-72 | absent tags and categories are written as `[]` in the front matter |
| Hugo.PyListExample | src/indieshout/blog/hugo_publisher.py:70 | tags test and hugo are written as `['test', 'hugo']` |
| Hugo.PostBody | src/indieshout/blog/hugo_publisher.py:137-146 | with a front matter block the body is the trimmed text after it; otherwise the whole text, untrimmed |
| Hugo.ReadPost | src/indieshout/blog/hugo_publisher.py:130-152 | a missing file is reported by path; a read post is a blog record whose text is the body and whose title is the file's stem |
| Hugo.PostBodyWithoutFrontMatter | src/indieshout/blog/hugo_publisher.py:145-146 | a text that does not open with `---` is its own body |
| Hugo.DateStampRunFree | src/indieshout/blog/hugo_publisher.py:64 | a date stamp holds no `---` and neither starts nor ends with a hyphen |
| Hugo.FrontMatterLinesRunFree | src/indieshout/blog/hugo_publisher.py:66-72 | the front matter lines hold no `---` when the title, tags and categories hold none |
| Hugo.FirstDelimiter | src/indieshout/blog/hugo_publisher.py:139 | the first `---` after a run-free front matter is its closing delimiter |
| Hugo.ReadBack | src/indieshout/blog/hugo_publisher.py:138-142 | a post with a run-free front matter splits back into that front matter and the rest |
| Hugo.FormatThenRead | src/indieshout/blog/hugo_publisher.py:66-75 | reading a formatted post back gives its trimmed text, when the title, tags and categories hold no `---` |
| Hugo.KeepSlugChars | src/indieshout/blog/hugo_publisher.py:182 | only word characters, whitespace and hyphens remain, all taken from the input |
| Hugo.Collapse | src/indieshout/blog/hugo_publisher.py:183 | the collapse keeps a leading character that is not a separator |
| Hugo.CollapseWord | src/indieshout/blog/hugo_publisher.py:183 | a stretch without separators passes through unchanged |
| Hugo.CollapseRun | src/indieshout/blog/hugo_publisher.py:183 | a run of separators, however long, becomes one hyphen |
| Hugo.SlugBody | src/indieshout/blog/hugo_publisher.py:178-184 | the lower-cased title filtered, separators collapsed and hyphens stripped at the ends (Hugo.SlugBodyWellFormed) |
| Hugo.SlugBodyWellFormed | src/indieshout/blog/hugo_publisher.py:178-184 | the slug body holds only word characters and single hyphens, and neither starts nor ends with a hyphen |
| Hugo.GenerateSlug | src/indieshout/blog/hugo_publisher.py:172-188 | a generated slug is eight digits, a hyphen and the slug body |
| Hugo.GenerateSlugDate | src/indieshout/blog/hugo_publisher.py:187-188 | the eight digits read back as the year, month and day of the clock |
| Hugo.PostUrl | src/indieshout/blog/hugo_publisher.py:167-170 | the URL is the base URL, the default language, `posts` and the slug, and exists exactly when a slug can be had |
| Hugo.UrlMatchesFormattedSlug | src/indieshout/blog/hugo_publisher.py:79 | the URL names the slug the post is formatted and written under |
| Hugo.RewriteOne | src/indieshout/blog/hugo_publisher.py:235-240 | one map entry's three replacements, in order (Hugo.RewriteAbsent, Hugo.RewriteToItself, Hugo.LinkTargetsOnly) |
| Hugo.RewriteAll | src/indieshout/blog/hugo_publisher.py:224-242 | the map's entries applied in order; the loop of Hugo.ReplaceImagePaths is proved equal to it |
| Hugo.ReplaceImagePaths | src/indieshout/blog/hugo_publisher.py:224-242 | the loop applies each map entry in order, its three forms one after the other; an empty map leaves the text unchanged |
| Hugo.RewriteAbsent | src/indieshout/blog/hugo_publisher.py:235-240 | an entry whose path occurs in none of its three forms changes nothing |
| Hugo.RewriteToItself | src/indieshout/blog/hugo_publisher.py:235-240 | an entry that maps a path to itself changes nothing |
| Hugo.LinkTargetsOnly | src/indieshout/blog/hugo_publisher.py:237 | the Markdown link rewrite keeps every piece of text between the occurrences, and no piece holds the old target |
| Hugo.UploadKey | src/indieshout/blog/hugo_publisher.py:204-214 | `posts/<slug>/<file name>` (Hugo.UploadKeyName) |
| Hugo.UploadKeyName | src/indieshout/blog/hugo_publisher.py:204-214 | an image's object key is `posts/<slug>/<file name>` |
| Hugo.UploadImages | src/indieshout/blog/hugo_publisher.py:190-222 | the loop builds exactly the map the fold over the paths describes |
| Hugo.UploadStep | src/indieshout/blog/hugo_publisher.py:206-220 | one path: its URL is recorded when it exists and uploads, otherwise the map is unchanged (Hugo.UploadFoldGet) |
| Hugo.UploadFold | src/indieshout/blog/hugo_publisher.py:206-220 | the paths processed in order (Hugo.UploadFoldGet, Hugo.UploadFoldDistinct) |
| Hugo.UploadMap | src/indieshout/blog/hugo_publisher.py:200-222 | no uploader gives the empty map, otherwise the fold from empty (Hugo.UploadMapExact) |
| Hugo.UploadFoldGet | src/indieshout/blog/hugo_publisher.py:206-220 | a path maps to its URL when it is listed, exists and uploads; otherwise it keeps what it had |
| Hugo.UploadMapExact | src/indieshout/blog/hugo_publisher.py:200-222 | no uploader gives an empty map; otherwise the map holds exactly the listed existing paths whose upload gave a URL |
| Hugo.UploadFoldDistinct | src/indieshout/blog/hugo_publisher.py:216 | the map never holds a path twice |
| Hugo.GitCommit | src/indieshout/blog/hugo_publisher.py:244-266 | the first failing git step is tolerated exactly when its error output says "nothing to commit"; a clean add and commit succeed; every other failure is an error |
| Hugo.CommitNotRunAfterFailedAdd | src/indieshout/blog/hugo_publisher.py:247-262 | after a failed add, the commit's outcome does not matter |
| Hugo.Publication | src/indieshout/blog/hugo_publisher.py:82-128 | a successful publication: the formatted post, its images uploaded when there are any and an uploader, their paths rewritten in the Korean file, the English file translated from it; Hugo.Publish gives it on success, and Hugo.PublishedWithoutImages, Hugo.NoEnglish and Hugo.TranslateFormatted state its parts |
| Hugo.Publish | src/indieshout/blog/hugo_publisher.py:82-128 | a formatting failure or a git failure is the publication's error; otherwise the result is the publication |
| Hugo.PublishedWithoutImages | src/indieshout/blog/hugo_publisher.py:88-101 | without images nothing is uploaded, the Korean file is the formatted Markdown, and it reads back as the text |
| Hugo.NoEnglish | src/indieshout/blog/hugo_publisher.py:103-125 | without English among the languages nothing is translated, and an English file is reported only when one was already there |
| Hugo.TranslateFormatted | src/indieshout/blog/hugo_publisher.py:105-108 | the English file of a formatted post is the translated front matter between fresh delimiters, then the translated trimmed text |
| Social.Extension | src/indieshout/publishers/twitter.py:62 | an extension is empty or a dot and a suffix free of slashes and dots; Social.ExtensionOfName places it in the file name |
| Social.ExtensionOfName | src/indieshout/publishers/twitter.py:62 | the extension is a suffix of the file name, and it is non-empty exactly when some dot of the name has a non-dot character before it |
| Social.ImageError | src/indieshout/publishers/twitter.py:58-68 | an image passes exactly when it exists, has an allowed lower-cased extension and is within the size limit |
| Social.NoImageError | src/indieshout/publishers/twitter.py:58-68 | no error exactly when every image passes |
| Social.FirstImageError | src/indieshout/publishers/threads.py:54-64 | the error of the first failing image, in image order (Social.FirstFailing, Social.NoImageError) |
| Social.FirstFailing | src/indieshout/publishers/threads.py:54-64 | a reported image error is that of the first failing image |
| Social.ValidateSpec | src/indieshout/publishers/twitter.py:47-70 | blank text is reported first, then a missing authentication |
| Social.Validate | src/indieshout/publishers/threads.py:41-66 | the checking loop gives exactly the result the specification of the checks gives |
| Social.ValidIff | src/indieshout/publishers/twitter.py:47-70 | content is accepted exactly when the text is not blank, the publisher is authenticated, there are at most the limit's images and each passes |
| Social.CountBeforeFiles | src/indieshout/publishers/twitter.py:54-56 | too many images is reported before any image is looked at |
| Social.SizeLimitInclusive | src/indieshout/publishers/threads.py:62-64 | an image of exactly the size limit passes and one byte more fails |
| Social.UpperCaseExtension | src/indieshout/publishers/twitter.py:62-63 | `photo.JPG` has an allowed extension |
| Twitter.TweetText | src/indieshout/publishers/twitter.py:72-74 | models the corrected call named in Findings (as written, the call raises `AttributeError` at twitter.py:73): the tweet text is the default format of the content |
| Twitter.MediaIds | src/indieshout/publishers/twitter.py:80-83 | one media id per image, in image order, or none as soon as one upload fails |
| Twitter.Request | src/indieshout/publishers/twitter.py:85-87 | the request carries the text, and the media ids exactly when there are some |
| Twitter.TwitterPublisher.constructor | src/indieshout/publishers/twitter.py:15-19 | a new publisher has neither client nor API object |
| Twitter.TwitterPublisher.Authenticate | src/indieshout/publishers/twitter.py:21-45 | client and API object are set even when the user lookup fails; authentication succeeds exactly when the user is found |
| Twitter.TwitterPublisher.Validate | src/indieshout/publishers/twitter.py:47-70 | the shared checks with X's limits, with "authenticated" meaning a client is set |
| Twitter.TwitterPublisher.Publish | src/indieshout/publishers/twitter.py:76-95 | models the corrected formatter call named in Findings (as written, publishing raises `AttributeError` at twitter.py:77): a tweet is requested exactly when there is a client and, with images, an API object and every upload succeeds; the result is the tweet id and its x.com URL |
| Twitter.IdsInImageOrder | src/indieshout/publishers/twitter.py:80-83 | with every upload succeeding, the ids are the uploads' answers in image order |
| Threads.ThreadText | src/indieshout/publishers/threads.py:68-70 | models the corrected call named in Findings (as written, the call raises `AttributeError` at threads.py:69): the post text is the default format of the content |
| Threads.ThreadsPublisher.constructor | src/indieshout/publishers/threads.py:16-19 | a new publisher has neither token nor user id |
| Threads.ThreadsPublisher.Authenticate | src/indieshout/publishers/threads.py:22-39 | token and user id are stored first; an empty one is refused before any request; otherwise it succeeds exactly on a 200 answer |
| Threads.ThreadsPublisher.Validate | src/indieshout/publishers/threads.py:41-66 | the shared checks with the Threads limits, with "authenticated" meaning a non-empty token |
| Threads.ThreadsPublisher.Publish | src/indieshout/publishers/threads.py:72-120 | models the corrected formatter call named in Findings (as written, publishing raises `AttributeError` at threads.py:73): images are refused before any request; otherwise the container is created and then published, and the first answer other than 200 is the error; success gives the thread id and its URL |
| Translator.TranslateText | src/indieshout/utils/translator.py:93-96 | blank text comes back unchanged without a translation; any other text is translated |
| Translator.TranslateAll | src/indieshout/utils/translator.py:65 | each item is translated, in order |
| Translator.Capture | src/indieshout/utils/translator.py:46 | a match needs the key at the start, and captures a non-empty group within the first line; Translator.CaptureMatch states exactly when it matches |
| Translator.CaptureMatch | src/indieshout/utils/translator.py:46-73 | the pattern matches exactly when the line is the key, whitespace, the opening character, a non-empty group without line breaks and the closing character; the captured group then has no closing character after it on its line, the greedy match |
| Translator.FilterMap | src/indieshout/utils/translator.py:60-64 | a comprehension with a condition yields at most one item per element |
| Translator.ListItems | src/indieshout/utils/translator.py:60-64 | at most one item per comma-separated piece |
| Translator.Item | src/indieshout/utils/translator.py:61 | a piece trimmed of whitespace, then of quotes (Translator.ListItemsEach) |
| Translator.ListLine | src/indieshout/utils/translator.py:55-69 | a tags or categories line that does not match the pattern is kept as it is |
| Translator.TranslateLine | src/indieshout/utils/translator.py:44-89 | title, tags and categories lines are re-rendered with translated values, every other line is kept (Translator.LineKept) |
| Translator.ListLineOf | src/indieshout/utils/translator.py:55-85 | a list line `key [x]` becomes the key, a space and the Python list of the translated items of x |
| Translator.TagsLineTranslated | src/indieshout/utils/translator.py:55-67 | `tags: [x]` becomes `tags: ` followed by the Python list of the translated items of x |
| Translator.CategoriesLineTranslated | src/indieshout/utils/translator.py:72-83 | `categories: [x]` becomes `categories: ` followed by the Python list of the translated items of x |
| Translator.LineKept | src/indieshout/utils/translator.py:44-89 | a line is kept unless it starts with title, tags or categories and matches that key's pattern |
| Translator.TranslateLines | src/indieshout/utils/translator.py:43-89 | one output line per input line |
| Translator.TranslateLinesAt | src/indieshout/utils/translator.py:43-89 | output line i is input line i translated |
| Translator.FrontMatterText | src/indieshout/utils/translator.py:38-40 | the trimmed front matter, split into lines (Translator.TranslateFrontMatter) |
| Translator.TranslateEach | src/indieshout/utils/translator.py:41-89 | the loop appends each translated line in order |
| Translator.TranslateFrontMatter | src/indieshout/utils/translator.py:38-91 | the trimmed front matter is translated line by line |
| Translator.TranslateMarkdown | src/indieshout/utils/translator.py:13-32 | with a front matter block, the translated block between fresh delimiters, a blank line and the translated trimmed body; otherwise the whole text is translated |
| Translator.CaptureOf | src/indieshout/utils/translator.py:46 | a line of the form key, space, opening character, group, closing character captures the group |
| Translator.TitleLineTranslated | src/indieshout/utils/translator.py:45-50 | `title: "x"` becomes `title: "T(x)"` |
| Translator.EmptyListNoMatch | src/indieshout/utils/translator.py:56 | an empty list `[]` does not match the pattern |
| Translator.FilterMapAppend | src/indieshout/utils/translator.py:60-64 | the comprehension keeps order across two runs of elements |
| Translator.FilterMapEach | src/indieshout/utils/translator.py:60-64 | when no element is dropped, there is one item per element, in order |
| Translator.ListItemsDropBlank | src/indieshout/utils/translator.py:63 | a whitespace-only piece yields no item |
| Translator.ListItemsEach | src/indieshout/utils/translator.py:60-64 | without blank pieces, each piece gives one item: trimmed of whitespace, then of quotes |
| Translator.NoFrontMatterWhole | src/indieshout/utils/translator.py:31-32 | a text not opening with `---` is translated as a whole, and blank text is left alone |
| Config.Lookup | src/indieshout/utils/config.py:29 | an entry is found exactly when its section is a table holding the key |
| Config.Truthy | src/indieshout/workflows/publish_workflow.py:27-29 | a section is truthy when present and, for a table, non-empty, for a scalar, true (Workflow.RegistryIff) |
| Config.Step | src/indieshout/utils/config.py:27-29 | one row: a set, non-empty variable writes its entry, creating the section when absent, and fails on a section that is not a table (Config.RowApplied, Config.OtherKeysUnchanged) |
| Config.Overlay | src/indieshout/utils/config.py:24-30 | the rows applied in order, stopping at the first failure (Config.OverlayFails, Config.TailFailed, Config.SecretsOverride) |
| Config.ConfigDict.constructor | src/indieshout/utils/config.py:40-48 | the dict starts from the given sections |
| Config.ConfigDict.InjectEnvSecrets | src/indieshout/utils/config.py:24-30 | the dict is changed in place to the overlay of the table's rows, in order; it fails exactly when the overlay fails, naming the section |
| Config.TailFailed | src/indieshout/utils/config.py:26-29 | once a row has failed, the later rows change nothing |
| Config.LoadConfig | src/indieshout/utils/config.py:33-52 | the file's mapping, or an empty dict when there is none, overlaid with the environment |
| Config.OverlayFails | src/indieshout/utils/config.py:26-29 | the overlay fails exactly when a row with a set variable names a section that is not a table; no section is lost |
| Config.OtherSectionsUnchanged | src/indieshout/utils/config.py:8-29 | a section no row names is left as it was |
| Config.OtherKeysUnchanged | src/indieshout/utils/config.py:8-29 | an entry no row names keeps its value or absence |
| Config.RowApplied | src/indieshout/utils/config.py:26-29 | after a successful overlay, a row's entry holds the environment value when set and non-empty, and its former value otherwise |
| Config.EmptyEnvironment | src/indieshout/utils/config.py:27-28 | an empty environment changes nothing and fails nowhere |
| Config.EnvMappingDistinct | src/indieshout/utils/config.py:8-21 | the twelve rows write twelve different entries |
| Config.SecretsOverride | src/indieshout/utils/config.py:24-30 | when every target section is absent or a table, the overlay succeeds and each mapped entry holds its environment value when set, and its old value otherwise |
| Workflow.RegistryIff | src/indieshout/workflows/publish_workflow.py:25-30 | x has a publisher exactly when the twitter section is truthy, threads exactly when the threads section is, and no other platform has one |
| Workflow.Registry | src/indieshout/workflows/publish_workflow.py:25-30 | the publisher map built from the configuration (Workflow.RegistryIff) |
| Workflow.DryRunUrl | src/indieshout/workflows/publish_workflow.py:71 | the dry-run URL is `https://example.com/posts/`, then the slug when it is present and non-empty or `test` otherwise, then a slash |
| Workflow.LinkedText | src/indieshout/workflows/publish_workflow.py:94-96 | without a blog URL the SNS text is unchanged; with one, the whole text is followed by a blank line, the link sign, a space and the URL |
| Workflow.SnsContent | src/indieshout/workflows/publish_workflow.py:99-103 | the SNS record has the SNS kind, the given text and platforms, and no images or tags |
| Workflow.BlogStep | src/indieshout/workflows/publish_workflow.py:65-87 | the blog phase: nothing when skipped, the made-up URL in a dry run, otherwise the publisher's URL, or a stop when it fails (Workflow.BlogFailureStops, Workflow.DryRunIndependent) |
| Workflow.EntryFor | src/indieshout/workflows/publish_workflow.py:113-127 | one platform's entry: `dry_run`, or its publisher's result or error (Workflow.FailureDoesNotStop, Workflow.DryRunEntries) |
| Workflow.SnsEntries | src/indieshout/workflows/publish_workflow.py:105-127 | the entries of the listed platforms with a publisher, in order (Workflow.SnsEntriesKeys, Workflow.SnsKeysConfigured) |
| Workflow.Run | src/indieshout/workflows/publish_workflow.py:63-127 | the blog phase, then, unless it stopped, the SNS phase on the linked text when SNS is not skipped and the text is not empty (Workflow.NoSnsPhase, Workflow.BlogFailureStops) |
| Workflow.PublishWorkflow.constructor | src/indieshout/workflows/publish_workflow.py:15-30 | the publishers are those the configuration enables |
| Workflow.PublishWorkflow.PublishSns | src/indieshout/workflows/publish_workflow.py:105-127 | the loop builds exactly the SNS entries the specification of the phase gives |
| Workflow.PublishWorkflow.RunLoaded | src/indieshout/workflows/publish_workflow.py:63-127 | the blog phase, then the SNS phase, as the specification of the run gives them |
| Workflow.PublishWorkflow.PublishFromFolder | src/indieshout/workflows/publish_workflow.py:32-151 | a load failure propagates; otherwise the result is the run on the loaded folder |
| Workflow.SnsEntriesKeys | src/indieshout/workflows/publish_workflow.py:106-127 | the SNS entries are keyed by exactly the listed platforms with a publisher, each once, and each entry is that platform's own outcome |
| Workflow.FailureDoesNotStop | src/indieshout/workflows/publish_workflow.py:116-127 | each configured listed platform is reported with its own success or error, whatever the others did |
| Workflow.SnsKeysConfigured | src/indieshout/workflows/publish_workflow.py:106-111 | only listed platforms with a publisher have entries |
| Workflow.BlogFailureStops | src/indieshout/workflows/publish_workflow.py:85-87 | a failed live blog phase ends the workflow with no blog entry and no SNS entries |
| Workflow.NoSnsPhase | src/indieshout/workflows/publish_workflow.py:90 | when SNS is skipped or there is no SNS text, there are no SNS entries |
| Workflow.DryRunEntries | src/indieshout/workflows/publish_workflow.py:113-115 | in a dry run every SNS entry is `dry_run`, whatever the publishers would do |
| Workflow.DryRunIndependent | src/indieshout/workflows/publish_workflow.py:69-72 | a dry run consults no publisher, and its blog entry is the made-up URL |
| Cli.PlatformList | src/indieshout/main.py:87 | an absent or empty option gives no platforms; otherwise the trimmed comma-separated items, never empty |
| Cli.PostContent | src/indieshout/main.py:88-95 | an SNS record with the text and platforms, and the image as a one-element list when given |
| Cli.Targets | src/indieshout/main.py:112 | the given platforms, or all known platforms when none are given |
| Cli.EntryFor | src/indieshout/main.py:115-131 | a target is skipped exactly when no publisher is known for it, and succeeds exactly when its publisher does |
| Cli.Successes | src/indieshout/main.py:134 | the number of successful results (Cli.TallyTotal) |
| Cli.Failures | src/indieshout/main.py:135 | the number of failed results (Cli.TallyTotal) |
| Cli.Skips | src/indieshout/main.py:136 | the number of skipped results (Cli.TallyTotal) |
| Cli.TallyTotal | src/indieshout/main.py:134-136 | every result is counted exactly once |
| Cli.Tally | src/indieshout/main.py:134-137 | the three counts are the numbers of successes, errors and skips, and they add up to the number of results |
| Cli.PublishEach | src/indieshout/main.py:115-131 | one entry per target, in order, whatever the earlier outcomes |
| Cli.Post | src/indieshout/main.py:82-137 | a dry run shows the default format and consults no publisher; a live run has one entry per target in order, and the counts add up to the number of targets |
| Cli.DefaultTargets | src/indieshout/main.py:10-13 | without `--platforms` a live run targets x and then threads |

## Left out

- Text.Lower: covers ASCII letters only; other characters are kept as they are, whereas Python's `lower()` also lower-cases non-ASCII letters.
- Hugo.KeepSlugChars: `\w` is approximated as ASCII letters, digits, `_` and every non-whitespace character from U+0080 on, whereas Python's `\w` follows the Unicode categories.
- Text.LeadingDigits: `\d` covers ASCII digits only, whereas Python's `\d` matches every Unicode decimal digit.
- Hugo.SlugBody: `NFKD` normalisation of the title is not modelled.
- Hugo.DateStamp: always writes four year digits, whereas the C library's `strftime("%Y")` does not pad years below 1000.
- Text.PyList: quotes each string in single quotes without escaping, whereas Python's `repr` of a list escapes quotes and backslashes.
- Path handling: paths are joined with `/` and looked up verbatim; pathlib's normalisation (`./`, `..`, repeated slashes) is not modelled.
- Hugo.PostUrl: uses the same clock reading as formatting; the source reads the clock again in `get_post_url`, so across midnight its slug may differ.
- Hugo.FormatContent: uses one clock reading both for the default date (hugo_publisher.py:63) and for the generated slug (hugo_publisher.py:187), where the source reads the clock twice; the two can differ across midnight.
- Effects: directory creation (`mkdir`, including the loader's creation of its root), file writes, console output and logging are not modelled. A publication reports the files it writes instead.
- Hugo: `authenticate` (checking `git config user.name`), `deploy` (`git push`), reading the publisher's settings from the configuration, and the S3 uploader's own behaviour are not modelled. The upload is a function from path and key to an optional URL.
- Translator: the translation subprocess, its prompt and `translate_file` are not modelled; translation is a function `T`. A failed translation is a flag that leaves the English file unwritten.
- Twitter: tweepy's client, credentials and exception classes are not modelled. A failed lookup or upload is an absent answer, and the error messages of upload failures are the model's own.
- Threads.ThreadsPublisher.Authenticate: takes the configured token and user id as strings, a missing one being the empty string; the `/me` request is represented by its response.
- Threads: HTTP transport, timeouts and JSON decoding are not modelled. A response carries its status, its text and the `id` of its JSON body.
- Config: YAML and dotenv parsing are not modelled. The file is given as a mapping of sections, or as absent or empty. A top-level YAML value that is not a mapping is not modelled. Non-string leaf values are not modelled.
- Config.ConfigDict.InjectEnvSecrets: reports a `TypeError` by the name of the offending section rather than by Python's message.
- Workflow: the final summary printing is not modelled. The blog and SNS publisher objects are represented by the outcome they give for a content.
- Cli: only the `post` command is modelled. The `blog publish` command only echoes. Click's option parsing and output are not modelled. Each publisher is represented by its outcome.
- Content: the `date` read by the loader is the clock reading given as a parameter. Datetime validation covers the ranges only, not the days of each month.
- Encoding: files are read as strings; UTF-8 decoding errors are not modelled.

## Findings

| source | as written | input that shows it | evidently intended | confidence | as-written member | corrected member |
|---|---|---|---|---|---|---|
| src/indieshout/publishers/twitter.py:72-74 | `format_content` calls `self._formatter._format_x(content)`, which `ContentFormatter` does not define, so it raises `AttributeError` | any content, for example text "Hello world" with tag "dev" | the formatter's dispatch `format_for_platform(content, "x")`, which falls back to the default rule | not executed | Formatter.DirectRuleCall | Formatter.PlatformTextForX |
| src/indieshout/publishers/threads.py:68-70 | `format_content` calls `self._formatter._format_threads(content)`, which `ContentFormatter` does not define, so it raises `AttributeError` | any content | `format_for_platform(content, "threads")`, the default rule | not executed | Formatter.PlatformRulesMissing | Formatter.PlatformText |
| src/indieshout/models/content.py:12-21 | `Content` declares neither `slug`, `date` nor `categories`; pydantic drops the `date` and `categories` the loader passes, and reading any of the three raises `AttributeError` | any loaded folder, formatted or dry-run: `content.date` at hugo_publisher.py:63, `content.categories` at :71, `content.slug` at :79 and :169, `blog_content.slug` at publish_workflow.py:71 | the three are optional fields of the record, kept as the loader gives them | not executed | ContentModel.UndeclaredFieldsRaise | Loader.Assemble |
