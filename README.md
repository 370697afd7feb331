# Caption row assembly of the AI social post generator

The generator asks a language model for captions for six platforms. The model
replies with a JSON object keyed by platform name, and each value holds
`caption`, `hashtags` and `cta` strings. The app turns that decoded object
into one spreadsheet row with six columns, in the order TikTok, Instagram,
Facebook, Twitter, Snapchat, YouTube.

For each platform the reply names, the column is a caption block with three
parts:

- the stripped caption;
- a blank line, then the stripped hashtags, split on whitespace, cut to the
  platform's ideal count and joined by single spaces;
- a blank line, then the stripped call-to-action.

A platform the reply leaves out gets an empty column. The ideal counts are
TikTok 10, Instagram 20, Facebook 10, Twitter 5, Snapchat 5 and YouTube 5;
any other platform name gets 10.

The model has three modules:

- `PyStr` (`pystr.dfy`) covers the parts of Python's `str` that the code
  relies on:
  - `isspace`, with the exact set of whitespace characters;
  - `strip()`, as `lstrip` then `rstrip`;
  - `split()` with no separator, as the left-to-right scan CPython performs;
  - `sep.join(parts)`.

  Its lemmas relate `split()` to `join`, to `strip()` and to runs of
  whitespace of any kind.
- `Captions` (`captions.dfy`) covers three things:
  - the hashtag table and its `.get(platform, 10)` lookup;
  - `truncate_hashtags`, with Python's slice semantics, including a negative
    count;
  - `build_caption_block`.

  It also defines `ParseBlock`, a reader that recovers caption, hashtags and
  call-to-action from a block. `ParseBlock` is not in the app; it exists so
  that the block layout can be stated as a round trip.
- `Row` (`row.dfy`) covers the row assembly loop:
  - the reply is a small JSON value type;
  - `RowOf` is the specification;
  - `AssembleRow` is the loop itself, proved equal to `RowOf`.

  A platform value that is not an object, or a field present with a
  non-string value, makes Python raise (`.get` or `.strip` on the wrong type).
  The handler's `except Exception` catches it, and no row is written. The
  model carries this as an `Err` naming the platform and field. As in the
  code, the first failing platform in column order decides the error, and
  within a platform the first failing field in the order caption, hashtags,
  cta.

The code does not deduplicate hashtags, remove inline hashtags from the
caption, supply a default call-to-action, or leave the column empty when
caption and hashtags are both empty. Two lemmas show this:

- `Captions.KeepsDuplicateTags` shows a repeated tag is kept.
- `Row.EmptyEntryColumn` shows that a platform named with no fields gets
  `"\n\n\n\n"`, not `""`.

## Model

| member | source | states |
|---|---|---|
| PyStr.IsSpace | app.py:52 | the character set of Python's `str.isspace()`: ASCII space, tab to carriage return, the four information separators, NEL, no-break space, and the Unicode space, line and paragraph separators; the `strip()` and `split()` lemmas below are stated over it |
| PyStr.TrimStart | app.py:52 | the leading-whitespace removal keeps a suffix of the input, drops only whitespace, and leaves no leading whitespace |
| PyStr.TrimEnd | app.py:52 | the trailing-whitespace removal keeps a prefix of the input, drops only whitespace, and leaves no trailing whitespace |
| PyStr.Strip | app.py:91-93 | `strip()` never lengthens, leaves no whitespace at either end, and is empty exactly when the input is all whitespace |
| PyStr.StripDecomposes | app.py:52 | the input is whitespace, then the stripped text, then whitespace |
| PyStr.StripIdempotent | app.py:52 | stripping the already stripped hashtag string again (line 92, then line 52) changes nothing |
| PyStr.Split | app.py:52 | `str.split()` with no separator, as CPython's left-to-right scan over whitespace; it never yields more pieces than characters; its properties are `SplitTokens`, `SplitKeepsNonSpace`, `SplitEmptyIff`, `SplitStrip`, `SplitSeparated` and `SplitJoin` |
| PyStr.SplitTokens | app.py:52 | every piece `split()` yields is non-empty and free of whitespace |
| PyStr.SplitKeepsNonSpace | app.py:52 | the pieces of `split()` concatenated are the input with all whitespace removed, so no character is lost or invented |
| PyStr.SplitEmptyIff | app.py:52 | `split()` yields no tags exactly when the string is empty or all whitespace |
| PyStr.SplitStrip | app.py:52 | `strip().split()` is the same as `split()` |
| PyStr.Join | app.py:47 | `sep.join(parts)`; its properties are `JoinNoSpace` and the round trip `SplitJoin` |
| PyStr.JoinNoSpace | app.py:47 | joining whitespace-free tags puts whitespace only where the separator is |
| PyStr.SplitJoin | app.py:47 | splitting tags joined by single spaces gives back exactly those tags |
| PyStr.SplitSeparated | app.py:52 | any non-empty run of whitespace (spaces, tabs, line breaks) separates tokens: splitting around it is splitting each side |
| PyStr.SplitTab | app.py:52 | `"#a\t#b"` splits into `#a` and `#b` |
| Captions.HashtagCap | app.py:95 | the cap is between 5 and 20, and it is the default 10 for a platform not in the table |
| Captions.HashtagCapTable | app.py:36-43 | the six table entries are 10, 20, 10, 5, 5 and 5, and any other name gets 10 |
| Captions.SliceLength | app.py:53 | the slice `tags[:n]` keeps `n` elements, or all of them when there are fewer; a negative `n` drops `-n` from the end, or keeps none when there are fewer |
| Captions.TruncateHashtags | app.py:50-53 | Python's slice `[:max_count]` of the stripped string's `split()`; never more than `max_count` tags; its full contract is `TruncateHashtagsSpec` |
| Captions.TruncateHashtagsSpec | app.py:50-53 | the result is a prefix of the hashtag string's tokens, with at most `max_count` of them and all of them when there are fewer; a negative count drops that many from the end; all pieces are tokens; an all-whitespace string gives none |
| Captions.KeepsDuplicateTags | app.py:50-53 | `"#a #a"` cut to 5 keeps both copies of `#a` |
| Captions.BuildCaptionBlock | app.py:45-48 | the block is four characters longer than caption, joined hashtag line and call-to-action together |
| Captions.BuildThenParse | app.py:45-48 | a block reads back as the caption, hashtags and call-to-action it was built from, when the caption has no blank line and no final line break and the hashtags are tokens |
| Captions.StrippedBlockReadsBack | app.py:91-97 | when the stripped caption has no blank line, the block built from stripped fields reads back as the stripped caption, the cut hashtags and the stripped call-to-action |
| Captions.EmptyBlock | app.py:48 | a block built from nothing is `"\n\n\n\n"` |
| Row.StrippedField | app.py:91-93 | an absent field reads as `""`; a string field reads as its own text stripped; the read fails exactly when the field is present and not a string, and the error names the platform and field |
| Row.ReadableField | app.py:91-93 | a field that is absent or a string reads as the stripped text of the field, with absent as `""` |
| Row.EntryBlock | app.py:90-97 | a platform's block has at least the four separator characters, and its error names that platform |
| Row.EntryBlockError | app.py:90-93 | an entry fails exactly when it is not an object or one of its three fields is not a string; the error is "not an object" first, then the first bad field in the order caption, hashtags, cta |
| Row.Column | app.py:90-100 | an absent platform's column is `""`, a present platform's column is never empty, and an error comes only from a present platform |
| Row.EmptyEntryColumn | app.py:90-98 | a platform named with an empty object gets `"\n\n\n\n"` |
| Row.ColumnReadsBack | app.py:90-97 | when its stripped caption has no blank line, a well-formed present platform's column reads back as its stripped caption, at most its cap of hashtags, which lead the tokens of its hashtags field, and its stripped call-to-action |
| Row.WellFormedBlock | app.py:90-97 | the block of a well-formed entry is built from its three stripped fields and the hashtags cut to the platform's cap |
| Row.RowOf | app.py:86-100 | the row specification: the six columns walked in column order, the first failing column's error otherwise; a produced row has one entry per platform; `RowColumns`, `RowOkIff` and `RowErrIsFirst` state the rest |
| Row.RowColumns | app.py:86-100 | a produced row has one entry per platform, and entry `i` is platform `i`'s column |
| Row.RowOkIff | app.py:86-100 | a row is produced exactly when every platform's column is |
| Row.RowErrIsFirst | app.py:89-98 | a failed row reports the error of the first failing platform in column order, and every platform before it succeeded |
| Row.RowIgnoresOtherKeys | app.py:89-90 | two replies that agree on the listed platforms give the same row |
| Row.ExtraKeyIgnored | app.py:88-90 | adding a key that is not one of the six platforms does not change the row |
| Row.EmptyReplyRow | app.py:88-100 | a reply naming no platform gives six empty columns |
| Row.AssembleRow | app.py:86-100 | the loop's result is the row specification; a produced row has six entries, and entry `i` is empty exactly when platform `i` is absent from the reply |
| Row.PlatformBlock | app.py:91-97 | the loop body for a present platform computes that platform's block or its error |

## Left out

- The Streamlit page, the transcript input and the warning on empty input are
  not modelled. They are user interface.
- The OpenAI chat call and the stripping of its reply are not modelled. They
  are network I/O. The reply enters the model already decoded.
- `json.loads` and its `JSONDecodeError` branch are not modelled. The model
  starts from a decoded object. A top-level value that is not an object (a
  list, say, where `in` means something else) is outside the model, and only
  the JSON kinds the loop tells apart are kept.
- The Google Sheets client and `append_row` are not modelled. They are
  external I/O; the model ends at the row handed to them.
- The display string `"\n\n---\n\n".join(row)` and the unused `cta_line`
  constant are not modelled. Neither affects the row.
- `PyStr.IsSpace` follows Python's `str.isspace` character set on Unicode
  scalar values. Surrogates and Unicode normalisation play no part.
- `Row.AssembleRow` computes each block through `Row.PlatformBlock`, which
  does the three field reads in the order of lines 91-93. The list the loop
  appends to is a local sequence, not a shared object.
- The text of the Python exception is not modelled. `AttributeError` names
  the offending value's type. The platform and field carried by `Row.Error`
  are labels the model adds to say which read failed.
