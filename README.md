# Thumbnail text layout, modelled in Dafny

A model of the text-layout engine of `text_image_thumbnails`
(`src/thumbnail_maker.py`), which renders an academic paper's title,
authors and abstract into a thumbnail image. The model covers:

- the greedy word wrapper `split_lines`: the text is split on single spaces.
  A word joins the current line when the measured width of the line's words,
  the word and a lone `" "` element, joined by spaces, is at most
  `width - 2*padding`. Otherwise the current line is closed with `"\n"` and
  the word starts the next line;
- horizontal placement: `centered_box_corner` for centred blocks, the left
  padding for left-aligned ones;
- vertical stacking `image_height`: the running top of each block and the
  total height;
- `assemble_image`: the layout, the `min_height` clamp, and the canvas with one
  multi-line draw per block, in order;
- `thumbnail_image`: a centred title, centred authors and a left-aligned
  abstract, all cleaned up and all at the same line spacing;
- the string helpers `make_author_string`, `simple_filename` and `text_cleanup`.

Text measurement belongs to the font library. It is modelled as a `Metrics`
value: three arbitrary non-negative functions of the font, the text and the
spacing. These are the single-line width (`getsize`), the multi-line width and
the multi-line height (`getsize_multiline`). Every wrapping and layout property
below therefore holds for any measure. A font is a handle (file, size, style
index). The canvas is a `Canvas` object with a fixed size, a white background,
and the ordered list of draw commands it has received. Each command is
`(x, y, text, font, align, fill, spacing)`.

Files: `strings.dfy` (Python `split`/`join`, flattening, one-character
replacement), `options.dfy`, `fonts.dfy`, `wrap.dfy` (`split_lines`),
`layout.dfy` (placement, stacking, canvas, `assemble_image`) and
`thumbnail.dfy` (orchestrator and string helpers).

`split_lines` is a loop-based method. It is proved equal to a tail-recursive
specification, `WrapFrom`. `WrapFrom` is then characterised independently by
`GreedyFrom`, which says:
- the groups hold exactly the words, in order;
- every word that opens a line after the first failed the width test against
  the line before it;
- every other word passed the test against the words before it on its line.

The characterisation is proved both ways: the loop's grouping satisfies it,
and it is the only grouping that does. So every line after the first opens
with a word that failed the width test; the count of lines as such is not
stated as a separate lemma.

Points where the code may surprise a reader:

- The text is split on single spaces, not on whitespace. Runs of spaces give
  empty words, which are kept and placed like any other word.
- The width test measures the line's words plus the word plus a `" "` element,
  joined by spaces. That string ends in two spaces, so it is not the line that
  is finally drawn. What is proved is that every line of two or more words
  passed this test. Nothing is proved about the drawn line's own width.
- The centring box is measured on the lines joined by spaces. Every line after
  the first therefore carries a leading space in the measurement that it does
  not carry when drawn. The measurement uses the library's default multi-line
  spacing of 4, not the block's own spacing.
- The first line is `"\n"` (empty) when the first word alone fails the test.

## Model

| member | source | states |
|---|---|---|
| `Strings.JoinWith` | src/thumbnail_maker.py:86 | `sep.join(parts)`: empty for no parts, otherwise starting with the first part; `JoinSplit` and `SplitJoin` state it inverts `split` |
| `Strings.ReplaceChar` | src/thumbnail_maker.py:250 | the one-character substitution keeps the length, turns every occurrence of the character into the replacement and leaves every other character in place |
| `Strings.SplitOn` | src/thumbnail_maker.py:92 | `txt.split(" ")` is never empty, no field holds the separator, and every character of a field comes from the text |
| `Strings.JoinSplit` | src/thumbnail_maker.py:92 | joining the fields of a split with the separator gives the text back |
| `Strings.SplitJoin` | src/thumbnail_maker.py:21-22 | splitting a join of separator-free fields gives the fields back |
| `LineWrap.JoinWords` | src/thumbnail_maker.py:85-86 | `join_words`: the words joined by single spaces (defined through `Strings.JoinWith`; its round trip is `LineWrap.JoinWordsSplit`) |
| `LineWrap.JoinWordsSplit` | src/thumbnail_maker.py:85-86 | splitting a `join_words` result on spaces gives back its words when none holds a space |
| `LineWrap.SplitLines` | src/thumbnail_maker.py:89-103 | the loop returns exactly the lines of the greedy grouping `Groups`: every group but the last closed with `"\n"` |
| `LineWrap.WrapKeepsWords` | src/thumbnail_maker.py:95-102 | the loop's groups concatenate to the closed lines, the current line and the remaining words, in order |
| `LineWrap.WrapIsGreedy` | src/thumbnail_maker.py:95-101 | the loop's grouping satisfies the greedy characterisation: accepted words pass the `<=` test, each new line opens with a rejected word |
| `LineWrap.GreedyIsUnique` | src/thumbnail_maker.py:95-101 | any grouping satisfying the greedy characterisation is the loop's grouping |
| `LineWrap.GreedyAccepts` | src/thumbnail_maker.py:96-98 | in a greedy wrapping, a word kept on the current line passed the width test |
| `LineWrap.GreedyRejects` | src/thumbnail_maker.py:99-101 | in a greedy wrapping, a word that opens a new line failed the width test, and the closed line is the current line unchanged |
| `LineWrap.GroupsAreTheGreedyWrap` | src/thumbnail_maker.py:89-103 | a grouping of `txt.split(" ")` is greedy for `width - 2*padding` if and only if it is the one `split_lines` produces |
| `LineWrap.SplitLinesKeepsWords` | src/thumbnail_maker.py:92-102 | the lines' word groups concatenate to exactly `txt.split(" ")`, empty fields included: nothing dropped, duplicated, split or reordered |
| `LineWrap.MultiWordLinesFit` | src/thumbnail_maker.py:90-98 | every line of two or more words passed the width test with its last word; only a lone word may overflow |
| `LineWrap.FirstWordRejected` | src/thumbnail_maker.py:96-101 | when the first word fails the test, the first line is the empty `"\n"` and the word opens the second line |
| `LineWrap.GroupsNonEmpty` | src/thumbnail_maker.py:96-101 | when the first word passes the test, no line is empty of words |
| `LineWrap.LineBreaksOnlyAtEnds` | src/thumbnail_maker.py:100-102 | for text without newlines there is at least one line, every line but the last ends in its only `"\n"`, and the last holds none |
| `LineWrap.DrawnTextRejoins` | src/thumbnail_maker.py:92-102 | when the first word fits, the concatenated lines with line breaks turned back into spaces are the original text |
| `LineWrap.DrawnTextChars` | src/thumbnail_maker.py:92-102 | the concatenated lines add no character except spaces and line breaks |
| `LineWrap.EmptyTextLines` | src/thumbnail_maker.py:92-102 | `""` is one empty word: `[""]` when it passes the test, otherwise `["\n", ""]` |
| `Layout.AlignOf` | src/thumbnail_maker.py:151 | the alignment is `center` exactly for centred blocks |
| `Layout.BoxWidth` | src/thumbnail_maker.py:107 | the box is the multi-line width of the lines joined by spaces at the default spacing 4; a single line is measured as itself |
| `Layout.CenteredBoxCorner` | src/thumbnail_maker.py:106-109 | the corner leaves equal margins left and right of the measured box (`2x + bbox == width`), and is at or right of 0 exactly when the box fits in the width |
| `Layout.ImageHeight` | src/thumbnail_maker.py:112-121 | the loop returns one offset per block, `pts[i] = v_padding + Σ_{j<i} h_j + i*p_spacing`, and total `2*v_padding + Σ h_i + (n-1)*p_spacing` |
| `Layout.OffsetsStep` | src/thumbnail_maker.py:113-119 | `pts[0] == v_padding` and `pts[i+1] == pts[i] + h_i + p_spacing` |
| `Layout.OffsetsMonotone` | src/thumbnail_maker.py:116-119 | offsets never decrease when heights and spacing are non-negative |
| `Layout.LastBlockEndsAtPadding` | src/thumbnail_maker.py:120 | the last block ends exactly one vertical padding above the total height |
| `Layout.BlockInsideTotal` | src/thumbnail_maker.py:112-121 | with non-negative heights, padding and spacing, every block starts at or below 0 and ends at least one padding above the total height |
| `Layout.TotalHeightMonotone` | src/thumbnail_maker.py:112-121 | taller blocks never give a smaller total height, and a strictly taller block gives a strictly larger one |
| `Layout.CanvasHeight` | src/thumbnail_maker.py:146-147 | the canvas is at least the stacked height, at least `min_height` when given, one of the two, and exactly the stacked height when `min_height` is None |
| `Layout.Canvas.constructor` | src/thumbnail_maker.py:149 | a new canvas has the given size and background and no drawing |
| `Layout.Canvas.MultilineText` | src/thumbnail_maker.py:155-162 | a draw call appends its command to what has been drawn and changes nothing else |
| `Layout.WrapSections` | src/thumbnail_maker.py:127-142 | the first loop records, per section and in order, the concatenated wrapped lines, the font, the left edge (centred corner or `w_padding`), the centring flag and the spacing |
| `Layout.DrawSections` | src/thumbnail_maker.py:150-162 | the drawing loop appends exactly one black command per section, in order, with the section's position, text, font, alignment and spacing |
| `Layout.AssembleImage` | src/thumbnail_maker.py:124-163 | the canvas is fresh, as wide as given, white, of the clamped height, and carries exactly the per-section draw commands in input order |
| `Layout.CommandsFollowSections` | src/thumbnail_maker.py:132-162 | one command per section, in order, with the section's wrapped text, font and spacing, centred exactly when the section is, in black |
| `Layout.SectionsPlacedHorizontally` | src/thumbnail_maker.py:137-141 | a centred section has equal margins around its measured box; a left-aligned one starts at `w_padding` |
| `Layout.SectionsStackInsideCanvas` | src/thumbnail_maker.py:144-149 | sections start at `v_padding` and each starts one height and one spacing below the previous; with non-negative padding and spacing every section lies inside the canvas above its bottom padding |
| `Thumbnail.TextCleanup` | src/thumbnail_maker.py:249-251 | the result has the input's length, no U+2010, every U+2010 turned into `-` and every other character unchanged |
| `Thumbnail.TextCleanupIdempotent` | src/thumbnail_maker.py:249-251 | cleaning twice equals cleaning once |
| `Thumbnail.MakeAuthorString` | src/thumbnail_maker.py:26-35 | the Oxford setting defaults to on; fails exactly on the empty list; one name is itself; two names are `"A and B"` whatever the Oxford setting |
| `Thumbnail.AuthorStringForms` | src/thumbnail_maker.py:29-34 | with three or more names the Oxford form is the `", "`-joined list ending in `"and <last>"`, and the plain form drops the comma before `" and "` |
| `Thumbnail.AuthorStringEnds` | src/thumbnail_maker.py:31-34 | with two or more names the string starts with the first name and ends with `" and "` and the last name |
| `Thumbnail.AuthorStringExamples` | src/thumbnail_maker.py:26-35 | `"A"`, `"A and B"`, `"A, B, and C"`, `"A, B and C"`, and failure on `[]` |
| `Thumbnail.Lower` | src/thumbnail_maker.py:20 | lower-casing maps exactly `A`-`Z` to `a`-`z`, keeps the length and leaves no upper-case ASCII letter |
| `Thumbnail.StripPunctuation` | src/thumbnail_maker.py:20 | the pattern removal keeps only characters of the input that are ASCII letters, digits or `\s` whitespace, and keeps every such character of the input |
| `Thumbnail.StripPunctuationKeepsCleanText` | src/thumbnail_maker.py:20 | a text made only of letters, digits and whitespace is left unchanged |
| `Thumbnail.StripPunctuationAppend` | src/thumbnail_maker.py:20 | the removal distributes over concatenation, so the kept characters stay in their order |
| `Thumbnail.PyPrefix` | src/thumbnail_maker.py:22 | the slice `[0:max_words]` is a prefix of length `min(k, n)`, or `n + k` (at least 0) for negative `k` |
| `Thumbnail.SimpleFilename` | src/thumbnail_maker.py:19-23 | `max_words` defaults to 10; the name starts with `img_dir + "/"` and ends with `".png"` |
| `Thumbnail.SlugWordChars` | src/thumbnail_maker.py:20-21 | every character of a slug word is a lower-case letter, a digit or ASCII whitespace other than the space, never `_` |
| `Thumbnail.SlugChars` | src/thumbnail_maker.py:20-22 | the slug holds no space and no punctuation: only lower-case letters, digits, `_` and other ASCII whitespace |
| `Thumbnail.SlugRoundTrip` | src/thumbnail_maker.py:20-22 | splitting a non-empty slug on `_` gives back exactly the title words it kept |
| `Thumbnail.ThumbnailSections` | src/thumbnail_maker.py:234-238 | three sections: the cleaned title and authors centred, the cleaned abstract left-aligned, with their own fonts, the common line spacing and no U+2010 in any text |
| `Thumbnail.ThumbnailImage` | src/thumbnail_maker.py:166-246 | the thumbnail is the assembled image of the cleaned title, authors and abstract sections with the given settings, which default to line spacing 10, width 1000, paddings 50, section spacing 25 and no minimum height |
| `Thumbnail.ThumbnailLayout` | src/thumbnail_maker.py:234-246 | three commands: title and authors centred, abstract at the left padding, each with its own font and the common spacing. No drawn text holds U+2010, and the canvas is never shorter than `min_height` |

## Left out

- `build_fonts`, `FONT_DIRS` and `DEFAULT_FONT_LOCATION` (src/thumbnail_maker.py:6-16, 38-82): loading a font is a call into the font library and the filesystem. `ThumbnailImage` takes the three loaded fonts, so the font name, location, sizes and style indices of `thumbnail_image` (src/thumbnail_maker.py:170-176) are not parameters of the model, and a font that fails to load is not modelled.
- Text measurement: the font library's metrics are arbitrary non-negative functions here. No property depends on how glyphs are measured.
- Pixel rendering: `Image.new`, `ImageDraw.Draw` and `multiline_text` are modelled only as the canvas size, its background and the ordered draw commands. How the library places each line inside a block is not modelled.
- Floating point: the centred corner is computed exactly as a `real`, not as an IEEE double.
- `Image.new` rejects a negative size. The model computes the clamped height without that check.
- `simple_filename` on non-ASCII text: lower-casing and `\s` are modelled on ASCII only (`\s` there is tab through carriage return, U+001C-U+001F and the space). Python also keeps non-ASCII Unicode whitespace, and it lower-cases a few non-ASCII letters (U+0130, U+212A) to ASCII letters that the pattern then keeps.
- `TotalHeightMonotone`: a taller block never gives a shorter canvas. Whether a wider title wraps into more lines, and so into a taller block, depends on the font metrics, which are not modelled.
- `make_thumbnails.py`: CSV reading, author-column selection, option parsing, directory and batch naming, and saving with 150 DPI are input/output glue.
- `src/.ipynb_checkpoints/thumbnail_maker-checkpoint.py` is an older copy that nothing imports.
