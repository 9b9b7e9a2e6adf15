/** The thumbnail orchestrator and its string helpers: `text_cleanup`,
    `make_author_string`, `simple_filename` and `thumbnail_image`, which
    lays out a centred title, centred authors and a left-aligned abstract. */
module Thumbnail {
  import opened Strings
  import opened Fonts
  import opened Options
  import opened LineWrap
  import opened Layout

  // ---------------------------------------------------------------------
  // text_cleanup

  /** U+2010 HYPHEN. */
  const UnicodeHyphen: char := '\U{2010}'

  /** `text_cleanup`: every U+2010 HYPHEN becomes an ASCII '-', every other
      character is kept in place. */
  function TextCleanup(text: string): (r: string)
    ensures |r| == |text|
    ensures UnicodeHyphen !in r
    ensures forall i :: 0 <= i < |text| && text[i] != UnicodeHyphen ==> r[i] == text[i]
    ensures forall i :: 0 <= i < |text| && text[i] == UnicodeHyphen ==> r[i] == '-'
  {
    ReplaceChar(text, UnicodeHyphen, '-')
  }

  /** Cleaning up twice is cleaning up once. */
  lemma TextCleanupIdempotent(text: string)
    ensures TextCleanup(TextCleanup(text)) == TextCleanup(text)
  {
  }

  // ---------------------------------------------------------------------
  // make_author_string

  /** `make_author_string`: one name alone; two names joined by " and "
      whatever the Oxford setting; more names as a ", "-separated list whose
      last name follows " and ", with a comma before it only with the Oxford
      setting. An empty list has no last name, and the source fails. */
  function MakeAuthorString(authorList: seq<string>, useOxford: bool := true): (r: Option<string>)
    ensures r.None? <==> |authorList| == 0
    ensures |authorList| == 1 ==> r == Some(authorList[0])
    ensures |authorList| == 2 ==> r == Some(authorList[0] + " and " + authorList[1])
  {
    if |authorList| == 1 then Some(authorList[0])
    else if |authorList| == 0 then None
    else
      var oxford := if |authorList| == 2 then false else useOxford;
      var front := JoinWith(", ", authorList[..|authorList| - 1]);
      assert |authorList| == 2 ==> authorList[..1] == [authorList[0]] && front + "" == front;
      Some(front + (if oxford then "," else "") + " and " + authorList[|authorList| - 1])
  }

  /** With three or more names, the Oxford form is the plain ", "-joined
      list whose last entry reads "and <last>"; the other form drops
      the comma before " and ". */
  lemma AuthorStringForms(authorList: seq<string>)
    requires |authorList| >= 3
    ensures var n := |authorList|;
      var list := authorList[..n - 1] + ["and " + authorList[n - 1]];
      && MakeAuthorString(authorList, true) == Some(JoinWith(", ", list))
      && MakeAuthorString(authorList, false) == Some(JoinWith(", ", authorList[..n - 1]) + " and " + authorList[n - 1])
  {
    var n := |authorList|;
    var front := authorList[..n - 1];
    var last := authorList[n - 1];
    JoinAppend(", ", front, ["and " + last]);
    assert JoinWith(", ", ["and " + last]) == "and " + last;
    assert JoinWith(", ", front) + "," + " and " + last == JoinWith(", ", front) + ", " + ("and " + last);
    assert JoinWith(", ", front) + "" + " and " + last == JoinWith(", ", front) + " and " + last;
  }

  /** A list of two or more names starts with the first name and ends with
      " and " and the last name. */
  lemma AuthorStringEnds(authorList: seq<string>, useOxford: bool)
    requires |authorList| >= 2
    ensures var r := MakeAuthorString(authorList, useOxford).value;
      var first := authorList[0];
      var tail := " and " + authorList[|authorList| - 1];
      && |r| >= |first| + |tail|
      && r[..|first|] == first
      && r[|r| - |tail|..] == tail
  {
  }

  /** Worked examples: "A"; "A and B"; "A, B, and C"; "A, B and C". */
  lemma AuthorStringExamples()
    ensures MakeAuthorString(["A"], true) == Some("A")
    ensures MakeAuthorString(["A", "B"], true) == Some("A and B")
    ensures MakeAuthorString(["A", "B", "C"]) == Some("A, B, and C")
    ensures MakeAuthorString(["A", "B", "C"], false) == Some("A, B and C")
    ensures MakeAuthorString([], true) == None
  {
    assert "A" + " and " + "B" == "A and B";
    assert ["A", "B", "C"][..2] == ["A", "B"];
    assert ["A", "B"][1..] == ["B"];
    assert JoinWith(", ", ["B"]) == "B";
    assert JoinWith(", ", ["A", "B"]) == "A" + ", " + "B" == "A, B";
    assert "A, B" + "," + " and " + "C" == "A, B, and C";
    assert "A, B" + "" + " and " + "C" == "A, B and C";
  }

  // ---------------------------------------------------------------------
  // simple_filename

  /** The ASCII characters `\s` matches in a text pattern: tab, line feed,
      vertical tab, form feed, carriage return, the four information
      separators U+001C-U+001F, and the space. */
  predicate IsAsciiWhitespace(c: char)
  {
    ('\t' <= c <= '\r') || ('\U{1C}' <= c <= '\U{1F}') || c == ' '
  }

  predicate IsAsciiAlnum(c: char)
  {
    ('A' <= c <= 'Z') || ('a' <= c <= 'z') || ('0' <= c <= '9')
  }

  /** The characters the slug pattern `[^A-Za-z0-9\s]+` does not remove. */
  predicate IsSlugChar(c: char)
  {
    IsAsciiAlnum(c) || IsAsciiWhitespace(c)
  }

  /** `str.lower()` on ASCII letters. */
  function Lower(s: string): (r: string)
    ensures |r| == |s|
    ensures forall i :: 0 <= i < |s| ==> r[i] == if 'A' <= s[i] <= 'Z' then (s[i] as int + 32) as char else s[i]
    ensures forall c :: c in r ==> !('A' <= c <= 'Z')
  {
    if |s| == 0 then ""
    else [if 'A' <= s[0] <= 'Z' then (s[0] as int + 32) as char else s[0]] + Lower(s[1..])
  }

  /** `re.sub("[^A-Za-z0-9\s]+", "", s)`: the kept characters, in order. */
  function StripPunctuation(s: string): (r: string)
    ensures |r| <= |s|
    ensures forall c :: c in r ==> c in s && IsSlugChar(c)
    ensures forall c :: c in s && IsSlugChar(c) ==> c in r
  {
    if |s| == 0 then ""
    else
      assert forall c :: c in s[1..] ==> c in s;
      (if IsSlugChar(s[0]) then [s[0]] else "") + StripPunctuation(s[1..])
  }

  /** A text made only of letters, digits and whitespace is left unchanged. */
  lemma {:induction false} StripPunctuationKeepsCleanText(s: string)
    requires forall i :: 0 <= i < |s| ==> IsSlugChar(s[i])
    ensures StripPunctuation(s) == s
  {
    if |s| > 0 {
      StripPunctuationKeepsCleanText(s[1..]);
      assert [s[0]] + s[1..] == s;
    }
  }

  /** Removing characters commutes with concatenation, so the kept
      characters keep their order. */
  lemma {:induction false} StripPunctuationAppend(a: string, b: string)
    ensures StripPunctuation(a + b) == StripPunctuation(a) + StripPunctuation(b)
  {
    if |a| == 0 {
      assert a + b == b;
    } else {
      var ab := a + b;
      assert ab[0] == a[0] && ab[1..] == a[1..] + b;
      StripPunctuationAppend(a[1..], b);
      var tail := StripPunctuation(a[1..]);
      if IsSlugChar(a[0]) {
        assert StripPunctuation(ab) == [a[0]] + StripPunctuation(a[1..] + b);
        assert StripPunctuation(a) == [a[0]] + tail;
        assert [a[0]] + (tail + StripPunctuation(b)) == ([a[0]] + tail) + StripPunctuation(b);
      } else {
        assert StripPunctuation(ab) == "" + StripPunctuation(a[1..] + b);
        assert StripPunctuation(a) == "" + tail;
      }
    }
  }

  /** Python's slice `xs[0:k]`: the first `k` items, or all but the last `-k` when `k` is negative. */
  function PyPrefix<T>(xs: seq<T>, k: int): (r: seq<T>)
    ensures |r| <= |xs| && r == xs[..|r|]
    ensures k >= 0 ==> |r| == if k <= |xs| then k else |xs|
    ensures k < 0 ==> |r| == if |xs| + k >= 0 then |xs| + k else 0
  {
    if k >= 0 then (if k <= |xs| then xs[..k] else xs)
    else (if |xs| + k >= 0 then xs[..|xs| + k] else [])
  }

  /** The words of the cleaned, lower-cased title. */
  function SlugWords(title: string): seq<string>
  {
    SplitOn(StripPunctuation(Lower(title)), ' ')
  }

  /** The slug: at most `max_words` words of the title joined by "_". */
  function Slug(title: string, maxWords: int): string
  {
    JoinWith("_", PyPrefix(SlugWords(title), maxWords))
  }

  /** `simple_filename`: `<img_dir>/<slug>.png`. */
  function SimpleFilename(title: string, imgDir: string, maxWords: int := 10): (r: string)
    ensures |r| >= |imgDir| + 5
    ensures r[..|imgDir| + 1] == imgDir + "/"
    ensures r[|r| - 4..] == ".png"
  {
    imgDir + "/" + Slug(title, maxWords) + ".png"
  }

  /** Every character of a slug word is a lower-case letter, a digit or
      ASCII whitespace other than the space. */
  lemma SlugWordChars(title: string, i: nat, c: char)
    requires i < |SlugWords(title)| && c in SlugWords(title)[i]
    ensures c != ' ' && c != '_'
    ensures ('a' <= c <= 'z') || ('0' <= c <= '9') || IsAsciiWhitespace(c)
  {
    var cleaned := StripPunctuation(Lower(title));
    assert c in cleaned;
    assert IsSlugChar(c) && c in Lower(title);
  }

  /** The slug holds no space and no punctuation: only lower-case letters,
      digits, the "_" separators and ASCII whitespace other than the space. */
  lemma SlugChars(title: string, maxWords: int, c: char)
    requires c in Slug(title, maxWords)
    ensures c != ' '
    ensures ('a' <= c <= 'z') || ('0' <= c <= '9') || c == '_' || IsAsciiWhitespace(c)
  {
    var parts := PyPrefix(SlugWords(title), maxWords);
    JoinWithChars("_", parts, c);
    if c != '_' {
      var i :| 0 <= i < |parts| && c in parts[i];
      SlugWordChars(title, i, c);
    }
  }

  /** Splitting a non-empty slug on "_" gives back the title words it kept. */
  lemma SlugRoundTrip(title: string, maxWords: int)
    requires |PyPrefix(SlugWords(title), maxWords)| >= 1
    ensures SplitOn(Slug(title, maxWords), '_') == PyPrefix(SlugWords(title), maxWords)
  {
    var parts := PyPrefix(SlugWords(title), maxWords);
    forall i | 0 <= i < |parts|
      ensures '_' !in parts[i]
    {
      if '_' in parts[i] {
        SlugWordChars(title, i, '_');
      }
    }
    SplitJoin(parts, '_');
  }

  // ---------------------------------------------------------------------
  // thumbnail_image

  /** The layout settings of `thumbnail_image`. */
  datatype Settings = Settings(
    lineSpacing: int,
    imageWidth: int,
    horizontalPadding: int,
    verticalPadding: int,
    sectionSpacing: int,
    minHeight: Option<int>)

  /** The defaults of `thumbnail_image`. */
  const DefaultSettings: Settings := Settings(10, 1000, 50, 50, 25, None)

  /** The three sections of a thumbnail, cleaned up, all at the same line spacing. */
  function ThumbnailSections(title: string, authors: string, abstractText: string,
                             titleFont: Font, authorFont: Font, abstractFont: Font, lineSpacing: int)
    : (r: seq<Section>)
    ensures |r| == 3
    ensures r[0].text == TextCleanup(title) && r[1].text == TextCleanup(authors) && r[2].text == TextCleanup(abstractText)
    ensures r[0].font == titleFont && r[1].font == authorFont && r[2].font == abstractFont
    ensures r[0].centered && r[1].centered && !r[2].centered
    ensures forall i :: 0 <= i < 3 ==> r[i].spacing == lineSpacing && UnicodeHyphen !in r[i].text
  {
    [ Section(TextCleanup(title), titleFont, true, lineSpacing),
      Section(TextCleanup(authors), authorFont, true, lineSpacing),
      Section(TextCleanup(abstractText), abstractFont, false, lineSpacing) ]
  }

  /** `thumbnail_image`, given the three loaded fonts. */
  method ThumbnailImage(m: Metrics, title: string, authors: string, abstractText: string,
                        titleFont: Font, authorFont: Font, abstractFont: Font, settings: Settings := DefaultSettings)
    returns (img: Canvas)
    ensures fresh(img)
    ensures var sections := ThumbnailSections(title, authors, abstractText, titleFont, authorFont, abstractFont,
                                              settings.lineSpacing);
      && img.width == settings.imageWidth
      && img.background == White
      && img.height == AssembledHeight(m, sections, settings.imageWidth, settings.horizontalPadding,
                                       settings.verticalPadding, settings.sectionSpacing, settings.minHeight)
      && img.commands == AssembledCommands(m, sections, settings.imageWidth, settings.horizontalPadding,
                                           settings.verticalPadding, settings.sectionSpacing)
  {
    var tfc := ThumbnailSections(title, authors, abstractText, titleFont, authorFont, abstractFont,
                                 settings.lineSpacing);
    img := AssembleImage(m, tfc, settings.imageWidth, settings.horizontalPadding, settings.verticalPadding,
                         settings.sectionSpacing, settings.minHeight);
  }

  /** A thumbnail draws three commands: the title and the authors centred,
      the abstract at the left padding, each with its own font and the common
      line spacing; no drawn text holds U+2010; the canvas is never shorter
      than the minimum height. */
  lemma ThumbnailLayout(m: Metrics, title: string, authors: string, abstractText: string,
                        titleFont: Font, authorFont: Font, abstractFont: Font, settings: Settings)
    ensures var sections := ThumbnailSections(title, authors, abstractText, titleFont, authorFont, abstractFont,
                                              settings.lineSpacing);
      var cs := AssembledCommands(m, sections, settings.imageWidth, settings.horizontalPadding,
                                  settings.verticalPadding, settings.sectionSpacing);
      var h := AssembledHeight(m, sections, settings.imageWidth, settings.horizontalPadding,
                               settings.verticalPadding, settings.sectionSpacing, settings.minHeight);
      && |cs| == 3
      && cs[0].font == titleFont && cs[1].font == authorFont && cs[2].font == abstractFont
      && cs[0].align == Center && cs[1].align == Center && cs[2].align == Left
      && cs[2].x == settings.horizontalPadding as real
      && (forall i :: 0 <= i < 3 ==> cs[i].spacing == settings.lineSpacing && UnicodeHyphen !in cs[i].text)
      && (settings.minHeight.Some? ==> h >= settings.minHeight.value)
  {
    var sections := ThumbnailSections(title, authors, abstractText, titleFont, authorFont, abstractFont,
                                      settings.lineSpacing);
    var cs := AssembledCommands(m, sections, settings.imageWidth, settings.horizontalPadding,
                                settings.verticalPadding, settings.sectionSpacing);
    forall i | 0 <= i < 3
      ensures UnicodeHyphen !in cs[i].text
    {
      var s := sections[i];
      if UnicodeHyphen in cs[i].text {
        DrawnTextChars(m, s.font, settings.imageWidth, settings.horizontalPadding, s.text, UnicodeHyphen);
      }
    }
  }
}
