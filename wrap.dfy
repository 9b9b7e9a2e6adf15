/** The greedy word wrapper `split_lines`: the text is split on single
    spaces, and each word joins the current line when the measured width
    of the current words, the word and a lone " " element, joined by
    spaces, is at most `width - 2 * padding`; otherwise the current line
    is closed with "\n" and the word starts the next one. */
module LineWrap {
  import opened Strings
  import opened Fonts

  /** `join_words`: the words of a line separated by single spaces. */
  function JoinWords(line: seq<string>): string
  {
    JoinWith(" ", line)
  }

  /** Splitting a `join_words` result on spaces gives back its words when
      none of them holds a space. */
  lemma JoinWordsSplit(line: seq<string>)
    requires |line| >= 1
    requires forall i :: 0 <= i < |line| ==> ' ' !in line[i]
    ensures SplitOn(JoinWords(line), ' ') == line
  {
    SplitJoin(line, ' ');
  }

  /** The acceptance test for `word` after the words `cur`: the tie `== limit` keeps the word. */
  predicate Fits(m: Metrics, f: Font, limit: int, cur: seq<string>, word: string)
  {
    m.width(f, JoinWords(cur + [word] + [" "])) <= limit
  }

  /** The word groups the loop produces from the closed lines `done`, the
      current line `cur` and the words still to place. */
  function WrapFrom(m: Metrics, f: Font, limit: int, done: seq<seq<string>>, cur: seq<string>, words: seq<string>)
    : seq<seq<string>>
    decreases |words|
  {
    if |words| == 0 then done + [cur]
    else if Fits(m, f, limit, cur, words[0]) then WrapFrom(m, f, limit, done, cur + [words[0]], words[1..])
    else WrapFrom(m, f, limit, done + [cur], [words[0]], words[1..])
  }

  /** The word groups of the lines `split_lines(txt, fnt, width, padding)` returns. */
  function Groups(m: Metrics, f: Font, width: int, padding: int, txt: string): seq<seq<string>>
  {
    WrapFrom(m, f, width - 2 * padding, [], [], SplitOn(txt, ' '))
  }

  /** Closed lines: each group's words followed by "\n". */
  function ClosedLines(groups: seq<seq<string>>): seq<string>
  {
    seq(|groups|, i requires 0 <= i < |groups| => JoinWords(groups[i]) + "\n")
  }

  /** The emitted lines: every group but the last closed with "\n". */
  function LinesOf(groups: seq<seq<string>>): seq<string>
  {
    seq(|groups|, i requires 0 <= i < |groups| =>
      if i < |groups| - 1 then JoinWords(groups[i]) + "\n" else JoinWords(groups[i]))
  }

  /** `split_lines`. */
  method SplitLines(m: Metrics, f: Font, txt: string, width: int, padding: int) returns (lines: seq<string>)
    ensures lines == LinesOf(Groups(m, f, width, padding, txt))
  {
    var w := width - 2 * padding;
    var splitText := SplitOn(txt, ' ');
    lines := [];
    var newLine: seq<string> := [];
    ghost var done: seq<seq<string>> := [];
    for i := 0 to |splitText|
      invariant lines == ClosedLines(done)
      invariant WrapFrom(m, f, w, done, newLine, splitText[i..]) == WrapFrom(m, f, w, [], [], splitText)
    {
      var word := splitText[i];
      assert splitText[i..][1..] == splitText[i + 1..];
      var tryNewLine := m.width(f, JoinWords(newLine + [word] + [" "]));
      if tryNewLine <= w {
        newLine := newLine + [word];
      } else {
        lines := lines + [JoinWords(newLine) + "\n"];
        done := done + [newLine];
        newLine := [word];
      }
    }
    lines := lines + [JoinWords(newLine)];
  }

  // ---------------------------------------------------------------------
  // An independent description of greedy wrapping.

  /** Every word of `g` from position `from` on passed the test against the words before it. */
  ghost predicate AcceptedFrom(m: Metrics, f: Font, limit: int, g: seq<string>, from: nat)
  {
    forall k :: from <= k < |g| ==> Fits(m, f, limit, g[..k], g[k])
  }

  /** `groups` is a greedy wrapping of `words` after the current words `cur`:
      together they hold exactly `cur + words`, in order; the first group
      extends `cur` with accepted words; every later group is non-empty,
      opens with a word rejected by the group before it, and continues
      with accepted words. */
  ghost predicate GreedyFrom(m: Metrics, f: Font, limit: int, cur: seq<string>, words: seq<string>,
                             groups: seq<seq<string>>)
  {
    && |groups| >= 1
    && Flatten(groups) == cur + words
    && |cur| <= |groups[0]| && groups[0][..|cur|] == cur
    && AcceptedFrom(m, f, limit, groups[0], |cur|)
    && forall j :: 1 <= j < |groups| ==>
         && |groups[j]| >= 1
         && !Fits(m, f, limit, groups[j - 1], groups[j][0])
         && AcceptedFrom(m, f, limit, groups[j], 1)
  }

  /** `groups` is a greedy wrapping of `words` from an empty line. */
  ghost predicate IsGreedyWrap(m: Metrics, f: Font, limit: int, words: seq<string>, groups: seq<seq<string>>)
  {
    GreedyFrom(m, f, limit, [], words, groups)
  }

  /** The loop neither drops, duplicates, splits nor reorders words. */
  lemma {:induction false} WrapKeepsWords(m: Metrics, f: Font, limit: int, done: seq<seq<string>>,
                                          cur: seq<string>, words: seq<string>)
    ensures Flatten(WrapFrom(m, f, limit, done, cur, words)) == Flatten(done) + cur + words
    decreases |words|
  {
    if |words| == 0 {
      FlattenAppend(done, cur);
    } else if Fits(m, f, limit, cur, words[0]) {
      WrapKeepsWords(m, f, limit, done, cur + [words[0]], words[1..]);
      assert words == [words[0]] + words[1..];
    } else {
      WrapKeepsWords(m, f, limit, done + [cur], [words[0]], words[1..]);
      FlattenAppend(done, cur);
      assert words == [words[0]] + words[1..];
    }
  }

  /** The loop's groups are a greedy wrapping, following the closed lines `done`. */
  lemma {:induction false} WrapIsGreedy(m: Metrics, f: Font, limit: int, done: seq<seq<string>>,
                                        cur: seq<string>, words: seq<string>)
    ensures var w := WrapFrom(m, f, limit, done, cur, words);
      && |w| > |done| && w[..|done|] == done
      && GreedyFrom(m, f, limit, cur, words, w[|done|..])
    decreases |words|
  {
    var w := WrapFrom(m, f, limit, done, cur, words);
    if |words| == 0 {
      assert w[|done|..] == [cur];
      assert Flatten([cur]) == cur + Flatten([]);
      assert cur + words == cur;
    } else if Fits(m, f, limit, cur, words[0]) {
      var word := words[0];
      WrapIsGreedy(m, f, limit, done, cur + [word], words[1..]);
      var g := w[|done|..];
      assert (cur + [word]) + words[1..] == cur + words;
      assert g[0][..|cur| + 1][..|cur|] == g[0][..|cur|];
      assert g[0][..|cur|] == cur;
      assert g[0][|cur|] == (cur + [word])[|cur|] == word;
      forall k | |cur| <= k < |g[0]|
        ensures Fits(m, f, limit, g[0][..k], g[0][k])
      {
        if k == |cur| {
          assert g[0][..k] == cur;
        }
      }
    } else {
      var word := words[0];
      WrapIsGreedy(m, f, limit, done + [cur], [word], words[1..]);
      var g := w[|done|..];
      var h := w[|done| + 1..];
      assert w[..|done| + 1][|done|] == cur;
      assert g == [cur] + h;
      assert Flatten(g) == cur + Flatten(h);
      assert [word] + words[1..] == words;
      assert g[0][..|cur|] == cur;
      forall j | 1 <= j < |g|
        ensures |g[j]| >= 1 && !Fits(m, f, limit, g[j - 1], g[j][0]) && AcceptedFrom(m, f, limit, g[j], 1)
      {
        assert g[j] == h[j - 1];
        if j == 1 {
          assert h[0][..1] == [word];
          assert h[0][0] == word;
        } else {
          assert g[j - 1] == h[j - 2];
        }
      }
    }
  }

  /** When a greedy wrapping puts the next word on the current line, that
      word fits, and the rest is a greedy wrapping from the longer line. */
  lemma GreedyAccepts(m: Metrics, f: Font, limit: int, cur: seq<string>, words: seq<string>,
                      groups: seq<seq<string>>)
    requires GreedyFrom(m, f, limit, cur, words, groups)
    requires |words| >= 1 && |groups[0]| > |cur|
    ensures Fits(m, f, limit, cur, words[0])
    ensures GreedyFrom(m, f, limit, cur + [words[0]], words[1..], groups)
  {
    var word := words[0];
    var rest := groups[1..];
    assert Flatten(groups) == groups[0] + Flatten(rest);
    assert words == [word] + words[1..];
    assert groups[0][|cur|] == (groups[0] + Flatten(rest))[|cur|] == (cur + words)[|cur|] == word;
    assert Fits(m, f, limit, groups[0][..|cur|], groups[0][|cur|]);
    assert groups[0][..|cur| + 1] == cur + [word];
    assert (cur + [word]) + words[1..] == cur + words;
  }

  /** When a greedy wrapping closes the current line, the next word was
      rejected, and the remaining groups are a greedy wrapping from that word. */
  lemma GreedyRejects(m: Metrics, f: Font, limit: int, cur: seq<string>, words: seq<string>,
                      groups: seq<seq<string>>)
    requires GreedyFrom(m, f, limit, cur, words, groups)
    requires |words| >= 1 && |groups[0]| <= |cur|
    ensures groups[0] == cur
    ensures !Fits(m, f, limit, cur, words[0])
    ensures GreedyFrom(m, f, limit, [words[0]], words[1..], groups[1..])
  {
    var word := words[0];
    var rest := groups[1..];
    assert Flatten(groups) == groups[0] + Flatten(rest);
    assert words == [word] + words[1..];
    assert groups[0] == cur;
    assert (cur + Flatten(rest))[|cur|..] == Flatten(rest);
    assert (cur + words)[|cur|..] == words;
    assert Flatten(rest) == words;
    assert |groups| >= 2;
    assert Flatten(rest) == rest[0] + Flatten(rest[1..]);
    assert rest[0][0] == word;
    assert rest[0][..1] == [word];
    forall j | 1 <= j < |rest|
      ensures |rest[j]| >= 1 && !Fits(m, f, limit, rest[j - 1], rest[j][0]) && AcceptedFrom(m, f, limit, rest[j], 1)
    {
      assert rest[j] == groups[j + 1] && rest[j - 1] == groups[j];
    }
  }

  /** A greedy wrapping is the loop's: there is exactly one. */
  lemma {:induction false} GreedyIsUnique(m: Metrics, f: Font, limit: int, done: seq<seq<string>>,
                                          cur: seq<string>, words: seq<string>, groups: seq<seq<string>>)
    requires GreedyFrom(m, f, limit, cur, words, groups)
    ensures WrapFrom(m, f, limit, done, cur, words) == done + groups
    decreases |words|
  {
    if |words| == 0 {
      assert Flatten(groups) == groups[0] + Flatten(groups[1..]);
      assert groups[0] == cur;
      assert groups == [cur];
    } else if |groups[0]| > |cur| {
      GreedyAccepts(m, f, limit, cur, words, groups);
      GreedyIsUnique(m, f, limit, done, cur + [words[0]], words[1..], groups);
    } else {
      GreedyRejects(m, f, limit, cur, words, groups);
      GreedyIsUnique(m, f, limit, done + [cur], [words[0]], words[1..], groups[1..]);
      assert done + [cur] + groups[1..] == done + groups;
    }
  }

  /** `split_lines` wraps greedily, and greedy wrapping determines the lines:
      a grouping of the words is greedy exactly when it is the one produced. */
  lemma GroupsAreTheGreedyWrap(m: Metrics, f: Font, width: int, padding: int, txt: string,
                               groups: seq<seq<string>>)
    ensures IsGreedyWrap(m, f, width - 2 * padding, SplitOn(txt, ' '), groups)
        <==> groups == Groups(m, f, width, padding, txt)
  {
    var limit := width - 2 * padding;
    var words := SplitOn(txt, ' ');
    WrapIsGreedy(m, f, limit, [], [], words);
    var w := WrapFrom(m, f, limit, [], [], words);
    assert w[0..] == w;
    if IsGreedyWrap(m, f, limit, words, groups) {
      GreedyIsUnique(m, f, limit, [], [], words, groups);
      assert [] + groups == groups;
    }
  }

  /** Concatenating the lines' word groups gives exactly `txt.split(" ")`,
      empty fields included. */
  lemma SplitLinesKeepsWords(m: Metrics, f: Font, width: int, padding: int, txt: string)
    ensures Flatten(Groups(m, f, width, padding, txt)) == SplitOn(txt, ' ')
  {
    WrapKeepsWords(m, f, width - 2 * padding, [], [], SplitOn(txt, ' '));
    assert Flatten([]) + [] + SplitOn(txt, ' ') == SplitOn(txt, ' ');
  }

  /** The text of each group, without line breaks. */
  function GroupTexts(groups: seq<seq<string>>): seq<string>
  {
    seq(|groups|, i requires 0 <= i < |groups| => JoinWords(groups[i]))
  }

  /** The greedy facts about the groups of `split_lines`. */
  lemma GroupsAreGreedy(m: Metrics, f: Font, width: int, padding: int, txt: string)
    ensures IsGreedyWrap(m, f, width - 2 * padding, SplitOn(txt, ' '), Groups(m, f, width, padding, txt))
  {
    GroupsAreTheGreedyWrap(m, f, width, padding, txt, Groups(m, f, width, padding, txt));
  }

  /** A line of two or more words passed the width test with its last word:
      the measure of its words and a lone " " element, joined by spaces,
      is at most `width - 2 * padding`. A single word may overflow. */
  lemma MultiWordLinesFit(m: Metrics, f: Font, width: int, padding: int, txt: string, j: nat)
    requires j < |Groups(m, f, width, padding, txt)|
    requires |Groups(m, f, width, padding, txt)[j]| >= 2
    ensures m.width(f, JoinWords(Groups(m, f, width, padding, txt)[j] + [" "])) <= width - 2 * padding
  {
    var g := Groups(m, f, width, padding, txt);
    GroupsAreGreedy(m, f, width, padding, txt);
    var k := |g[j]| - 1;
    assert Fits(m, f, width - 2 * padding, g[j][..k], g[j][k]);
    assert g[j][..k] + [g[j][k]] == g[j];
  }

  /** When the first word alone fails the width test, `split_lines` first
      emits an empty line "\n" and the word opens the second line. */
  lemma FirstWordRejected(m: Metrics, f: Font, width: int, padding: int, txt: string)
    requires !Fits(m, f, width - 2 * padding, [], SplitOn(txt, ' ')[0])
    ensures var g := Groups(m, f, width, padding, txt);
      |g| >= 2 && g[0] == [] && |g[1]| >= 1 && g[1][0] == SplitOn(txt, ' ')[0] && LinesOf(g)[0] == "\n"
  {
    var words := SplitOn(txt, ' ');
    var g := Groups(m, f, width, padding, txt);
    GroupsAreGreedy(m, f, width, padding, txt);
    assert Flatten(g) == g[0] + Flatten(g[1..]) == [] + words == words;
    if |g[0]| > 0 {
      assert false;
    }
    assert g[0] + Flatten(g[1..]) == Flatten(g[1..]);
    assert Flatten(g[1..]) == words;
    assert |g| >= 2;
    assert Flatten(g[1..]) == g[1] + Flatten(g[2..]);
    assert "" + "\n" == "\n";
  }

  /** When the first word passes the width test, every group is non-empty. */
  lemma GroupsNonEmpty(m: Metrics, f: Font, width: int, padding: int, txt: string)
    requires Fits(m, f, width - 2 * padding, [], SplitOn(txt, ' ')[0])
    ensures forall j :: 0 <= j < |Groups(m, f, width, padding, txt)| ==> |Groups(m, f, width, padding, txt)[j]| >= 1
  {
    var words := SplitOn(txt, ' ');
    var g := Groups(m, f, width, padding, txt);
    GroupsAreGreedy(m, f, width, padding, txt);
    assert Flatten(g) == g[0] + Flatten(g[1..]) == [] + words == words;
    if |g[0]| == 0 {
      assert false;
    }
  }

  /** No word of a group holds a character that is not in `txt`. */
  lemma GroupCharsFromText(m: Metrics, f: Font, width: int, padding: int, txt: string, j: nat, d: char)
    requires j < |Groups(m, f, width, padding, txt)|
    requires d in JoinWords(Groups(m, f, width, padding, txt)[j])
    ensures d == ' ' || d in txt
  {
    var g := Groups(m, f, width, padding, txt);
    JoinWithChars(" ", g[j], d);
    if d != ' ' {
      var k :| 0 <= k < |g[j]| && d in g[j][k];
      FlattenMember(g, j, k);
      SplitLinesKeepsWords(m, f, width, padding, txt);
      var words := SplitOn(txt, ' ');
      var i :| 0 <= i < |words| && words[i] == g[j][k];
    }
  }

  /** For text without line breaks, every line but the last ends in its
      only "\n", and the last line holds none. */
  lemma LineBreaksOnlyAtEnds(m: Metrics, f: Font, width: int, padding: int, txt: string)
    requires '\n' !in txt
    ensures var lines := SplitLinesSpec(m, f, width, padding, txt);
      && |lines| >= 1
      && (forall i :: 0 <= i < |lines| - 1 ==>
            |lines[i]| >= 1 && lines[i][|lines[i]| - 1] == '\n' && '\n' !in lines[i][..|lines[i]| - 1])
      && '\n' !in lines[|lines| - 1]
  {
    var g := Groups(m, f, width, padding, txt);
    var lines := LinesOf(g);
    GroupsAreGreedy(m, f, width, padding, txt);
    forall i | 0 <= i < |lines|
      ensures '\n' !in JoinWords(g[i])
    {
      if '\n' in JoinWords(g[i]) {
        GroupCharsFromText(m, f, width, padding, txt, i, '\n');
      }
    }
    forall i | 0 <= i < |lines| - 1
      ensures |lines[i]| >= 1 && lines[i][|lines[i]| - 1] == '\n' && '\n' !in lines[i][..|lines[i]| - 1]
    {
      assert lines[i] == JoinWords(g[i]) + "\n";
      assert lines[i][..|lines[i]| - 1] == JoinWords(g[i]);
    }
  }

  /** The lines `split_lines` returns. */
  function SplitLinesSpec(m: Metrics, f: Font, width: int, padding: int, txt: string): seq<string>
  {
    LinesOf(Groups(m, f, width, padding, txt))
  }

  /** Concatenating the lines is joining the group texts with "\n". */
  lemma {:induction false} ConcatLines(groups: seq<seq<string>>)
    requires |groups| >= 1
    ensures JoinWith("", LinesOf(groups)) == JoinWith("\n", GroupTexts(groups))
  {
    if |groups| > 1 {
      ConcatLines(groups[1..]);
      var first := JoinWords(groups[0]);
      assert LinesOf(groups) == [first + "\n"] + LinesOf(groups[1..]);
      assert LinesOf(groups)[1..] == LinesOf(groups[1..]);
      assert GroupTexts(groups)[1..] == GroupTexts(groups[1..]);
      assert first + "\n" + "" == first + "\n";
    }
  }

  /** Replacing a separator that occurs in no part turns one join into the other. */
  lemma {:induction false} ReplaceSeparator(parts: seq<string>, c: char, d: char)
    requires forall i :: 0 <= i < |parts| ==> c !in parts[i]
    ensures ReplaceChar(JoinWith([c], parts), c, d) == JoinWith([d], parts)
  {
    if |parts| == 1 {
      assert ReplaceChar(parts[0], c, d) == parts[0];
    } else if |parts| > 1 {
      ReplaceSeparator(parts[1..], c, d);
      var a := parts[0] + [c];
      var b := JoinWith([c], parts[1..]);
      var r := ReplaceChar(a + b, c, d);
      assert r == ReplaceChar(a, c, d) + ReplaceChar(b, c, d);
      assert ReplaceChar(a, c, d) == parts[0] + [d];
    }
  }

  /** Joining non-empty groups' texts with spaces joins all their words with spaces. */
  lemma {:induction false} JoinGroupTexts(groups: seq<seq<string>>)
    requires |groups| >= 1
    requires forall j :: 0 <= j < |groups| ==> |groups[j]| >= 1
    ensures JoinWith(" ", GroupTexts(groups)) == JoinWords(Flatten(groups))
  {
    if |groups| == 1 {
      assert Flatten(groups) == groups[0] + Flatten([]);
      assert groups[0] + [] == groups[0];
    } else {
      JoinGroupTexts(groups[1..]);
      assert GroupTexts(groups)[1..] == GroupTexts(groups[1..]);
      assert Flatten(groups[1..]) == groups[1] + Flatten(groups[2..]);
      JoinAppend(" ", groups[0], Flatten(groups[1..]));
    }
  }

  /** When the first word passes the width test, the text drawn for the
      lines, with its line breaks turned back into spaces, is `txt`: each
      line break replaces exactly one separating space. */
  lemma DrawnTextRejoins(m: Metrics, f: Font, width: int, padding: int, txt: string)
    requires '\n' !in txt
    requires Fits(m, f, width - 2 * padding, [], SplitOn(txt, ' ')[0])
    ensures ReplaceChar(JoinWith("", SplitLinesSpec(m, f, width, padding, txt)), '\n', ' ') == txt
  {
    var g := Groups(m, f, width, padding, txt);
    GroupsAreGreedy(m, f, width, padding, txt);
    ConcatLines(g);
    forall i | 0 <= i < |GroupTexts(g)|
      ensures '\n' !in GroupTexts(g)[i]
    {
      if '\n' in JoinWords(g[i]) {
        GroupCharsFromText(m, f, width, padding, txt, i, '\n');
      }
    }
    ReplaceSeparator(GroupTexts(g), '\n', ' ');
    GroupsNonEmpty(m, f, width, padding, txt);
    JoinGroupTexts(g);
    SplitLinesKeepsWords(m, f, width, padding, txt);
    JoinSplit(txt, ' ');
  }

  /** The drawn text of the lines adds no character but spaces and line breaks. */
  lemma DrawnTextChars(m: Metrics, f: Font, width: int, padding: int, txt: string, d: char)
    requires d in JoinWith("", SplitLinesSpec(m, f, width, padding, txt))
    ensures d == ' ' || d == '\n' || d in txt
  {
    var g := Groups(m, f, width, padding, txt);
    var lines := LinesOf(g);
    JoinWithChars("", lines, d);
    var i :| 0 <= i < |lines| && d in lines[i];
    if d != '\n' && d in JoinWords(g[i]) {
      GroupCharsFromText(m, f, width, padding, txt, i, d);
    }
  }

  /** The empty text is the single empty word: one empty line when that
      word passes the width test, otherwise an empty closed line first. */
  lemma EmptyTextLines(m: Metrics, f: Font, width: int, padding: int)
    ensures SplitLinesSpec(m, f, width, padding, "")
         == if Fits(m, f, width - 2 * padding, [], "") then [""] else ["\n", ""]
  {
    var limit := width - 2 * padding;
    assert SplitOn("", ' ') == [""];
    assert [""][1..] == [];
    if Fits(m, f, limit, [], "") {
      assert [] + [""] == [""];
      assert WrapFrom(m, f, limit, [], [], [""]) == WrapFrom(m, f, limit, [], [""], []);
      assert Groups(m, f, width, padding, "") == [[""]];
    } else {
      assert WrapFrom(m, f, limit, [], [], [""]) == WrapFrom(m, f, limit, [[]], [""], []);
      assert Groups(m, f, width, padding, "") == [[], [""]];
      assert JoinWords([]) + "\n" == "\n";
    }
  }
}
