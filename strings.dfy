/** Python's string splitting and joining, as used by the layout engine:
    `s.split(c)` for a one-character separator, `sep.join(parts)`,
    flattening a list of word groups, and a one-character substitution. */
module Strings {

  /** `sep.join(parts)`: empty for no parts, otherwise starting with the
      first part; `JoinSplit` and `SplitJoin` relate it to `SplitOn`. */
  function JoinWith(sep: string, parts: seq<string>): (r: string)
    ensures |parts| == 0 ==> r == ""
    ensures |parts| >= 1 ==> |r| >= |parts[0]| && r[..|parts[0]|] == parts[0]
  {
    if |parts| == 0 then ""
    else if |parts| == 1 then parts[0]
    else parts[0] + sep + JoinWith(sep, parts[1..])
  }

  /** `s.split(c)`: never empty, keeps the empty fields produced by
      leading, trailing or repeated separators; no field holds `c`, and
      every character of a field comes from `s`. */
  function SplitOn(s: string, c: char): (r: seq<string>)
    ensures |r| >= 1
    ensures forall i :: 0 <= i < |r| ==> c !in r[i]
    ensures forall i, d :: 0 <= i < |r| && d in r[i] ==> d in s
  {
    if |s| == 0 then [""]
    else
      var rest := SplitOn(s[1..], c);
      assert forall d :: d in s[1..] ==> d in s;
      if s[0] == c then [""] + rest
      else [[s[0]] + rest[0]] + rest[1..]
  }

  /** The concatenation of a list of word groups, in order. */
  function Flatten(groups: seq<seq<string>>): seq<string>
  {
    if |groups| == 0 then [] else groups[0] + Flatten(groups[1..])
  }

  /** Every occurrence of `from` replaced by `to`; nothing else moves. */
  function ReplaceChar(s: string, from: char, to: char): (r: string)
    ensures |r| == |s|
    ensures forall i :: 0 <= i < |s| ==> r[i] == if s[i] == from then to else s[i]
  {
    if |s| == 0 then "" else [if s[0] == from then to else s[0]] + ReplaceChar(s[1..], from, to)
  }

  /** Joining the fields of a split with the same separator gives the text back. */
  lemma {:induction false} JoinSplit(s: string, c: char)
    ensures JoinWith([c], SplitOn(s, c)) == s
  {
    if |s| > 0 {
      var rest := SplitOn(s[1..], c);
      JoinSplit(s[1..], c);
      if s[0] == c {
        assert ([""] + rest)[1..] == rest;
      } else if |rest| >= 2 {
        var parts := [[s[0]] + rest[0]] + rest[1..];
        assert parts[1..] == rest[1..];
        assert JoinWith([c], rest) == rest[0] + [c] + JoinWith([c], rest[1..]);
      } else {
        assert [[s[0]] + rest[0]] + rest[1..] == [[s[0]] + rest[0]];
      }
    }
  }

  /** Splitting a text whose first field is `p` (with no separator in it). */
  lemma {:induction false} SplitPrefix(p: string, t: string, c: char)
    requires c !in p
    ensures SplitOn(p + t, c) == [p + SplitOn(t, c)[0]] + SplitOn(t, c)[1..]
  {
    if |p| > 0 {
      SplitPrefix(p[1..], t, c);
      assert (p + t)[1..] == p[1..] + t;
      assert (p + t)[0] == p[0];
      assert [p[0]] + (p[1..] + SplitOn(t, c)[0]) == p + SplitOn(t, c)[0];
    } else {
      var r := SplitOn(t, c);
      assert p + t == t && p + r[0] == r[0];
      assert [r[0]] + r[1..] == r;
    }
  }

  /** Splitting a join of separator-free fields gives the fields back. */
  lemma {:induction false} SplitJoin(parts: seq<string>, c: char)
    requires |parts| >= 1
    requires forall i :: 0 <= i < |parts| ==> c !in parts[i]
    ensures SplitOn(JoinWith([c], parts), c) == parts
  {
    if |parts| == 1 {
      SplitPrefix(parts[0], "", c);
      assert parts[0] + "" == parts[0];
    } else {
      var tail := JoinWith([c], parts[1..]);
      SplitJoin(parts[1..], c);
      assert JoinWith([c], parts) == parts[0] + ([c] + tail);
      SplitPrefix(parts[0], [c] + tail, c);
      assert ([c] + tail)[1..] == tail;
      assert SplitOn([c] + tail, c) == [""] + parts[1..];
      assert parts[0] + "" == parts[0];
      assert [parts[0]] + parts[1..] == parts;
    }
  }

  /** Joining two non-empty lists is joining their joins. */
  lemma {:induction false} JoinAppend(sep: string, a: seq<string>, b: seq<string>)
    requires |a| >= 1 && |b| >= 1
    ensures JoinWith(sep, a + b) == JoinWith(sep, a) + sep + JoinWith(sep, b)
  {
    if |a| == 1 {
      assert (a + b)[1..] == b;
    } else {
      JoinAppend(sep, a[1..], b);
      assert (a + b)[1..] == a[1..] + b;
    }
  }

  /** Every character of a join comes from the separator or from one of the parts. */
  lemma {:induction false} JoinWithChars(sep: string, parts: seq<string>, d: char)
    requires d in JoinWith(sep, parts)
    ensures d in sep || exists i :: 0 <= i < |parts| && d in parts[i]
  {
    if |parts| >= 2 {
      if d !in parts[0] && d !in sep {
        JoinWithChars(sep, parts[1..], d);
        var i :| 0 <= i < |parts[1..]| && d in parts[1..][i];
        assert d in parts[i + 1];
      }
    } else {
      assert |parts| == 1 && d in parts[0];
    }
  }

  /** Flattening after appending one group appends that group. */
  lemma {:induction false} FlattenAppend(groups: seq<seq<string>>, g: seq<string>)
    ensures Flatten(groups + [g]) == Flatten(groups) + g
  {
    if |groups| == 0 {
      assert Flatten([g]) == g + Flatten([]);
    } else {
      FlattenAppend(groups[1..], g);
      assert (groups + [g])[1..] == groups[1..] + [g];
    }
  }

  /** Every word of every group appears in the flattened list. */
  lemma {:induction false} FlattenMember(groups: seq<seq<string>>, j: nat, k: nat)
    requires j < |groups| && k < |groups[j]|
    ensures groups[j][k] in Flatten(groups)
  {
    if j > 0 {
      FlattenMember(groups[1..], j - 1, k);
    }
  }
}
