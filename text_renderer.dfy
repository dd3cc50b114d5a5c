/**
 * The emoji-run logic of lumina/core/text_renderer.py: the fixed code-point
 * ranges, the "contains an emoji" test and the split of a string into
 * alternating runs of emoji and non-emoji characters.
 */
module TextRenderer {
  import opened Options

  /**
   * The character class of the source's emoji pattern, as code-point ranges
   * taken from Unicode blocks: Emoticons, Miscellaneous Symbols and
   * Pictographs, Transport and Map Symbols, Regional Indicator Symbols,
   * Supplemental Symbols and Pictographs, Miscellaneous Symbols with
   * Dingbats, and Variation Selectors.
   */
  predicate IsEmoji(c: char) {
    var n := c as int;
    || 0x1F600 <= n <= 0x1F64F
    || 0x1F300 <= n <= 0x1F5FF
    || 0x1F680 <= n <= 0x1F6FF
    || 0x1F1E0 <= n <= 0x1F1FF
    || 0x1F900 <= n <= 0x1F9FF
    || 0x2600 <= n <= 0x27BF
    || 0xFE00 <= n <= 0xFE0F
  }

  /** _contains_emoji: the pattern finds a match somewhere in the text. */
  predicate ContainsEmoji(text: string) {
    exists i :: 0 <= i < |text| && IsEmoji(text[i])
  }

  /** One element of the list _split_text_and_emojis returns: (text, is_emoji). */
  datatype Part = Part(text: string, emoji: bool)

  /** Every character of s has the emoji flag f. */
  predicate AllFlagged(s: string, f: bool) {
    forall i :: 0 <= i < |s| ==> IsEmoji(s[i]) == f
  }

  /** The characters s[lo..hi] all have the emoji flag f. */
  predicate FlaggedBetween(s: string, lo: int, hi: int, f: bool)
    requires 0 <= lo <= hi <= |s|
  {
    forall j :: lo <= j < hi ==> IsEmoji(s[j]) == f
  }

  /** A stretch s[i..k] that is a maximal run: one flag throughout, and a different flag (or the end) at k. */
  predicate IsRunEnd(s: string, i: nat, k: nat)
    requires i < |s|
  {
    i < k <= |s| && FlaggedBetween(s, i, k, IsEmoji(s[i]))
    && (k < |s| ==> IsEmoji(s[k]) != IsEmoji(s[i]))
  }

  /** Every position starts a maximal run, which ends at or after k. */
  lemma {:induction false} RunEndExists(s: string, i: nat, k: nat)
    requires i < k <= |s|
    requires FlaggedBetween(s, i, k, IsEmoji(s[i]))
    ensures exists e :: IsRunEnd(s, i, e)
    decreases |s| - k
  {
    if k < |s| && IsEmoji(s[k]) == IsEmoji(s[i]) {
      RunEndExists(s, i, k + 1);
    } else {
      assert IsRunEnd(s, i, k);
    }
  }

  /** The end of the longest run starting at i whose characters share the flag of s[i]. */
  ghost function RunEnd(s: string, i: nat): (k: nat)
    requires i < |s|
    ensures IsRunEnd(s, i, k)
  {
    RunEndExists(s, i, i + 1);
    var k :| IsRunEnd(s, i, k); k
  }

  /** The specification of the split of s[i..]: maximal runs from left to right. */
  ghost function RunsFrom(s: string, i: nat): seq<Part>
    requires i <= |s|
    decreases |s| - i
  {
    if i == |s| then []
    else
      var k := RunEnd(s, i);
      [Part(s[i..k], IsEmoji(s[i]))] + RunsFrom(s, k)
  }

  /** The split of the whole string. */
  ghost function Runs(s: string): seq<Part> {
    RunsFrom(s, 0)
  }

  /** Concatenation of the texts of parts. */
  function Joined(parts: seq<Part>): string {
    if parts == [] then [] else parts[0].text + Joined(parts[1..])
  }

  /** A run is fixed by where it stops: any maximal same-flag stretch from i ends at RunEnd(s, i). */
  lemma {:induction false} RunEndUnique(s: string, i: nat, a: nat)
    requires i < a <= |s|
    requires FlaggedBetween(s, i, a, IsEmoji(s[i]))
    requires a < |s| ==> IsEmoji(s[a]) != IsEmoji(s[i])
    ensures RunEnd(s, i) == a
  {
    var k := RunEnd(s, i);
    if k < a {
      assert false;
    } else if a < k {
      assert false;
    }
  }

  /** Concatenating the parts gives back the input exactly. */
  lemma {:induction false} RunsJoin(s: string, i: nat)
    requires i <= |s|
    ensures Joined(RunsFrom(s, i)) == s[i..]
    decreases |s| - i
  {
    if i < |s| {
      var k := RunEnd(s, i);
      RunsJoin(s, k);
      assert s[i..k] + s[k..] == s[i..];
    }
  }

  /** No part is empty, and each part's characters all carry the part's flag. */
  predicate WellFormedParts(parts: seq<Part>) {
    forall p :: p in parts ==> p.text != [] && AllFlagged(p.text, p.emoji)
  }

  /** Every part of the split is well formed. */
  lemma {:induction false} RunsWellFormed(s: string, i: nat)
    requires i <= |s|
    ensures WellFormedParts(RunsFrom(s, i))
    decreases |s| - i
  {
    if i < |s| {
      var k := RunEnd(s, i);
      RunsWellFormed(s, k);
      var p := Part(s[i..k], IsEmoji(s[i]));
      assert forall j :: 0 <= j < |p.text| ==> p.text[j] == s[i + j];
    }
  }

  /** The split of s[i..] is empty exactly when s[i..] is. */
  lemma RunsFromEmpty(s: string, i: nat)
    requires i <= |s|
    ensures RunsFrom(s, i) == [] <==> i == |s|
  {
  }

  /** Consecutive parts differ in their emoji flag. */
  predicate Alternates(parts: seq<Part>) {
    forall n :: 0 <= n < |parts| - 1 ==> parts[n].emoji != parts[n + 1].emoji
  }

  /** Runs are maximal: consecutive parts alternate between emoji and non-emoji. */
  lemma {:induction false} RunsAlternate(s: string, i: nat)
    requires i <= |s|
    ensures Alternates(RunsFrom(s, i))
    decreases |s| - i
  {
    if i < |s| {
      var k := RunEnd(s, i);
      RunsAlternate(s, k);
      var r := RunsFrom(s, i);
      var rest := RunsFrom(s, k);
      assert r == [Part(s[i..k], IsEmoji(s[i]))] + rest;
      forall n | 0 <= n < |r| - 1
        ensures r[n].emoji != r[n + 1].emoji
      {
        if n == 0 {
          RunsFromEmpty(s, k);
          assert rest[0].emoji == IsEmoji(s[k]);
          assert r[0].emoji == IsEmoji(s[i]) && r[1] == rest[0];
        } else {
          assert r[n] == rest[n - 1] && r[n + 1] == rest[n];
        }
      }
    }
  }

  /** The first part of a joined list covers s[i..a], and the rest covers s[a..]. */
  lemma JoinedFirst(s: string, i: nat, parts: seq<Part>) returns (a: nat)
    requires i <= |s| && parts != []
    requires Joined(parts) == s[i..]
    ensures a == i + |parts[0].text| && a <= |s|
    ensures s[i..a] == parts[0].text
    ensures s[a..] == Joined(parts[1..])
  {
    a := i + |parts[0].text|;
    assert s[i..] == parts[0].text + Joined(parts[1..]);
    assert s[i..][..|parts[0].text|] == s[i..a];
    assert s[i..][|parts[0].text|..] == s[a..];
  }

  /** In a well-formed alternating list, the first part is a maximal run of the text it covers. */
  lemma FirstPartIsRun(s: string, i: nat, parts: seq<Part>) returns (a: nat)
    requires i < |s| && parts != []
    requires Joined(parts) == s[i..]
    requires WellFormedParts(parts)
    requires Alternates(parts)
    ensures a == i + |parts[0].text|
    ensures IsRunEnd(s, i, a) && IsEmoji(s[i]) == parts[0].emoji
    ensures s[i..a] == parts[0].text && s[a..] == Joined(parts[1..])
  {
    var head := parts[0];
    assert head in parts;
    a := JoinedFirst(s, i, parts);
    assert forall j :: i <= j < a ==> s[j] == s[i..a][j - i];
    assert IsEmoji(s[i]) == head.emoji;
    if a < |s| {
      var next := JoinedFirst(s, a, parts[1..]);
      assert parts[1] in parts;
      assert s[a] == s[a..next][0];
    }
  }

  /** A part list with the four properties is unique: it must be the split. */
  lemma {:induction false} RunsUnique(s: string, i: nat, parts: seq<Part>)
    requires i <= |s|
    requires Joined(parts) == s[i..]
    requires WellFormedParts(parts)
    requires Alternates(parts)
    ensures parts == RunsFrom(s, i)
    decreases |parts|
  {
    if parts == [] {
      assert |s[i..]| == 0;
    } else {
      assert i < |s| by {
        var a := JoinedFirst(s, i, parts);
        assert parts[0] in parts;
      }
      var a := FirstPartIsRun(s, i, parts);
      RunEndUnique(s, i, a);
      assert WellFormedParts(parts[1..]) by {
        assert forall p :: p in parts[1..] ==> p in parts;
      }
      assert Alternates(parts[1..]) by {
        var tail := parts[1..];
        assert forall n :: 0 <= n < |tail| ==> tail[n] == parts[n + 1];
      }
      RunsUnique(s, a, parts[1..]);
      assert parts == [parts[0]] + parts[1..];
    }
  }

  /** Some character of s[i..] is an emoji. */
  predicate EmojiFrom(s: string, i: nat)
    requires i <= |s|
  {
    exists j :: i <= j < |s| && IsEmoji(s[j])
  }

  /** An emoji character lies inside an emoji part of the split. */
  lemma {:induction false} EmojiCharGivesEmojiPart(s: string, i: nat, j: nat)
    requires i <= j < |s| && IsEmoji(s[j])
    ensures exists p :: p in RunsFrom(s, i) && p.emoji
    decreases |s| - i
  {
    var k := RunEnd(s, i);
    if j < k {
      assert RunsFrom(s, i)[0].emoji;
    } else {
      EmojiCharGivesEmojiPart(s, k, j);
    }
  }

  /** An emoji part of the split holds an emoji character. */
  lemma {:induction false} EmojiPartGivesEmojiChar(s: string, i: nat)
    requires i <= |s|
    requires exists p :: p in RunsFrom(s, i) && p.emoji
    ensures EmojiFrom(s, i)
    decreases |s| - i
  {
    var k := RunEnd(s, i);
    if IsEmoji(s[i]) {
      assert i <= i < |s| && IsEmoji(s[i]);
    } else {
      var p :| p in RunsFrom(s, i) && p.emoji;
      assert p in RunsFrom(s, k);
      EmojiPartGivesEmojiChar(s, k);
      var j :| k <= j < |s| && IsEmoji(s[j]);
      assert i <= j;
    }
  }

  /** _contains_emoji(t) holds exactly when the split yields an emoji part. */
  lemma ContainsEmojiIffEmojiPart(s: string)
    ensures ContainsEmoji(s) <==> exists p :: p in Runs(s) && p.emoji
  {
    if ContainsEmoji(s) {
      var j :| 0 <= j < |s| && IsEmoji(s[j]);
      EmojiCharGivesEmojiPart(s, 0, j);
    }
    if exists p :: p in Runs(s) && p.emoji {
      EmojiPartGivesEmojiChar(s, 0);
    }
  }

  /** The empty string splits into no parts and contains no emoji. */
  lemma EmptySplit()
    ensures Runs("") == [] && !ContainsEmoji("")
  {
  }

  /**
   * One match of the emoji pattern extends the parts produced so far: the
   * non-emoji gap before it (if any), then the run itself.
   */
  lemma MatchStep(text: string, parts: seq<Part>, lastEnd: nat, start: nat, end: nat, found: seq<Part>)
    requires lastEnd <= start < end <= |text|
    requires parts + RunsFrom(text, lastEnd) == Runs(text)
    requires FlaggedBetween(text, lastEnd, start, false)
    requires FlaggedBetween(text, start, end, true)
    requires end < |text| ==> !IsEmoji(text[end])
    requires found == (if start > lastEnd then [Part(text[lastEnd..start], false)] else []) + [Part(text[start..end], true)]
    ensures (parts + found) + RunsFrom(text, end) == Runs(text)
  {
    if start > lastEnd {
      RunEndUnique(text, lastEnd, start);
    }
    RunEndUnique(text, start, end);
    assert RunsFrom(text, lastEnd) == found + RunsFrom(text, end);
  }

  /** The text after the last match, when non-empty, is one non-emoji part. */
  lemma TailStep(text: string, lastEnd: nat)
    requires lastEnd < |text|
    requires FlaggedBetween(text, lastEnd, |text|, false)
    ensures RunsFrom(text, lastEnd) == [Part(text[lastEnd..], false)]
  {
    RunEndUnique(text, lastEnd, |text|);
    assert RunsFrom(text, |text|) == [];
    assert text[lastEnd..|text|] == text[lastEnd..];
  }

  /** The split joins back to the input, has no empty part, flags every part correctly and alternates. */
  lemma RunsProperties(s: string)
    ensures Joined(Runs(s)) == s
    ensures WellFormedParts(Runs(s))
    ensures Alternates(Runs(s))
  {
    RunsJoin(s, 0);
    RunsWellFormed(s, 0);
    RunsAlternate(s, 0);
  }

  /** One match of the emoji pattern: text[start..end]. */
  datatype Match = Match(start: nat, end: nat)

  /**
   * The next match finditer yields from position from: the first emoji
   * character at or after from, extended by '+' to the longest run; None
   * when the rest of the text holds no emoji.
   */
  method NextMatch(text: string, from: nat) returns (m: Option<Match>)
    requires from <= |text|
    ensures m.None? ==> FlaggedBetween(text, from, |text|, false)
    ensures m.Some? ==> from <= m.value.start < m.value.end <= |text|
    ensures m.Some? ==> FlaggedBetween(text, from, m.value.start, false)
    ensures m.Some? ==> FlaggedBetween(text, m.value.start, m.value.end, true)
    ensures m.Some? && m.value.end < |text| ==> !IsEmoji(text[m.value.end])
  {
    var start := from;
    while start < |text| && !IsEmoji(text[start])
      invariant from <= start <= |text|
      invariant FlaggedBetween(text, from, start, false)
    {
      start := start + 1;
    }
    if start == |text| {
      return None;
    }
    var end := start + 1;
    while end < |text| && IsEmoji(text[end])
      invariant start < end <= |text|
      invariant FlaggedBetween(text, start, end, true)
    {
      end := end + 1;
    }
    m := Some(Match(start, end));
  }

  /**
   * _split_text_and_emojis: walk the matches of the emoji pattern left to
   * right, adding the text before a match when it is not empty, then the
   * match, then any text after the last match.
   */
  method SplitTextAndEmojis(text: string) returns (parts: seq<Part>)
    ensures parts == Runs(text)
    ensures Joined(parts) == text
  {
    parts := [];
    var lastEnd := 0;
    var m := NextMatch(text, 0);
    while m.Some?
      invariant lastEnd <= |text|
      invariant parts + RunsFrom(text, lastEnd) == Runs(text)
      invariant m.None? ==> FlaggedBetween(text, lastEnd, |text|, false)
      invariant m.Some? ==> lastEnd <= m.value.start < m.value.end <= |text|
      invariant m.Some? ==> FlaggedBetween(text, lastEnd, m.value.start, false)
      invariant m.Some? ==> FlaggedBetween(text, m.value.start, m.value.end, true)
      invariant m.Some? && m.value.end < |text| ==> !IsEmoji(text[m.value.end])
      decreases |text| - lastEnd
    {
      var start, end := m.value.start, m.value.end;
      var found := [Part(text[start..end], true)];
      if start > lastEnd {
        found := [Part(text[lastEnd..start], false)] + found;
      }
      MatchStep(text, parts, lastEnd, start, end, found);
      parts := parts + found;
      lastEnd := end;
      m := NextMatch(text, lastEnd);
    }
    if lastEnd < |text| {
      TailStep(text, lastEnd);
      parts := parts + [Part(text[lastEnd..], false)];
    } else {
      assert RunsFrom(text, lastEnd) == [];
    }
    RunsJoin(text, 0);
  }

  /** A text measurement: width and height in pixels. */
  datatype TextSize = TextSize(width: int, height: int)

  /**
   * TextRenderer.get_text_size: the empty string measures (0, 0); any other
   * text is measured by the font after emoji substitution, both of which are
   * the parameter measure here.
   */
  function GetTextSize(text: string, measure: string -> TextSize): (r: TextSize)
    ensures text == "" ==> r == TextSize(0, 0)
    ensures text != "" ==> r == measure(text)
  {
    if text == "" then TextSize(0, 0) else measure(text)
  }
}
