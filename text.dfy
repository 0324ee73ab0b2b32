// String operations of Python's `str` that the scripts rely on, over
// `seq<char>`: lower-casing, substring search (`in`), `strip`, `join`,
// `split(sep)`, `split()` and iteration over the lines of a text file.
module Text {

  /** Python's `str.isspace` for one character. */
  predicate IsSpace(c: char) {
    || c == ' '
    || ('\t' <= c <= '\r')
    || ('\U{1c}' <= c <= '\U{1f}')
    || c == '\U{85}' || c == '\U{a0}' || c == '\U{1680}'
    || ('\U{2000}' <= c <= '\U{200a}')
    || c == '\U{2028}' || c == '\U{2029}' || c == '\U{202f}'
    || c == '\U{205f}' || c == '\U{3000}'
  }

  predicate IsQuote(c: char) {
    c == '"'
  }

  predicate NoSpace(w: string) {
    forall k :: 0 <= k < |w| ==> !IsSpace(w[k])
  }

  predicate NoNewline(s: string) {
    forall k :: 0 <= k < |s| ==> s[k] != '\n'
  }

  lemma {:induction false} NoNewlineConcat(a: string, b: string)
    requires NoNewline(a) && NoNewline(b)
    ensures NoNewline(a + b)
  {
    forall k | 0 <= k < |a + b| ensures (a + b)[k] != '\n' {
      if k >= |a| {
        assert (a + b)[k] == b[k - |a|];
      }
    }
  }

  /** A labelled line, `tag + value`, holds no line break. */
  lemma {:induction false} LabelledNoNewline(tag: string, value: string)
    requires '\n' !in tag && NoNewline(value)
    ensures NoNewline(tag + value)
  {
    assert forall k :: 0 <= k < |tag| ==> tag[k] in tag;
    NoNewlineConcat(tag, value);
  }

  // ---------------------------------------------------------------------
  // Case mapping (ASCII letters only)

  function LowerChar(c: char): (d: char)
    ensures 'A' <= c <= 'Z' ==> d as int == c as int + 32
    ensures !('A' <= c <= 'Z') ==> d == c
  {
    if 'A' <= c <= 'Z' then (c as int + 32) as char else c
  }

  function UpperChar(c: char): (d: char)
    ensures 'a' <= c <= 'z' ==> d as int == c as int - 32
    ensures !('a' <= c <= 'z') ==> d == c
  {
    if 'a' <= c <= 'z' then (c as int - 32) as char else c
  }

  /** `s.lower()` */
  function Lower(s: string): (r: string)
    ensures |r| == |s|
    ensures forall i :: 0 <= i < |s| ==> r[i] == LowerChar(s[i])
  {
    seq(|s|, i requires 0 <= i < |s| => LowerChar(s[i]))
  }

  /** `s.capitalize()`: first character upper-cased, the rest lower-cased. */
  function Capitalize(s: string): (r: string)
    ensures |r| == |s|
    ensures s != [] ==> r[0] == UpperChar(s[0]) && r[1..] == Lower(s[1..])
  {
    if s == [] then [] else [UpperChar(s[0])] + Lower(s[1..])
  }

  lemma {:induction false} LowerAppend(a: string, b: string)
    ensures Lower(a + b) == Lower(a) + Lower(b)
  {
  }

  lemma {:induction false} LowerIdempotent(s: string)
    ensures Lower(Lower(s)) == Lower(s)
  {
  }

  // ---------------------------------------------------------------------
  // Substring search: Python's `needle in hay`

  predicate Contains(hay: string, needle: string)
    decreases |hay|
  {
    needle <= hay || (hay != [] && Contains(hay[1..], needle))
  }

  /** Case-insensitive containment as the scripts write it:
      `needle.lower() in hay.lower()`. */
  predicate ContainsCI(hay: string, needle: string) {
    Contains(Lower(hay), Lower(needle))
  }

  predicate OccursAt(hay: string, needle: string, i: int)
    requires 0 <= i <= |hay| - |needle|
  {
    hay[i..i + |needle|] == needle
  }

  /** `needle in hay` holds exactly when `needle` occurs at some index. */
  lemma {:induction false} ContainsIffOccurs(hay: string, needle: string)
    ensures Contains(hay, needle) <==>
      exists i :: 0 <= i <= |hay| - |needle| && OccursAt(hay, needle, i)
    decreases |hay|
  {
    if needle <= hay {
      assert OccursAt(hay, needle, 0);
    } else if hay == [] {
      assert |needle| > 0;
    } else {
      ContainsIffOccurs(hay[1..], needle);
      if Contains(hay[1..], needle) {
        var i :| 0 <= i <= |hay| - 1 - |needle| && OccursAt(hay[1..], needle, i);
        assert OccursAt(hay, needle, i + 1);
      }
      forall i | 1 <= i <= |hay| - |needle| && OccursAt(hay, needle, i)
        ensures OccursAt(hay[1..], needle, i - 1)
      {
        assert hay[1..][i - 1..i - 1 + |needle|] == hay[i..i + |needle|];
      }
      forall i | 0 <= i <= |hay| - |needle| ensures i == 0 ==> !OccursAt(hay, needle, i) {
        if i == 0 {
          assert hay[..|needle|] != needle;
        }
      }
    }
  }

  lemma {:induction false} ContainsAt(hay: string, needle: string, i: nat)
    requires i + |needle| <= |hay| && hay[i..i + |needle|] == needle
    ensures Contains(hay, needle)
  {
    assert OccursAt(hay, needle, i);
    ContainsIffOccurs(hay, needle);
  }

  /** A needle that starts with character `a` followed by `b` is absent from
      any text in which `a` is never followed by `b`. */
  lemma {:induction false} AbsentPair(hay: string, needle: string)
    requires |needle| >= 2
    requires forall k :: 0 <= k < |hay| - 1 && hay[k] == needle[0] ==> hay[k + 1] != needle[1]
    ensures !Contains(hay, needle)
  {
    forall i | 0 <= i <= |hay| - |needle| ensures !OccursAt(hay, needle, i) {
      var w := hay[i..i + |needle|];
      if hay[i] == needle[0] {
        assert w[1] == hay[i + 1] != needle[1];
      } else {
        assert w[0] != needle[0];
      }
    }
    ContainsIffOccurs(hay, needle);
  }

  lemma {:induction false} ContainsInLeft(a: string, b: string, x: string)
    requires Contains(a, x)
    ensures Contains(a + b, x)
  {
    ContainsIffOccurs(a, x);
    var i :| 0 <= i <= |a| - |x| && OccursAt(a, x, i);
    assert (a + b)[i..i + |x|] == a[i..i + |x|];
    ContainsAt(a + b, x, i);
  }

  lemma {:induction false} ContainsInRight(a: string, b: string, x: string)
    requires Contains(b, x)
    ensures Contains(a + b, x)
  {
    ContainsIffOccurs(b, x);
    var i :| 0 <= i <= |b| - |x| && OccursAt(b, x, i);
    assert (a + b)[|a| + i..|a| + i + |x|] == b[i..i + |x|];
    ContainsAt(a + b, x, |a| + i);
  }

  // ---------------------------------------------------------------------
  // strip

  /** Length of the longest prefix whose characters all satisfy `drop`. */
  function LeftSpan(s: string, drop: char -> bool): (n: nat)
    ensures n <= |s|
    ensures forall k :: 0 <= k < n ==> drop(s[k])
    ensures n == |s| || !drop(s[n])
    decreases |s|
  {
    if s != [] && drop(s[0]) then 1 + LeftSpan(s[1..], drop) else 0
  }

  /** Length of what is left once the longest suffix whose characters all
      satisfy `drop` is removed. */
  function RightEnd(s: string, drop: char -> bool): (n: nat)
    ensures n <= |s|
    ensures forall k :: n <= k < |s| ==> drop(s[k])
    ensures n == 0 || !drop(s[n - 1])
    decreases |s|
  {
    if s != [] && drop(s[|s| - 1]) then RightEnd(s[..|s| - 1], drop) else |s|
  }

  /** Both ends trimmed: empty when every character is droppable. */
  function StripBy(s: string, drop: char -> bool): string {
    var i := LeftSpan(s, drop);
    if i == |s| then [] else s[i..RightEnd(s, drop)]
  }

  /** `s.strip()` */
  function Strip(s: string): string {
    StripBy(s, IsSpace)
  }

  /** `s.strip('"')` */
  function StripQuotes(s: string): string {
    StripBy(s, IsQuote)
  }

  /** The result of stripping is the infix of the input that starts after
      the removed prefix; everything removed on either side was droppable and
      the kept ends are not. */
  lemma {:induction false} StripByShape(s: string, drop: char -> bool)
    ensures var i := LeftSpan(s, drop); var r := StripBy(s, drop);
      i + |r| <= |s| && r == s[i..i + |r|]
    ensures forall k :: 0 <= k < LeftSpan(s, drop) ==> drop(s[k])
    ensures forall k :: LeftSpan(s, drop) + |StripBy(s, drop)| <= k < |s| ==> drop(s[k])
    ensures var r := StripBy(s, drop); r == [] || (!drop(r[0]) && !drop(r[|r| - 1]))
  {
    var i := LeftSpan(s, drop);
    if i < |s| {
      var j := RightEnd(s, drop);
      assert i < j;
      var r := s[i..j];
      assert r[0] == s[i] && r[|r| - 1] == s[j - 1];
    }
  }

  lemma {:induction false} StripByIdempotent(s: string, drop: char -> bool)
    ensures StripBy(StripBy(s, drop), drop) == StripBy(s, drop)
  {
    StripByShape(s, drop);
    StripByOfTrimmed(StripBy(s, drop), drop);
  }

  /** A string that neither starts nor ends with a droppable character is
      left alone by strip. */
  lemma {:induction false} StripByOfTrimmed(s: string, drop: char -> bool)
    requires s == [] || (!drop(s[0]) && !drop(s[|s| - 1]))
    ensures StripBy(s, drop) == s
  {
    if s != [] {
      assert LeftSpan(s, drop) == 0;
      assert RightEnd(s, drop) == |s|;
    }
  }

  predicate IsStripped(s: string) {
    s == [] || (!IsSpace(s[0]) && !IsSpace(s[|s| - 1]))
  }

  lemma {:induction false} StripOfStripped(s: string)
    requires IsStripped(s)
    ensures Strip(s) == s
  {
    StripByOfTrimmed(s, IsSpace);
  }

  lemma {:induction false} StripIsStripped(s: string)
    ensures IsStripped(Strip(s))
  {
    StripByShape(s, IsSpace);
  }

  // ---------------------------------------------------------------------
  // join and split

  /** `sep.join(parts)` */
  function Join(parts: seq<string>, sep: string): string
    decreases |parts|
  {
    if |parts| == 0 then ""
    else if |parts| == 1 then parts[0]
    else parts[0] + sep + Join(parts[1..], sep)
  }

  /** Every part occurs in the joined text. */
  lemma {:induction false} JoinHasPart(parts: seq<string>, sep: string, i: nat)
    requires i < |parts|
    ensures Contains(Join(parts, sep), parts[i])
    decreases |parts|
  {
    if |parts| > 1 {
      var tail := Join(parts[1..], sep);
      assert Join(parts, sep) == parts[0] + sep + tail;
      if i == 0 {
        ContainsAt(Join(parts, sep), parts[0], 0);
      } else {
        JoinHasPart(parts[1..], sep, i - 1);
        ContainsInRight(parts[0] + sep, tail, parts[i]);
      }
    } else {
      ContainsAt(parts[0], parts[0], 0);
    }
  }

  /** With the separator also written in front, every part occurs preceded by
      the separator. */
  lemma {:induction false} SepJoinHasPart(parts: seq<string>, sep: string, i: nat)
    requires i < |parts|
    ensures Contains(sep + Join(parts, sep), sep + parts[i])
    decreases |parts|
  {
    if |parts| > 1 {
      var tail := Join(parts[1..], sep);
      assert sep + Join(parts, sep) == sep + parts[0] + (sep + tail);
      if i == 0 {
        ContainsAt(sep + Join(parts, sep), sep + parts[0], 0);
      } else {
        SepJoinHasPart(parts[1..], sep, i - 1);
        ContainsInRight(sep + parts[0], sep + tail, sep + parts[i]);
      }
    } else {
      ContainsAt(sep + parts[0], sep + parts[0], 0);
    }
  }

  /** Index of the first occurrence of `c` in `s`, or `|s|` when there is none. */
  function IndexOf(s: string, c: char): (n: nat)
    ensures n <= |s|
    ensures forall k :: 0 <= k < n ==> s[k] != c
    ensures n < |s| ==> s[n] == c
  {
    if s == [] || s[0] == c then 0 else 1 + IndexOf(s[1..], c)
  }

  /** `s.split(c)` for a one-character separator. */
  function SplitOn(s: string, c: char): (parts: seq<string>)
    ensures |parts| >= 1
    ensures forall i :: 0 <= i < |parts| ==> forall k :: 0 <= k < |parts[i]| ==> parts[i][k] != c
    decreases |s|
  {
    var n := IndexOf(s, c);
    if n == |s| then [s] else [s[..n]] + SplitOn(s[n + 1..], c)
  }

  lemma {:induction false} IndexOfFirst(a: string, c: char, b: string)
    requires forall k :: 0 <= k < |a| ==> a[k] != c
    ensures IndexOf(a + [c] + b, c) == |a|
    decreases |a|
  {
    if a != [] {
      assert (a + [c] + b)[1..] == a[1..] + [c] + b;
      IndexOfFirst(a[1..], c, b);
    }
  }

  /** The piece of a split between the first and second separator. */
  lemma {:induction false} SecondPiece(a: string, b: string, rest: string, c: char)
    requires forall k :: 0 <= k < |a| ==> a[k] != c
    requires forall k :: 0 <= k < |b| ==> b[k] != c
    ensures |SplitOn(a + [c] + b + [c] + rest, c)| >= 2
    ensures SplitOn(a + [c] + b + [c] + rest, c)[1] == b
  {
    var s := a + [c] + (b + [c] + rest);
    assert s == a + [c] + b + [c] + rest;
    IndexOfFirst(a, c, b + [c] + rest);
    assert s[..|a|] == a && s[|a| + 1..] == b + [c] + rest;
    IndexOfFirst(b, c, rest);
    var t := b + [c] + rest;
    assert t[..|b|] == b;
  }

  /** Joining the pieces of a split with the separator gives the text back. */
  lemma {:induction false} JoinSplitOn(s: string, c: char)
    ensures Join(SplitOn(s, c), [c]) == s
    decreases |s|
  {
    var n := IndexOf(s, c);
    if n < |s| {
      var head, tail := s[..n], s[n + 1..];
      JoinSplitOn(tail, c);
      var rest := SplitOn(tail, c);
      SplitOnCut(s, c);
      JoinCons(head, rest, [c]);
      CutAt(s, n);
    }
  }

  lemma {:induction false} SplitOnCut(s: string, c: char)
    requires IndexOf(s, c) < |s|
    ensures SplitOn(s, c) == [s[..IndexOf(s, c)]] + SplitOn(s[IndexOf(s, c) + 1..], c)
  {
  }

  lemma {:induction false} JoinCons(x: string, rest: seq<string>, sep: string)
    requires rest != []
    ensures Join([x] + rest, sep) == x + sep + Join(rest, sep)
  {
    assert ([x] + rest)[1..] == rest;
  }

  /** A text is the part before position `n`, the character there and the
      part after it. */
  lemma {:induction false} CutAt<T>(s: seq<T>, n: nat)
    requires n < |s|
    ensures s[..n] + [s[n]] + s[n + 1..] == s
  {
  }

  /** Length of the first word: the prefix of non-space characters. */
  function WordLen(s: string): (n: nat)
    ensures n <= |s|
    ensures forall k :: 0 <= k < n ==> !IsSpace(s[k])
    ensures n == |s| || IsSpace(s[n])
  {
    if s == [] || IsSpace(s[0]) then 0 else 1 + WordLen(s[1..])
  }

  /** `s.split()`: the maximal runs of non-space characters, in order. */
  function Words(s: string): (ws: seq<string>)
    ensures forall i :: 0 <= i < |ws| ==> ws[i] != [] && NoSpace(ws[i])
    decreases |s|
  {
    if s == [] then []
    else if IsSpace(s[0]) then Words(s[1..])
    else
      var n := WordLen(s);
      [s[..n]] + Words(s[n..])
  }

  lemma {:induction false} WordLenOfWord(w: string, rest: string)
    requires NoSpace(w)
    requires rest == [] || IsSpace(rest[0])
    ensures WordLen(w + rest) == |w|
    decreases |w|
  {
    if w != [] {
      assert (w + rest)[1..] == w[1..] + rest;
      WordLenOfWord(w[1..], rest);
    } else {
      assert w + rest == rest;
    }
  }

  /** Splitting a space-joined list of words gives the words back. */
  lemma {:induction false} WordsOfJoin(ws: seq<string>)
    requires forall i :: 0 <= i < |ws| ==> ws[i] != [] && NoSpace(ws[i])
    ensures Words(Join(ws, " ")) == ws
    decreases |ws|
  {
    if |ws| == 1 {
      assert ws[0] + "" == ws[0];
      WordLenOfWord(ws[0], "");
      assert ws[0][|ws[0]|..] == [];
      assert ws[0][..|ws[0]|] == ws[0];
    } else if |ws| > 1 {
      var w := ws[0];
      var tail := Join(ws[1..], " ");
      var s := w + " " + tail;
      assert Join(ws, " ") == s;
      WordLenOfWord(w, " " + tail);
      assert s == w + (" " + tail);
      assert s[..|w|] == w;
      assert s[|w|..] == " " + tail;
      assert (" " + tail)[1..] == tail;
      WordsOfJoin(ws[1..]);
      assert Words(s) == [w] + Words(" " + tail);
    }
  }

  /** Text after the first word does not change the word's length when the
      word already ends inside `s` or the text starts with whitespace. */
  lemma {:induction false} WordLenAppend(s: string, u: string)
    requires WordLen(s) < |s| || u == [] || IsSpace(u[0])
    ensures WordLen(s + u) == WordLen(s)
    decreases |s|
  {
    if s == [] {
      assert s + u == u;
    } else if !IsSpace(s[0]) {
      assert (s + u)[1..] == s[1..] + u;
      WordLenAppend(s[1..], u);
    }
  }

  /** Whitespace after a text adds no word. */
  lemma {:induction false} WordsAppendSpaces(s: string, u: string)
    requires forall k :: 0 <= k < |u| ==> IsSpace(u[k])
    ensures Words(s + u) == Words(s)
    decreases |s|
  {
    if s == [] {
      assert s + u == u;
      WordsDropSpaces(u, |u|);
    } else if IsSpace(s[0]) {
      assert (s + u)[1..] == s[1..] + u;
      WordsAppendSpaces(s[1..], u);
    } else {
      var n := WordLen(s);
      WordLenAppend(s, u);
      assert (s + u)[..n] == s[..n];
      assert (s + u)[n..] == s[n..] + u;
      WordsAppendSpaces(s[n..], u);
    }
  }

  /** Whitespace in front of a text adds no word. */
  lemma {:induction false} WordsDropSpaces(s: string, i: nat)
    requires i <= |s|
    requires forall k :: 0 <= k < i ==> IsSpace(s[k])
    ensures Words(s) == Words(s[i..])
    decreases i
  {
    if i > 0 {
      WordsDropSpaces(s[1..], i - 1);
      assert s[1..][i - 1..] == s[i..];
    }
  }

  /** `s.strip()` keeps the words of `s`. */
  lemma {:induction false} WordsOfStrip(s: string)
    ensures Words(Strip(s)) == Words(s)
  {
    var i := LeftSpan(s, IsSpace);
    var r := Strip(s);
    StripByShape(s, IsSpace);
    WordsDropSpaces(s, i);
    var rest := s[i + |r|..];
    assert s[i..] == r + rest;
    WordsAppendSpaces(r, rest);
  }

  /** Two texts with whitespace at the same places and the same characters
      everywhere else have the same first word length. */
  lemma {:induction false} WordLenSameBlanks(s: string, r: string)
    requires |s| == |r|
    requires forall k :: 0 <= k < |s| ==> (IsSpace(s[k]) <==> IsSpace(r[k]))
    ensures WordLen(r) == WordLen(s)
    decreases |s|
  {
    if s != [] && !IsSpace(s[0]) {
      WordLenSameBlanks(s[1..], r[1..]);
    }
  }

  /** ... and the same words. */
  lemma {:induction false} WordsSameBlanks(s: string, r: string)
    requires |s| == |r|
    requires forall k :: 0 <= k < |s| ==> (IsSpace(s[k]) <==> IsSpace(r[k]))
    requires forall k :: 0 <= k < |s| && !IsSpace(s[k]) ==> r[k] == s[k]
    ensures Words(r) == Words(s)
    decreases |s|
  {
    if s != [] {
      if IsSpace(s[0]) {
        WordsSameBlanks(s[1..], r[1..]);
      } else {
        var n := WordLen(s);
        WordLenSameBlanks(s, r);
        assert r[..n] == s[..n];
        WordsSameBlanks(s[n..], r[n..]);
      }
    }
  }

  /** Replacing newlines by spaces keeps the words. */
  lemma {:induction false} WordsOfNewlineToSpace(s: string)
    ensures Words(ReplaceChar(s, '\n', ' ')) == Words(s)
  {
    WordsSameBlanks(s, ReplaceChar(s, '\n', ' '));
  }

  /** A space-joined list of words has no newline, does not start or end with
      whitespace and holds no two spaces in a row. */
  lemma {:induction false} JoinWordsShape(ws: seq<string>)
    requires forall i :: 0 <= i < |ws| ==> ws[i] != [] && NoSpace(ws[i])
    ensures var s := Join(ws, " ");
      && NoNewline(s)
      && IsStripped(s)
      && (forall k :: 0 <= k < |s| - 1 ==> !(s[k] == ' ' && s[k + 1] == ' '))
    decreases |ws|
  {
    if |ws| > 1 {
      JoinWordsShape(ws[1..]);
      var w := ws[0];
      var tail := Join(ws[1..], " ");
      var s := w + " " + tail;
      assert Join(ws, " ") == s;
      assert tail != [] by { JoinNonEmpty(ws[1..]); }
      forall k | 0 <= k < |s| - 1 ensures !(s[k] == ' ' && s[k + 1] == ' ') {
        if k < |w| - 1 {
          assert s[k] == w[k];
        } else if k == |w| - 1 {
          assert s[k] == w[k];
        } else if k == |w| {
          assert s[k + 1] == tail[0];
        } else {
          assert s[k] == tail[k - |w| - 1] && s[k + 1] == tail[k - |w|];
        }
      }
      forall k | 0 <= k < |s| ensures s[k] != '\n' {
        if k < |w| { assert s[k] == w[k]; }
        else if k > |w| { assert s[k] == tail[k - |w| - 1]; }
      }
      assert s[|s| - 1] == tail[|tail| - 1];
    }
  }

  lemma {:induction false} JoinNonEmpty(ws: seq<string>)
    requires |ws| >= 1 && forall i :: 0 <= i < |ws| ==> ws[i] != []
    ensures var s := Join(ws, " "); s != [] && s[0] == ws[0][0] && s[|s| - 1] == ws[|ws| - 1][|ws[|ws| - 1]| - 1]
    decreases |ws|
  {
    if |ws| > 1 {
      JoinNonEmpty(ws[1..]);
    }
  }

  // ---------------------------------------------------------------------
  // Lines of a text file

  /** The lines that `for line in f` yields, each without its terminating
      newline: a final line without a newline still counts, and an empty file
      has no lines. */
  function Lines(text: string): (ls: seq<string>)
    decreases |text|
  {
    if text == [] then []
    else
      var n := IndexOf(text, '\n');
      if n == |text| then [text] else [text[..n]] + Lines(text[n + 1..])
  }

  lemma {:induction false} LinesCons(line: string, rest: string)
    requires NoNewline(line)
    ensures Lines(line + "\n" + rest) == [line] + Lines(rest)
  {
    var t := line + "\n" + rest;
    IndexOfAfter(line, rest);
    assert t[..|line|] == line;
    assert t[|line| + 1..] == rest;
  }

  lemma {:induction false} IndexOfAfter(line: string, rest: string)
    requires NoNewline(line)
    ensures IndexOf(line + "\n" + rest, '\n') == |line|
    decreases |line|
  {
    if line != [] {
      assert (line + "\n" + rest)[1..] == line[1..] + "\n" + rest;
      IndexOfAfter(line[1..], rest);
    }
  }

  /** A text ending in a newline is its first line, a newline and the rest. */
  lemma {:induction false} FirstLine(a: string) returns (line: string, rest: string)
    requires a != [] && a[|a| - 1] == '\n'
    ensures a == line + "\n" + rest && NoNewline(line) && |rest| < |a|
    ensures Lines(a) == [line] + Lines(rest)
    ensures rest == [] || rest[|rest| - 1] == '\n'
  {
    var n := IndexOf(a, '\n');
    line, rest := a[..n], a[n + 1..];
    assert a == line + "\n" + rest;
    LinesCons(line, rest);
  }

  lemma {:induction false} LinesConsAppend(line: string, rest: string, b: string)
    requires NoNewline(line)
    ensures Lines(line + "\n" + rest + b) == [line] + Lines(rest + b)
  {
    assert line + "\n" + rest + b == line + "\n" + (rest + b);
    LinesCons(line, rest + b);
  }

  lemma {:induction false} TailOfAppend<T>(a: seq<T>, b: seq<T>)
    requires a != []
    ensures (a + b)[0] == a[0] && (a + b)[1..] == a[1..] + b
  {
  }

  lemma {:induction false} InitLast<T>(s: seq<T>)
    requires s != []
    ensures s[..|s| - 1] + [s[|s| - 1]] == s
  {
  }

  lemma {:induction false} SeqAssoc<T>(x: seq<T>, y: seq<T>, z: seq<T>)
    ensures x + (y + z) == (x + y) + z
  {
  }

  /** `a` is `b` with some elements left out and the others in the same
      order. */
  predicate Subsequence(a: seq<string>, b: seq<string>)
    decreases |b|
  {
    || a == []
    || (b != [] && a[|a| - 1] == b[|b| - 1] && Subsequence(a[..|a| - 1], b[..|b| - 1]))
    || (b != [] && Subsequence(a, b[..|b| - 1]))
  }

  /** `[x for x in s if keep(x)]`: exactly the elements that pass, in their
      order. */
  function Filter(s: seq<string>, keep: string -> bool): (r: seq<string>)
    ensures forall x :: x in r <==> x in s && keep(x)
    ensures Subsequence(r, s)
    decreases |s|
  {
    if s == [] then []
    else
      var n := |s| - 1;
      var front := Filter(s[..n], keep);
      assert forall x :: x in s <==> x in s[..n] || x == s[n] by {
        InitLast(s);
      }
      if keep(s[n]) then
        assert (front + [s[n]])[..|front|] == front;
        front + [s[n]]
      else front
  }

  /** Lines of a concatenation split at a newline boundary. */
  lemma {:induction false} LinesAppend(a: string, b: string)
    requires a != [] && a[|a| - 1] == '\n'
    ensures Lines(a + b) == Lines(a) + Lines(b)
    decreases |a|
  {
    var line, rest := FirstLine(a);
    LinesConsAppend(line, rest, b);
    assert a + b == line + "\n" + rest + b;
    if rest != [] {
      LinesAppend(rest, b);
      SeqAssoc([line], Lines(rest), Lines(b));
    } else {
      assert rest + b == b;
      assert Lines(a) == [line];
    }
  }

  /** Lines written one after the other, each followed by a newline. */
  function Unlines(ls: seq<string>): (t: string)
    ensures ls != [] ==> t != [] && t[|t| - 1] == '\n'
    decreases |ls|
  {
    if ls == [] then "" else ls[0] + "\n" + Unlines(ls[1..])
  }

  /** Reading back lines that hold no newline gives those lines. */
  lemma {:induction false} LinesUnlines(ls: seq<string>)
    requires forall i :: 0 <= i < |ls| ==> NoNewline(ls[i])
    ensures Lines(Unlines(ls)) == ls
    decreases |ls|
  {
    if ls != [] {
      LinesUnlines(ls[1..]);
      LinesCons(ls[0], Unlines(ls[1..]));
    }
  }

  /** Lines that hold no newline, then a last text that may span several
      lines, then a blank line, read back as those lines, the lines of the
      last text, and the blank line. */
  lemma {:induction false} LinesOfBlock(front: seq<string>, last: string)
    requires forall i :: 0 <= i < |front| ==> NoNewline(front[i])
    ensures Lines(Unlines(front + [last, ""])) == front + Lines(last + "\n") + [""]
  {
    if front == [] {
      assert front + [last, ""] == [last, ""];
      LastThenBlank(last);
    } else {
      UnlinesAppend(front, [last, ""]);
      JoinedLines(Unlines(front), front, Unlines([last, ""]), last);
    }
  }

  lemma {:induction false} JoinedLines(u: string, front: seq<string>, v: string, last: string)
    requires front != [] && u == Unlines(front) && v == Unlines([last, ""])
    requires forall i :: 0 <= i < |front| ==> NoNewline(front[i])
    ensures Lines(u + v) == front + Lines(last + "\n") + [""]
  {
    LastThenBlank(last);
    LinesUnlines(front);
    LinesAppend(u, v);
    SeqAssoc(front, Lines(last + "\n"), [""]);
  }

  lemma {:induction false} UnlinesAppend(a: seq<string>, b: seq<string>)
    ensures Unlines(a + b) == Unlines(a) + Unlines(b)
    decreases |a|
  {
    if a == [] {
      assert a + b == b;
    } else {
      TailOfAppend(a, b);
      UnlinesAppend(a[1..], b);
    }
  }

  lemma {:induction false} LastThenBlank(last: string)
    ensures Lines(Unlines([last, ""])) == Lines(last + "\n") + [""]
  {
    UnlinesLastBlank(last);
    LinesAppend(last + "\n", "\n");
    LinesOfNewline();
  }

  lemma {:induction false} UnlinesLastBlank(last: string)
    ensures Unlines([last, ""]) == (last + "\n") + "\n"
  {
    assert [last, ""][1..] == [""];
    assert [""][1..] == [];
  }

  lemma {:induction false} LinesOfNewline()
    ensures Lines("\n") == [""]
  {
    assert IndexOf("\n", '\n') == 0;
    assert "\n"[1..] == [];
  }

  /** `s.replace(a, b)` for single characters. */
  function ReplaceChar(s: string, a: char, b: char): (r: string)
    ensures |r| == |s|
    ensures forall k :: 0 <= k < |s| ==> r[k] == (if s[k] == a then b else s[k])
  {
    seq(|s|, k requires 0 <= k < |s| => if s[k] == a then b else s[k])
  }
}
