/**
  The parts of Go's `strings` package that the cron expander relies on:
  `Fields`, `Split` (always with a one-character separator here), `Join`,
  `Contains` and `TrimPrefix`. Strings are sequences of characters (runes).
 */
module Strings {

  /** Go's `unicode.IsSpace`: the ASCII and Latin-1 spaces plus the other
      characters of the Unicode White_Space property. */
  predicate IsSpace(c: char) {
    || c == ' ' || c == '\t' || c == '\n' || c == '\r' || c == '\U{0B}' || c == '\U{0C}'
    || c == '\U{85}' || c == '\U{A0}' || c == '\U{1680}'
    || ('\U{2000}' <= c <= '\U{200A}')
    || c == '\U{2028}' || c == '\U{2029}' || c == '\U{202F}' || c == '\U{205F}' || c == '\U{3000}'
  }

  predicate NoSpace(s: string) {
    forall i :: 0 <= i < |s| ==> !IsSpace(s[i])
  }

  predicate HasPrefix(s: string, prefix: string) {
    |prefix| <= |s| && s[..|prefix|] == prefix
  }

  /** `strings.Contains`: `sub` occurs somewhere in `s`, checked position by
      position from the front. */
  function Contains(s: string, sub: string): (b: bool)
    ensures b <==> exists i :: OccursAt(s, sub, i)
  {
    OccursShift(s, sub);
    HasPrefix(s, sub) || (s != [] && Contains(s[1..], sub))
  }

  /** `sub` occurs in `s` starting at index `i`. */
  predicate OccursAt(s: string, sub: string, i: int) {
    0 <= i <= |s| - |sub| && s[i..i + |sub|] == sub
  }

  /** An occurrence is at the front or, one position later, in the tail. */
  lemma OccursShift(s: string, sub: string)
    ensures (exists i :: OccursAt(s, sub, i))
        <==> HasPrefix(s, sub) || (s != [] && exists j :: OccursAt(s[1..], sub, j))
  {
    if HasPrefix(s, sub) {
      assert OccursAt(s, sub, 0);
    } else if s != [] {
      if exists j :: OccursAt(s[1..], sub, j) {
        var j :| OccursAt(s[1..], sub, j);
        assert s[1..][j..j + |sub|] == s[j + 1..j + 1 + |sub|];
        assert OccursAt(s, sub, j + 1);
      }
      if exists i :: OccursAt(s, sub, i) {
        var i :| OccursAt(s, sub, i);
        assert i != 0;
        assert s[1..][i - 1..i - 1 + |sub|] == s[i..i + |sub|];
        assert OccursAt(s[1..], sub, i - 1);
      }
    }
  }

  /** `strings.TrimPrefix`: drop `prefix` from the front of `s` if it is there. */
  function TrimPrefix(s: string, prefix: string): (r: string)
    ensures HasPrefix(s, prefix) ==> prefix + r == s
    ensures !HasPrefix(s, prefix) ==> r == s
  {
    if HasPrefix(s, prefix) then
      assert s == s[..|prefix|] + s[|prefix|..];
      s[|prefix|..]
    else s
  }

  /** The combined length of the elements. */
  function TotalLength(xs: seq<string>): nat {
    if xs == [] then 0 else |xs[0]| + TotalLength(xs[1..])
  }

  /** `strings.Join`: the elements with `sep` between neighbours, so the
      join starts with the first element (see also `JoinLength`). */
  function Join(xs: seq<string>, sep: string): (r: string)
    ensures xs != [] ==> |xs[0]| <= |r| && r[..|xs[0]|] == xs[0]
  {
    if |xs| == 0 then ""
    else if |xs| == 1 then xs[0]
    else xs[0] + sep + Join(xs[1..], sep)
  }

  /** A join starts with its first element and ends with its last. */
  lemma {:induction false} JoinEnds(xs: seq<string>, sep: string)
    requires |xs| >= 1
    ensures var j, last := Join(xs, sep), xs[|xs| - 1];
      && |xs[0]| <= |j| && j[..|xs[0]|] == xs[0]
      && |last| <= |j| && j[|j| - |last|..] == last
  {
    if |xs| > 1 {
      JoinEnds(xs[1..], sep);
      var j, rest := Join(xs, sep), Join(xs[1..], sep);
      assert j == (xs[0] + sep) + rest;
      var last := xs[|xs| - 1];
      assert xs[1..][|xs[1..]| - 1] == last;
      assert j[|j| - |last|..] == rest[|rest| - |last|..];
    }
  }

  /** A join is as long as its elements plus one separator fewer than there
      are elements. */
  lemma {:induction false} JoinLength(xs: seq<string>, sep: string)
    requires xs != []
    ensures |Join(xs, sep)| == TotalLength(xs) + (|xs| - 1) * |sep|
  {
    if |xs| > 1 {
      JoinLength(xs[1..], sep);
      assert (|xs| - 1) * |sep| == |sep| + (|xs| - 2) * |sep|;
    } else {
      assert xs[1..] == [];
    }
  }

  /** Joining two non-empty lists puts one separator between their joins. */
  lemma {:induction false} JoinAppend(xs: seq<string>, ys: seq<string>, sep: string)
    requires xs != [] && ys != []
    ensures Join(xs + ys, sep) == Join(xs, sep) + sep + Join(ys, sep)
  {
    if |xs| == 1 {
      assert (xs + ys)[1..] == ys;
    } else {
      JoinAppend(xs[1..], ys, sep);
      assert (xs + ys)[1..] == xs[1..] + ys;
    }
  }

  /** A character found in neither the elements nor the separator is not
      in their join. */
  lemma {:induction false} JoinAvoids(xs: seq<string>, sep: string, c: char)
    requires c !in sep && forall k :: 0 <= k < |xs| ==> c !in xs[k]
    ensures c !in Join(xs, sep)
  {
    if |xs| > 1 {
      JoinAvoids(xs[1..], sep, c);
    }
  }

  /** The number of occurrences of `c` in `s`. */
  function Count(s: string, c: char): nat {
    if s == [] then 0 else (if s[0] == c then 1 else 0) + Count(s[1..], c)
  }

  /** `strings.Split` with the one-character separator `sep`: the maximal
      pieces of `s` between separators, including empty ones: one more piece
      than there are separators. */
  function Split(s: string, sep: char): (r: seq<string>)
    ensures |r| == Count(s, sep) + 1
  {
    if s == [] then [""]
    else
      var rest := Split(s[1..], sep);
      if s[0] == sep then [""] + rest
      else [[s[0]] + rest[0]] + rest[1..]
  }

  /** `strings.Fields`: the maximal runs of non-space characters of `s`. */
  function Fields(s: string): (r: seq<string>)
    ensures forall k :: 0 <= k < |r| ==> r[k] != "" && NoSpace(r[k])
  {
    FieldsFrom(s, "")
  }

  /** The words of `s`, where `word` is the run of non-space characters read
      just before `s`. */
  function FieldsFrom(s: string, word: string): (r: seq<string>)
    requires NoSpace(word)
    ensures forall k :: 0 <= k < |r| ==> r[k] != "" && NoSpace(r[k])
  {
    if s == [] then
      if word == "" then [] else [word]
    else if IsSpace(s[0]) then
      if word == "" then FieldsFrom(s[1..], "") else [word] + FieldsFrom(s[1..], "")
    else
      FieldsFrom(s[1..], word + [s[0]])
  }

  /** A string cannot contain `sub` if it lacks the first character of `sub`. */
  lemma ContainsFirst(s: string, sub: string)
    requires sub != [] && sub[0] !in s
    ensures !Contains(s, sub)
  {
    forall i
      ensures !OccursAt(s, sub, i)
    {
      if 0 <= i <= |s| - |sub| {
        assert s[i..i + |sub|][0] == s[i];
      }
    }
  }

  lemma ContainsChar(s: string, c: char)
    ensures Contains(s, [c]) <==> c in s
  {
    if c in s {
      var i :| 0 <= i < |s| && s[i] == c;
      assert OccursAt(s, [c], i);
    }
    if Contains(s, [c]) {
      var i :| OccursAt(s, [c], i);
      assert s[i] == s[i..i + 1][0];
    }
  }

  /** A split has at least one piece, no piece holds the separator, and
      there are two or more pieces exactly when the separator occurs. */
  lemma {:induction false} SplitShape(s: string, sep: char)
    ensures |Split(s, sep)| >= 1
    ensures forall k :: 0 <= k < |Split(s, sep)| ==> sep !in Split(s, sep)[k]
    ensures sep in s <==> |Split(s, sep)| >= 2
  {
    if s != [] {
      SplitShape(s[1..], sep);
      var rest := Split(s[1..], sep);
      if s[0] != sep {
        assert Split(s, sep)[0] == [s[0]] + rest[0];
        assert forall k :: 1 <= k < |Split(s, sep)| ==> Split(s, sep)[k] == rest[k];
      } else {
        assert forall k :: 1 <= k < |Split(s, sep)| ==> Split(s, sep)[k] == rest[k - 1];
      }
      assert sep in s <==> s[0] == sep || sep in s[1..];
    }
  }

  /** Joining the pieces of a split with the separator gives back the input. */
  lemma {:induction false} JoinSplit(s: string, sep: char)
    ensures Join(Split(s, sep), [sep]) == s
  {
    if s != [] {
      JoinSplit(s[1..], sep);
      var rest := Split(s[1..], sep);
      if s[0] == sep {
        JoinFront(rest, [sep]);
      } else {
        JoinPrefix([s[0]], rest, [sep]);
      }
      assert s == [s[0]] + s[1..];
    }
  }

  /** An empty first element leaves the separator at the front of the join. */
  lemma JoinFront(xs: seq<string>, sep: string)
    requires xs != []
    ensures Join([""] + xs, sep) == sep + Join(xs, sep)
  {
    assert ([""] + xs)[1..] == xs;
  }

  /** Extending the first element extends the join at its front. */
  lemma JoinPrefix(a: string, xs: seq<string>, sep: string)
    requires xs != []
    ensures Join([a + xs[0]] + xs[1..], sep) == a + Join(xs, sep)
  {
    var ys := [a + xs[0]] + xs[1..];
    assert ys[1..] == xs[1..];
  }

  lemma {:induction false} SplitNoSeparator(s: string, sep: char)
    requires sep !in s
    ensures Split(s, sep) == [s]
  {
    if s != [] {
      SplitNoSeparator(s[1..], sep);
      assert [s[0]] + s[1..] == s;
    }
  }

  /** Splitting `a` followed by the separator and `b` yields `a` and then the
      pieces of `b`, when `a` holds no separator. */
  lemma {:induction false} SplitAtFirst(a: string, b: string, sep: char)
    requires sep !in a
    ensures Split(a + [sep] + b, sep) == [a] + Split(b, sep)
  {
    if a == [] {
      assert a + [sep] + b == [sep] + b;
      assert ([sep] + b)[1..] == b;
    } else {
      SplitAtFirst(a[1..], b, sep);
      assert (a + [sep] + b)[1..] == a[1..] + [sep] + b;
      assert [a[0]] + a[1..] == a;
    }
  }

  /** Splitting a join of separator-free pieces gives back the pieces. */
  lemma {:induction false} SplitJoin(xs: seq<string>, sep: char)
    requires |xs| >= 1
    requires forall k :: 0 <= k < |xs| ==> sep !in xs[k]
    ensures Split(Join(xs, [sep]), sep) == xs
  {
    if |xs| == 1 {
      SplitNoSeparator(xs[0], sep);
    } else {
      SplitJoin(xs[1..], sep);
      SplitAtFirst(xs[0], Join(xs[1..], [sep]), sep);
      assert xs == [xs[0]] + xs[1..];
    }
  }

  lemma {:induction false} FieldsFromWord(w: string, s: string, word: string)
    requires NoSpace(word) && NoSpace(w)
    ensures FieldsFrom(w + s, word) == FieldsFrom(s, word + w)
  {
    if w != [] {
      assert (w + s)[0] == w[0] && (w + s)[1..] == w[1..] + s;
      FieldsFromWord(w[1..], s, word + [w[0]]);
      assert word + [w[0]] + w[1..] == word + w;
    } else {
      assert w + s == s;
      assert word + w == word;
    }
  }

  /** `Fields` undoes a single-space join of non-empty space-free words. */
  lemma {:induction false} FieldsJoin(ws: seq<string>)
    requires forall k :: 0 <= k < |ws| ==> ws[k] != "" && NoSpace(ws[k])
    ensures Fields(Join(ws, " ")) == ws
  {
    if |ws| == 1 {
      FieldsFromWord(ws[0], "", "");
      assert ws[0] + "" == ws[0];
    } else if |ws| > 1 {
      var rest := Join(ws[1..], " ");
      FieldsJoin(ws[1..]);
      assert ws[0] + " " + rest == ws[0] + (" " + rest);
      FieldsFromWord(ws[0], " " + rest, "");
      assert "" + ws[0] == ws[0];
      assert (" " + rest)[1..] == rest;
      assert ws == [ws[0]] + ws[1..];
    }
  }

  predicate AllSpace(s: string) {
    forall i :: 0 <= i < |s| ==> IsSpace(s[i])
  }

  /** Words laid out between gaps: `gaps[0] + ws[0] + gaps[1] + ... +
      ws[n-1] + gaps[n]`. */
  function Layout(ws: seq<string>, gaps: seq<string>): string
    requires |gaps| == |ws| + 1
  {
    if ws == [] then gaps[0] else gaps[0] + ws[0] + Layout(ws[1..], gaps[1..])
  }

  /** Gaps that separate words: whitespace only, and non-empty between two
      words (the first and the last gap may be empty). */
  predicate Separating(gaps: seq<string>) {
    && (forall k :: 0 <= k < |gaps| ==> AllSpace(gaps[k]))
    && (forall k :: 0 < k < |gaps| - 1 ==> gaps[k] != "")
  }

  /** Leading whitespace contributes no word. */
  lemma {:induction false} FieldsSkipSpace(sp: string, s: string)
    requires AllSpace(sp)
    ensures FieldsFrom(sp + s, "") == FieldsFrom(s, "")
  {
    if sp != [] {
      assert (sp + s)[0] == sp[0] && (sp + s)[1..] == sp[1..] + s;
      FieldsSkipSpace(sp[1..], s);
    } else {
      assert sp + s == s;
    }
  }

  /** A pending word ends at the end of the input or at whitespace. */
  lemma FieldsWordEnds(s: string, word: string)
    requires word != "" && NoSpace(word) && (s == [] || IsSpace(s[0]))
    ensures FieldsFrom(s, word) == [word] + FieldsFrom(s, "")
  {
  }

  /** A layout after its first gap is empty or starts with whitespace when
      that gap is non-empty or there are no words. */
  lemma LayoutStart(ws: seq<string>, gaps: seq<string>)
    requires |gaps| == |ws| + 1 && AllSpace(gaps[0]) && (ws == [] || gaps[0] != "")
    ensures var l := Layout(ws, gaps); l == [] || IsSpace(l[0])
  {
    if ws != [] {
      assert Layout(ws, gaps)[0] == gaps[0][0];
    }
  }

  /** `Fields` reads back the words of any layout whose gaps are whitespace,
      non-empty between words: runs of spaces, tabs and newlines between the
      words and whitespace at either end are all skipped. */
  lemma {:induction false} FieldsLayout(ws: seq<string>, gaps: seq<string>)
    requires |gaps| == |ws| + 1 && Separating(gaps)
    requires forall k :: 0 <= k < |ws| ==> ws[k] != "" && NoSpace(ws[k])
    ensures Fields(Layout(ws, gaps)) == ws
  {
    if ws == [] {
      FieldsSkipSpace(gaps[0], "");
      assert gaps[0] + "" == gaps[0];
    } else {
      var rest := Layout(ws[1..], gaps[1..]);
      assert Layout(ws, gaps) == gaps[0] + (ws[0] + rest);
      FieldsSkipSpace(gaps[0], ws[0] + rest);
      FieldsFromWord(ws[0], rest, "");
      assert "" + ws[0] == ws[0];
      assert Separating(gaps[1..]) by {
        assert forall k :: 0 <= k < |gaps| - 1 ==> gaps[1..][k] == gaps[k + 1];
      }
      FieldsLayout(ws[1..], gaps[1..]);
      LayoutStart(ws[1..], gaps[1..]);
      FieldsWordEnds(rest, ws[0]);
      assert ws == [ws[0]] + ws[1..];
    }
  }

  /** A word is pending, or a non-space character is still to come: some
      word will be produced. */
  lemma {:induction false} FieldsFromNonEmpty(s: string, word: string)
    requires NoSpace(word) && (word != "" || !AllSpace(s))
    ensures FieldsFrom(s, word) != []
  {
    if s != [] {
      if !IsSpace(s[0]) {
        FieldsFromNonEmpty(s[1..], word + [s[0]]);
      } else if word == "" {
        var i :| 0 <= i < |s| && !IsSpace(s[i]);
        assert s[1..][i - 1] == s[i];
        FieldsFromNonEmpty(s[1..], "");
      }
    }
  }

  /** `Fields` finds no word exactly when the input is all whitespace. */
  lemma FieldsEmpty(s: string)
    ensures Fields(s) == [] <==> AllSpace(s)
  {
    if AllSpace(s) {
      FieldsSkipSpace(s, "");
      assert s + "" == s;
    } else {
      FieldsFromNonEmpty(s, "");
    }
  }

  /** Whitespace put in front of a layout's first gap. */
  lemma LayoutPrepend(ws: seq<string>, gaps: seq<string>, sp: string)
    requires |gaps| == |ws| + 1
    ensures Layout(ws, [sp + gaps[0]] + gaps[1..]) == sp + Layout(ws, gaps)
  {
    var gaps' := [sp + gaps[0]] + gaps[1..];
    assert gaps'[1..] == gaps[1..];
  }

  /** One more whitespace character in front of a layout joins its first gap. */
  lemma GapsWiden(ws: seq<string>, g: seq<string>, c: char) returns (g': seq<string>)
    requires |g| == |ws| + 1 && Separating(g) && IsSpace(c)
    ensures |g'| == |g| && Separating(g') && g'[0] != ""
    ensures Layout(ws, g') == [c] + Layout(ws, g)
  {
    g' := [[c] + g[0]] + g[1..];
    LayoutPrepend(ws, g, [c]);
    assert forall k :: 0 < k < |g'| ==> g'[k] == g[k];
  }

  /** A word in front of a layout that starts with whitespace. */
  lemma GapsWord(ws: seq<string>, g: seq<string>, word: string) returns (g': seq<string>)
    requires |g| == |ws| + 1 && Separating(g) && g[0] != ""
    ensures |g'| == |ws| + 2 && Separating(g') && g'[0] == ""
    ensures Layout([word] + ws, g') == word + Layout(ws, g)
  {
    g' := [""] + g;
    assert g'[1..] == g && ([word] + ws)[1..] == ws;
    assert forall k :: 0 < k < |g'| ==> g'[k] == g[k - 1];
  }

  /** The gaps around the words of `FieldsFrom(s, word)`, read off `word + s`;
      when a word is pending the first gap is empty. */
  lemma {:induction false} FieldsFromGaps(s: string, word: string) returns (gaps: seq<string>)
    requires NoSpace(word)
    ensures |gaps| == |FieldsFrom(s, word)| + 1 && Separating(gaps)
    ensures word != "" ==> gaps[0] == ""
    ensures Layout(FieldsFrom(s, word), gaps) == word + s
  {
    if s == [] {
      if word == "" {
        gaps := [""];
      } else {
        gaps := ["", ""];
        assert Layout([word], gaps) == "" + word + Layout([], [""]);
      }
    } else if IsSpace(s[0]) {
      var r' := FieldsFrom(s[1..], "");
      var g := FieldsFromGaps(s[1..], "");
      var g' := GapsWiden(r', g, s[0]);
      assert [s[0]] + ("" + s[1..]) == s;
      if word == "" {
        gaps := g';
      } else {
        gaps := GapsWord(r', g', word);
      }
    } else {
      gaps := FieldsFromGaps(s[1..], word + [s[0]]);
      assert word + [s[0]] + s[1..] == word + s;
    }
  }

  /** Every input is a layout of its own tokens: whitespace-only gaps,
      non-empty between tokens. With `FieldsLayout` this determines `Fields`
      completely. */
  lemma FieldsCover(s: string)
    ensures exists gaps :: |gaps| == |Fields(s)| + 1 && Separating(gaps) && Layout(Fields(s), gaps) == s
  {
    var gaps := FieldsFromGaps(s, "");
    assert "" + s == s;
  }
}
