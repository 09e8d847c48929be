/**
 * The text layout engine of the ticket printer: Python's whitespace
 * splitting, stripping and joining, and the greedy word wrapper `_wrap`.
 *
 * The width of a string in a font (`_text_len`, an integer number of
 * pixels) is kept abstract: it is the parameter `measure`.
 */
module TextLayout {

  /** The characters for which Python's `str.isspace()` holds; `str.split()`
      and `str.strip()` without arguments break and trim on exactly these. */
  predicate IsSpace(c: char) {
    || ('\U{9}' <= c <= '\U{D}')
    || ('\U{1C}' <= c <= '\U{20}')
    || c == '\U{85}' || c == '\U{A0}' || c == '\U{1680}'
    || ('\U{2000}' <= c <= '\U{200A}')
    || c == '\U{2028}' || c == '\U{2029}' || c == '\U{202F}' || c == '\U{205F}'
    || c == '\U{3000}'
  }

  /** A word as `str.split()` produces it: non-empty, without whitespace. */
  predicate IsWord(w: string) {
    w != [] && forall i :: 0 <= i < |w| ==> !IsSpace(w[i])
  }

  predicate IsBlank(s: string) {
    forall i :: 0 <= i < |s| ==> IsSpace(s[i])
  }

  /** Length of the leading run of non-whitespace characters. */
  function WordLength(s: string): (n: nat)
    ensures n <= |s|
    ensures forall i :: 0 <= i < n ==> !IsSpace(s[i])
    ensures n == |s| || IsSpace(s[n])
  {
    if s == [] || IsSpace(s[0]) then 0 else 1 + WordLength(s[1..])
  }

  /** `s.split()`: the maximal runs of non-whitespace characters, in order. */
  function Words(s: string): (ws: seq<string>)
    decreases |s|
  {
    if s == [] then []
    else if IsSpace(s[0]) then Words(s[1..])
    else
      var n := WordLength(s);
      [s[..n]] + Words(s[n..])
  }

  /** `s.strip()`: `s` without leading and trailing whitespace. */
  function Strip(s: string): string {
    StripTrailing(StripLeading(s))
  }

  function StripLeading(s: string): string {
    if s != [] && IsSpace(s[0]) then StripLeading(s[1..]) else s
  }

  function StripTrailing(s: string): string {
    if s != [] && IsSpace(s[|s| - 1]) then StripTrailing(s[..|s| - 1]) else s
  }

  /** `" ".join(ws)`. */
  function Join(ws: seq<string>): string {
    if ws == [] then ""
    else if |ws| == 1 then ws[0]
    else Join(ws[..|ws| - 1]) + " " + ws[|ws| - 1]
  }

  /** The words of a list of groups, in order. */
  function Concat(groups: seq<seq<string>>): seq<string> {
    if groups == [] then [] else groups[0] + Concat(groups[1..])
  }

  /** Each group of words joined into one line. */
  function Lines(groups: seq<seq<string>>): (lines: seq<string>)
    ensures |lines| == |groups|
  {
    seq(|groups|, k requires 0 <= k < |groups| => Join(groups[k]))
  }

  /**
   * The greedy packing that `_wrap`'s loop performs: `cur` is the line
   * being built (as its words), `rest` the words still to place. The next
   * word joins the current line when the line with a single space and
   * that word measures at most `maxPx`; otherwise the current line is
   * closed and the word starts a new one.
   */
  function Pack(cur: seq<string>, rest: seq<string>, measure: string -> nat, maxPx: int): (groups: seq<seq<string>>)
    requires cur != []
    ensures |groups| >= 1
    ensures forall k :: 0 <= k < |groups| ==> groups[k] != []
    decreases |rest|
  {
    if rest == [] then [cur]
    else if measure(Join(cur) + " " + rest[0]) <= maxPx then Pack(cur + [rest[0]], rest[1..], measure, maxPx)
    else [cur] + Pack([rest[0]], rest[1..], measure, maxPx)
  }

  /** A line of two or more words measures at most `maxPx`. */
  predicate FitsOrSingle(g: seq<string>, measure: string -> nat, maxPx: int) {
    |g| == 1 || measure(Join(g)) <= maxPx
  }

  /** Each word after the first was added because the line with it still measured at most `maxPx`. */
  predicate GrewByFitting(g: seq<string>, measure: string -> nat, maxPx: int) {
    forall j :: 1 <= j < |g| ==> measure(Join(g[..j]) + " " + g[j]) <= maxPx
  }

  /** Each line was closed because its successor's first word did not fit after it. */
  predicate BreaksWhenFull(gs: seq<seq<string>>, measure: string -> nat, maxPx: int)
    requires forall k :: 0 <= k < |gs| ==> gs[k] != []
  {
    forall k :: 0 <= k < |gs| - 1 ==> measure(Join(gs[k]) + " " + gs[k + 1][0]) > maxPx
  }

  /** The words of `text`, grouped into the lines `_wrap` produces. */
  function WordGroups(text: string, measure: string -> nat, maxPx: int): seq<seq<string>> {
    var ws := Words(text);
    if ws == [] then [] else Pack([ws[0]], ws[1..], measure, maxPx)
  }

  /** The result of `_wrap(text, font, max_px)`. */
  function Wrapped(text: string, measure: string -> nat, maxPx: int): seq<string> {
    if Words(text) == [] then [""] else Lines(WordGroups(text, measure, maxPx))
  }

  /**
   * `_wrap`: splits `text` on whitespace and fills lines greedily. Blank
   * text gives one empty line; otherwise the lines, joined again with
   * single spaces, give back the words of `text`, and a line wider than
   * `maxPx` is always a single word.
   */
  method Wrap(text: string, measure: string -> nat, maxPx: int) returns (lines: seq<string>)
    ensures lines == Wrapped(text, measure, maxPx)
    ensures |lines| >= 1
    ensures Words(text) == [] <==> lines == [""]
    ensures Join(lines) == Join(Words(text))
    ensures Words(text) != [] ==> forall k :: 0 <= k < |lines| ==> lines[k] in Words(text) || measure(lines[k]) <= maxPx
  {
    var words := Words(text);
    if words == [] {
      lines := [""];
      return;
    }
    lines := [];
    var cur := words[0];
    ghost var curWords := [words[0]];
    ghost var closed: seq<seq<string>> := [];
    for i := 1 to |words|
      invariant curWords != [] && cur == Join(curWords)
      invariant closed + Pack(curWords, words[i..], measure, maxPx) == Pack([words[0]], words[1..], measure, maxPx)
      invariant lines == Lines(closed)
    {
      assert words[i..][0] == words[i] && words[i..][1..] == words[i + 1..];
      if measure(cur + " " + words[i]) <= maxPx {
        assert Join(curWords + [words[i]]) == Join(curWords) + " " + words[i] by {
          assert (curWords + [words[i]])[..|curWords|] == curWords;
        }
        cur := cur + " " + words[i];
        curWords := curWords + [words[i]];
      } else {
        lines := lines + [cur];
        closed := closed + [curWords];
        cur := words[i];
        curWords := [words[i]];
      }
    }
    assert words[|words|..] == [];
    lines := lines + [cur];
    closed := closed + [curWords];
    assert lines == Lines(closed);
    WrappedRejoins(text, measure, maxPx);
    WrappedLinesFit(text, measure, maxPx);
    WordsAreWords(text);
    JoinOfWordsNonEmpty(words);
  }

  // ---------------------------------------------------------------------
  // Properties of splitting and joining
  // ---------------------------------------------------------------------

  /** Every piece `str.split()` returns is a word. */
  lemma {:induction false} WordsAreWords(s: string)
    ensures forall k :: 0 <= k < |Words(s)| ==> IsWord(Words(s)[k])
    decreases |s|
  {
    if s == [] {
    } else if IsSpace(s[0]) {
      WordsAreWords(s[1..]);
    } else {
      var n := WordLength(s);
      WordsAreWords(s[n..]);
    }
  }

  /** `str.split()` finds no word exactly when the string is all whitespace. */
  lemma {:induction false} NoWordsIffBlank(s: string)
    ensures Words(s) == [] <==> IsBlank(s)
    decreases |s|
  {
    if s == [] {
    } else if IsSpace(s[0]) {
      NoWordsIffBlank(s[1..]);
      assert IsBlank(s) <==> IsBlank(s[1..]) by {
        if IsBlank(s[1..]) {
          forall i | 0 <= i < |s| ensures IsSpace(s[i]) {
            if i > 0 { assert s[i] == s[1..][i - 1]; }
          }
        }
      }
    } else {
      assert !IsBlank(s);
    }
  }

  /** Stripping leaves the empty string exactly when the string is all whitespace. */
  lemma {:induction false} StripEmptyIffBlank(s: string)
    ensures Strip(s) == "" <==> IsBlank(s)
  {
    StripLeadingIffBlank(s);
    var t := StripLeading(s);
    if t != [] {
      StripTrailingKeepsFirst(t);
    }
  }

  lemma {:induction false} StripLeadingIffBlank(s: string)
    ensures StripLeading(s) == [] <==> IsBlank(s)
    ensures StripLeading(s) != [] ==> !IsSpace(StripLeading(s)[0])
    decreases |s|
  {
    if s != [] && IsSpace(s[0]) {
      StripLeadingIffBlank(s[1..]);
      assert IsBlank(s) <==> IsBlank(s[1..]) by {
        if IsBlank(s[1..]) {
          forall i | 0 <= i < |s| ensures IsSpace(s[i]) {
            if i > 0 { assert s[i] == s[1..][i - 1]; }
          }
        }
      }
    } else if s != [] {
      assert !IsBlank(s);
    }
  }

  lemma {:induction false} StripTrailingKeepsFirst(t: string)
    requires t != [] && !IsSpace(t[0])
    ensures StripTrailing(t) != [] && StripTrailing(t)[0] == t[0]
    decreases |t|
  {
    if IsSpace(t[|t| - 1]) {
      assert |t| > 1;
      StripTrailingKeepsFirst(t[..|t| - 1]);
    }
  }

  /** Joining a non-empty list of words with a space after a further word. */
  lemma {:induction false} JoinAppend(a: seq<string>, b: seq<string>)
    requires a != [] && b != []
    ensures Join(a + b) == Join(a) + " " + Join(b)
    decreases |b|
  {
    if |b| == 1 {
      assert (a + b)[..|a + b| - 1] == a;
    } else {
      var b' := b[..|b| - 1];
      JoinAppend(a, b');
      assert (a + b)[..|a + b| - 1] == a + b';
    }
  }

  lemma {:induction false} JoinOfWordsNonEmpty(ws: seq<string>)
    requires ws != [] && forall k :: 0 <= k < |ws| ==> ws[k] != []
    ensures Join(ws) != ""
    decreases |ws|
  {
    if |ws| > 1 {
      JoinOfWordsNonEmpty(ws[..|ws| - 1]);
    }
  }

  // ---------------------------------------------------------------------
  // Properties of the greedy packing
  // ---------------------------------------------------------------------

  /** No word is dropped, split or reordered: the groups hold the words in order. */
  lemma {:induction false} PackKeepsWords(cur: seq<string>, rest: seq<string>, measure: string -> nat, maxPx: int)
    requires cur != []
    ensures Concat(Pack(cur, rest, measure, maxPx)) == cur + rest
    decreases |rest|
  {
    if rest == [] {
      assert Concat([cur]) == cur + Concat([]);
    } else if measure(Join(cur) + " " + rest[0]) <= maxPx {
      PackKeepsWords(cur + [rest[0]], rest[1..], measure, maxPx);
      assert cur + [rest[0]] + rest[1..] == cur + rest;
    } else {
      var tail := Pack([rest[0]], rest[1..], measure, maxPx);
      PackKeepsWords([rest[0]], rest[1..], measure, maxPx);
      assert ([cur] + tail)[1..] == tail;
      assert [rest[0]] + rest[1..] == rest;
    }
  }

  /** A group of two or more words fits within `maxPx` once joined. */
  lemma {:induction false} PackGroupsFit(cur: seq<string>, rest: seq<string>, measure: string -> nat, maxPx: int)
    requires cur != []
    requires FitsOrSingle(cur, measure, maxPx)
    ensures forall g :: g in Pack(cur, rest, measure, maxPx) ==> FitsOrSingle(g, measure, maxPx)
    decreases |rest|
  {
    if rest == [] {
    } else if measure(Join(cur) + " " + rest[0]) <= maxPx {
      assert (cur + [rest[0]])[..|cur|] == cur;
      PackGroupsFit(cur + [rest[0]], rest[1..], measure, maxPx);
    } else {
      PackGroupsFit([rest[0]], rest[1..], measure, maxPx);
    }
  }

  /** A line is closed only because its next word would not fit after a space. */
  lemma {:induction false} PackBreaksOnlyWhenFull(cur: seq<string>, rest: seq<string>, measure: string -> nat, maxPx: int)
    requires cur != []
    ensures BreaksWhenFull(Pack(cur, rest, measure, maxPx), measure, maxPx)
    decreases |rest|
  {
    if rest == [] {
    } else if measure(Join(cur) + " " + rest[0]) <= maxPx {
      PackBreaksOnlyWhenFull(cur + [rest[0]], rest[1..], measure, maxPx);
    } else {
      var tail := Pack([rest[0]], rest[1..], measure, maxPx);
      var gs := [cur] + tail;
      PackBreaksOnlyWhenFull([rest[0]], rest[1..], measure, maxPx);
      PackStartsWith([rest[0]], rest[1..], measure, maxPx);
      forall k | 0 <= k < |gs| - 1 ensures measure(Join(gs[k]) + " " + gs[k + 1][0]) > maxPx {
        if k > 0 {
          assert gs[k] == tail[k - 1] && gs[k + 1] == tail[k];
        }
      }
    }
  }

  /** The first line starts with the current line's words. */
  lemma {:induction false} PackStartsWith(cur: seq<string>, rest: seq<string>, measure: string -> nat, maxPx: int)
    requires cur != []
    ensures Pack(cur, rest, measure, maxPx)[0][0] == cur[0]
    decreases |rest|
  {
    if rest != [] && measure(Join(cur) + " " + rest[0]) <= maxPx {
      PackStartsWith(cur + [rest[0]], rest[1..], measure, maxPx);
    }
  }

  /** A word joins a line only because the line with it still fits. */
  lemma {:induction false} PackJoinsOnlyWhenFits(cur: seq<string>, rest: seq<string>, measure: string -> nat, maxPx: int)
    requires cur != []
    requires GrewByFitting(cur, measure, maxPx)
    ensures forall g :: g in Pack(cur, rest, measure, maxPx) ==> GrewByFitting(g, measure, maxPx)
    decreases |rest|
  {
    if rest == [] {
    } else if measure(Join(cur) + " " + rest[0]) <= maxPx {
      var next := cur + [rest[0]];
      forall j | 1 <= j < |next| ensures measure(Join(next[..j]) + " " + next[j]) <= maxPx {
        if j < |cur| {
          assert next[..j] == cur[..j] && next[j] == cur[j];
        } else {
          assert next[..j] == cur;
        }
      }
      PackJoinsOnlyWhenFits(next, rest[1..], measure, maxPx);
    } else {
      PackJoinsOnlyWhenFits([rest[0]], rest[1..], measure, maxPx);
    }
  }

  lemma {:induction false} ConcatHasGroupWords(groups: seq<seq<string>>, k: nat, j: nat)
    requires k < |groups| && j < |groups[k]|
    ensures groups[k][j] in Concat(groups)
    decreases k
  {
    if k > 0 {
      ConcatHasGroupWords(groups[1..], k - 1, j);
    }
  }

  lemma {:induction false} JoinLines(groups: seq<seq<string>>)
    requires groups != [] && forall k :: 0 <= k < |groups| ==> groups[k] != []
    ensures Join(Lines(groups)) == Join(Concat(groups))
    decreases |groups|
  {
    if |groups| == 1 {
      assert Concat(groups) == groups[0] + Concat([]);
      assert Concat(groups) == groups[0];
      assert Lines(groups) == [Join(groups[0])];
    } else {
      var init := groups[..|groups| - 1];
      var last := groups[|groups| - 1];
      assert groups == init + [last];
      JoinLines(init);
      assert Lines(groups) == Lines(init) + [Join(last)];
      assert Lines(groups)[..|Lines(groups)| - 1] == Lines(init);
      ConcatSnoc(init, last);
      ConcatNonEmpty(init);
      JoinAppend(Concat(init), last);
    }
  }

  lemma {:induction false} ConcatSnoc(groups: seq<seq<string>>, g: seq<string>)
    ensures Concat(groups + [g]) == Concat(groups) + g
    decreases |groups|
  {
    if groups == [] {
      assert Concat([g]) == g + Concat([]);
    } else {
      assert (groups + [g])[1..] == groups[1..] + [g];
      ConcatSnoc(groups[1..], g);
    }
  }

  lemma {:induction false} ConcatNonEmpty(groups: seq<seq<string>>)
    requires groups != [] && groups[0] != []
    ensures Concat(groups) != []
  {
  }

  // ---------------------------------------------------------------------
  // Properties of `_wrap`
  // ---------------------------------------------------------------------

  /** The lines of `_wrap`, read back word by word, are the words of the input. */
  lemma WrappedKeepsWords(text: string, measure: string -> nat, maxPx: int)
    ensures Words(text) != [] ==> Concat(WordGroups(text, measure, maxPx)) == Words(text)
  {
    var ws := Words(text);
    if ws != [] {
      PackKeepsWords([ws[0]], ws[1..], measure, maxPx);
      assert [ws[0]] + ws[1..] == ws;
    }
  }

  /** Joining the wrapped lines with single spaces gives the input's words joined with single spaces. */
  lemma WrappedRejoins(text: string, measure: string -> nat, maxPx: int)
    ensures Join(Wrapped(text, measure, maxPx)) == Join(Words(text))
  {
    var ws := Words(text);
    if ws != [] {
      WrappedKeepsWords(text, measure, maxPx);
      JoinLines(WordGroups(text, measure, maxPx));
    }
  }

  /** Every wrapped line is either one of the input's words or fits within `maxPx`. */
  lemma WrappedLinesFit(text: string, measure: string -> nat, maxPx: int)
    requires Words(text) != []
    ensures var lines := Wrapped(text, measure, maxPx);
            forall k :: 0 <= k < |lines| ==> lines[k] in Words(text) || measure(lines[k]) <= maxPx
  {
    var ws := Words(text);
    if ws != [] {
      var gs := WordGroups(text, measure, maxPx);
      PackGroupsFit([ws[0]], ws[1..], measure, maxPx);
      WrappedKeepsWords(text, measure, maxPx);
      forall k | 0 <= k < |gs| ensures Join(gs[k]) in ws || measure(Join(gs[k])) <= maxPx {
        assert FitsOrSingle(gs[k], measure, maxPx);
        if |gs[k]| == 1 {
          ConcatHasGroupWords(gs, k, 0);
        }
      }
    }
  }

  /** The wrapping is greedy: a line is closed only when its next word does
      not fit after it, and a word is appended only when it fits. */
  lemma WrappedIsGreedy(text: string, measure: string -> nat, maxPx: int)
    ensures var gs := WordGroups(text, measure, maxPx);
            && BreaksWhenFull(gs, measure, maxPx)
            && forall g :: g in gs ==> GrewByFitting(g, measure, maxPx)
  {
    var ws := Words(text);
    if ws != [] {
      PackBreaksOnlyWhenFull([ws[0]], ws[1..], measure, maxPx);
      PackJoinsOnlyWhenFits([ws[0]], ws[1..], measure, maxPx);
    }
  }

  /** A non-blank text wraps into as many lines as it has groups, at least one, none of them empty. */
  lemma WrappedNonBlank(text: string, measure: string -> nat, maxPx: int)
    requires !IsBlank(text)
    ensures var lines := Wrapped(text, measure, maxPx);
            |lines| >= 1 && forall k :: 0 <= k < |lines| ==> lines[k] != ""
  {
    NoWordsIffBlank(text);
    var gs := WordGroups(text, measure, maxPx);
    WrappedKeepsWords(text, measure, maxPx);
    WordsAreWords(text);
    forall k | 0 <= k < |gs| ensures Join(gs[k]) != "" {
      forall j | 0 <= j < |gs[k]| ensures gs[k][j] != [] {
        ConcatHasGroupWords(gs, k, j);
      }
      JoinOfWordsNonEmpty(gs[k]);
    }
  }
}
