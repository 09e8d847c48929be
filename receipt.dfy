/**
 * The receipt rasteriser `render_receipt_image`: the title, an optional
 * timestamp line and the body are wrapped and stacked top to bottom on a
 * canvas of fixed width between fixed margins.
 *
 * Pixels are not modelled. The canvas is its size and the list of text
 * runs drawn on it (font role, position, text). The fonts are their
 * measuring functions and their line heights.
 */
module Receipt {
  import opened TextLayout

  const PrintWidth: nat := 576
  const MarginTop: nat := 28
  const MarginBottom: nat := 40
  const MarginLeft: nat := 18
  const MarginRight: nat := 18
  /** Extra space below the title block. */
  const TitleGap: nat := 10
  /** Canvases are never shorter than this. */
  const MinHeight: nat := 100
  /** The usable width both title and body are wrapped to (540). */
  const MaxTextWidth: int := PrintWidth - MarginLeft - MarginRight

  datatype Role = TitleRole | TextRole | TimeRole

  /**
   * The three fonts, as the renderer uses them: the pixel width of a string
   * in the title and the body font, and each font's line height, which the
   * source computes as int((ascent + descent) * 1.15).
   */
  datatype Fonts = Fonts(titleWidth: string -> nat, textWidth: string -> nat,
                         titleHeight: nat, textHeight: nat, timeHeight: nat)

  function LineHeight(f: Fonts, r: Role): nat {
    match r
    case TitleRole => f.titleHeight
    case TextRole => f.textHeight
    case TimeRole => f.timeHeight
  }

  /** One `draw.text` call: a string drawn in a font with its top-left corner at (x, y). */
  datatype TextRun = TextRun(role: Role, x: int, y: int, text: string)

  datatype Canvas = Canvas(width: nat, height: nat, runs: seq<TextRun>)

  function Texts(runs: seq<TextRun>): (ts: seq<string>)
    ensures |ts| == |runs|
  {
    seq(|runs|, k requires 0 <= k < |runs| => runs[k].text)
  }

  function Roles(runs: seq<TextRun>): (rs: seq<Role>)
    ensures |rs| == |runs|
  {
    seq(|runs|, k requires 0 <= k < |runs| => runs[k].role)
  }

  function Repeat(r: Role, n: nat): (rs: seq<Role>)
    ensures |rs| == n
  {
    seq(n, _ => r)
  }

  /** The wrapped title lines: none when the title is empty or blank. */
  function TitleLines(title: string, f: Fonts): seq<string> {
    if Strip(title) == "" then [] else Wrapped(Strip(title), f.titleWidth, MaxTextWidth)
  }

  /** The body lines, each wrapped on its own, in order. */
  function BodyLines(body: seq<string>, f: Fonts): seq<string> {
    if body == [] then []
    else BodyLines(body[..|body| - 1], f) + Wrapped(body[|body| - 1], f.textWidth, MaxTextWidth)
  }

  /** The height the content needs: top margin, title block and gap, timestamp, body, bottom margin. */
  function ContentHeight(titleCount: nat, addDt: bool, bodyCount: nat, f: Fonts): nat {
    MarginTop
    + (if titleCount > 0 then titleCount * f.titleHeight + TitleGap else 0)
    + (if addDt then f.timeHeight else 0)
    + bodyCount * f.textHeight
    + MarginBottom
  }

  /** Where the timestamp line is drawn: below the title lines and the gap after them. */
  function TimeTop(titleCount: nat, f: Fonts): int {
    MarginTop + (if titleCount > 0 then titleCount * f.titleHeight + TitleGap else 0)
  }

  /** Where the first body line is drawn: below the title block and the timestamp. */
  function BodyTop(titleCount: nat, addDt: bool, f: Fonts): int {
    TimeTop(titleCount, f) + (if addDt then f.timeHeight else 0)
  }

  function Max(a: int, b: int): int {
    if a >= b then a else b
  }

  /** Every run starts at the left margin, below the top margin, and ends at or above `bottom`. */
  predicate DrawnAbove(runs: seq<TextRun>, f: Fonts, bottom: int) {
    forall k :: 0 <= k < |runs| ==>
      runs[k].x == MarginLeft && MarginTop <= runs[k].y && runs[k].y + LineHeight(f, runs[k].role) <= bottom
  }

  /** Every run lies inside the canvas, above its bottom margin. */
  predicate InsideMargins(runs: seq<TextRun>, f: Fonts, height: int) {
    DrawnAbove(runs, f, height - MarginBottom)
  }

  /** Runs are drawn top to bottom, each below the full line height of the one before. */
  predicate Stacked(runs: seq<TextRun>, f: Fonts) {
    forall k :: 0 <= k < |runs| - 1 ==> runs[k].y + LineHeight(f, runs[k].role) <= runs[k + 1].y
  }

  /** The `count` runs from index `start` are drawn one line height `h` apart, the first at `top`. */
  predicate LinesAt(runs: seq<TextRun>, start: nat, count: nat, top: int, h: int) {
    start + count <= |runs| && forall k :: 0 <= k < count ==> runs[start + k].y == top + k * h
  }

  /** The loop that wraps each body line and extends the body with the result. */
  method WrapBody(body: seq<string>, f: Fonts) returns (lines: seq<string>)
    ensures lines == BodyLines(body, f)
    ensures |lines| >= |body|
  {
    lines := [];
    for i := 0 to |body|
      invariant lines == BodyLines(body[..i], f)
      invariant |lines| >= i
    {
      var wrapped := Wrap(body[i], f.textWidth, MaxTextWidth);
      assert body[..i + 1][..i] == body[..i];
      lines := lines + wrapped;
    }
    assert body[..|body|] == body;
  }

  /**
   * `render_receipt_image(title, body_lines, add_dt)`, with `now` the
   * formatted current time. The canvas is 576 wide and as tall as its
   * content, but at least 100; it holds the title lines, the timestamp and
   * the body lines in that order, stacked without overlap, all inside the
   * margins.
   */
  method RenderReceipt(title: string, body: seq<string>, addDt: bool, now: string, f: Fonts) returns (c: Canvas)
    ensures c.width == PrintWidth
    ensures c.height == Max(ContentHeight(|TitleLines(title, f)|, addDt, |BodyLines(body, f)|, f), MinHeight)
    ensures Texts(c.runs) == TitleLines(title, f) + (if addDt then [now] else []) + BodyLines(body, f)
    ensures Roles(c.runs) == Repeat(TitleRole, |TitleLines(title, f)|) + (if addDt then [TimeRole] else [])
                             + Repeat(TextRole, |BodyLines(body, f)|)
    ensures InsideMargins(c.runs, f, c.height)
    ensures Stacked(c.runs, f)
    ensures var titles := |TitleLines(title, f)|;
            && LinesAt(c.runs, 0, titles, MarginTop, f.titleHeight)
            && (addDt ==> c.runs[titles].y == TimeTop(titles, f))
            && LinesAt(c.runs, titles + (if addDt then 1 else 0), |BodyLines(body, f)|,
                       BodyTop(titles, addDt, f), f.textHeight)
  {
    var titleLines: seq<string> := [];
    var stripped := Strip(title);
    if stripped != "" {
      titleLines := Wrap(stripped, f.titleWidth, MaxTextWidth);
    }
    var bodyLines := WrapBody(body, f);
    c := Layout(titleLines, bodyLines, addDt, now, f);
  }

  /**
   * The canvas for already wrapped title and body lines: its height from
   * the line counts, then the title lines, the timestamp and the body lines
   * drawn top to bottom.
   */
  method Layout(titleLines: seq<string>, bodyLines: seq<string>, addDt: bool, now: string, f: Fonts) returns (c: Canvas)
    ensures c.width == PrintWidth
    ensures c.height == Max(ContentHeight(|titleLines|, addDt, |bodyLines|, f), MinHeight)
    ensures Texts(c.runs) == titleLines + (if addDt then [now] else []) + bodyLines
    ensures Roles(c.runs) == Repeat(TitleRole, |titleLines|) + (if addDt then [TimeRole] else [])
                             + Repeat(TextRole, |bodyLines|)
    ensures InsideMargins(c.runs, f, c.height)
    ensures Stacked(c.runs, f)
    ensures LinesAt(c.runs, 0, |titleLines|, MarginTop, f.titleHeight)
    ensures addDt ==> c.runs[|titleLines|].y == TimeTop(|titleLines|, f)
    ensures LinesAt(c.runs, |titleLines| + (if addDt then 1 else 0), |bodyLines|,
                    BodyTop(|titleLines|, addDt, f), f.textHeight)
  {
    var h := MeasureHeight(|titleLines|, addDt, |bodyLines|, f);
    var header, y := DrawHeader(titleLines, addDt, now, f);
    var runs, bottom := DrawLines(header, y, bodyLines, TextRole, f);
    assert bottom + MarginBottom == ContentHeight(|titleLines|, addDt, |bodyLines|, f);
    DrawnAboveMonotonic(runs, f, bottom, h - MarginBottom);
    LinesAtExtend(header, runs, 0, |titleLines|, MarginTop, f.titleHeight);
    c := Canvas(PrintWidth, h, runs);
  }

  /** The height accumulated from the line counts: the content height, floored at the minimum. */
  method MeasureHeight(titleCount: nat, addDt: bool, bodyCount: nat, f: Fonts) returns (h: int)
    ensures h == Max(ContentHeight(titleCount, addDt, bodyCount, f), MinHeight)
  {
    h := MarginTop;
    if titleCount > 0 {
      h := h + titleCount * f.titleHeight + TitleGap;
    }
    if addDt {
      h := h + f.timeHeight;
    }
    if bodyCount > 0 {
      h := h + bodyCount * f.textHeight;
    }
    h := h + MarginBottom;
    h := Max(h, MinHeight);
  }

  /**
   * The title lines in the title font, the gap below them, and the
   * timestamp line: the cursor ends where the body starts, which is the
   * content height less the body and the bottom margin.
   */
  method DrawHeader(titleLines: seq<string>, addDt: bool, now: string, f: Fonts)
    returns (runs: seq<TextRun>, y: int)
    ensures y == BodyTop(|titleLines|, addDt, f)
    ensures Texts(runs) == titleLines + (if addDt then [now] else [])
    ensures Roles(runs) == Repeat(TitleRole, |titleLines|) + (if addDt then [TimeRole] else [])
    ensures LinesAt(runs, 0, |titleLines|, MarginTop, f.titleHeight)
    ensures addDt ==> runs[|titleLines|].y == TimeTop(|titleLines|, f)
    ensures MarginTop <= y && DrawnAbove(runs, f, y) && Stacked(runs, f)
  {
    runs, y := DrawLines([], MarginTop, titleLines, TitleRole, f);
    if |titleLines| > 0 {
      y := y + TitleGap;
    }
    if addDt {
      AppendRun(runs, f, y, TimeRole, now);
      var titles := runs;
      runs := runs + [TextRun(TimeRole, MarginLeft, y, now)];
      LinesAtExtend(titles, runs, 0, |titleLines|, MarginTop, f.titleHeight);
      y := y + f.timeHeight;
    }
  }

  /**
   * The drawing loop shared by the title and the body: each line is drawn
   * at the cursor `y` in the given font, and the cursor moves down by the
   * font's line height.
   */
  method DrawLines(runs: seq<TextRun>, y: int, lines: seq<string>, role: Role, f: Fonts)
    returns (runs': seq<TextRun>, y': int)
    requires MarginTop <= y
    requires DrawnAbove(runs, f, y) && Stacked(runs, f)
    ensures y' == y + |lines| * LineHeight(f, role)
    ensures Texts(runs') == Texts(runs) + lines
    ensures Roles(runs') == Roles(runs) + Repeat(role, |lines|)
    ensures DrawnAbove(runs', f, y') && Stacked(runs', f)
    ensures |runs'| == |runs| + |lines| && runs'[..|runs|] == runs
    ensures LinesAt(runs', |runs|, |lines|, y, LineHeight(f, role))
  {
    runs', y' := runs, y;
    for i := 0 to |lines|
      invariant y' == y + i * LineHeight(f, role) && MarginTop <= y'
      invariant Texts(runs') == Texts(runs) + lines[..i]
      invariant Roles(runs') == Roles(runs) + Repeat(role, i)
      invariant DrawnAbove(runs', f, y') && Stacked(runs', f)
      invariant |runs'| == |runs| + i && runs'[..|runs|] == runs
      invariant LinesAt(runs', |runs|, i, y, LineHeight(f, role))
    {
      var run := TextRun(role, MarginLeft, y', lines[i]);
      DrawStep(runs, runs', y, i, lines, role, f);
      runs' := runs' + [run];
      y' := y' + LineHeight(f, role);
    }
    assert lines[..|lines|] == lines;
  }

  /** One turn of the drawing loop keeps every one of its invariants. */
  lemma DrawStep(runs: seq<TextRun>, runs': seq<TextRun>, y: int, i: nat, lines: seq<string>, role: Role, f: Fonts)
    requires i < |lines|
    requires MarginTop <= y + i * LineHeight(f, role)
    requires Texts(runs') == Texts(runs) + lines[..i]
    requires Roles(runs') == Roles(runs) + Repeat(role, i)
    requires DrawnAbove(runs', f, y + i * LineHeight(f, role)) && Stacked(runs', f)
    requires |runs'| == |runs| + i && runs'[..|runs|] == runs
    requires LinesAt(runs', |runs|, i, y, LineHeight(f, role))
    ensures var y' := y + i * LineHeight(f, role);
            var next := runs' + [TextRun(role, MarginLeft, y', lines[i])];
            && Texts(next) == Texts(runs) + lines[..i + 1]
            && Roles(next) == Roles(runs) + Repeat(role, i + 1)
            && DrawnAbove(next, f, y + (i + 1) * LineHeight(f, role)) && Stacked(next, f)
            && |next| == |runs| + i + 1 && next[..|runs|] == runs
            && LinesAt(next, |runs|, i + 1, y, LineHeight(f, role))
  {
    var y' := y + i * LineHeight(f, role);
    var run := TextRun(role, MarginLeft, y', lines[i]);
    AppendRun(runs', f, y', role, lines[i]);
    assert y' + LineHeight(f, role) == y + (i + 1) * LineHeight(f, role);
    assert lines[..i + 1] == lines[..i] + [lines[i]];
    assert Repeat(role, i + 1) == Repeat(role, i) + [role];
    LinesAtSnoc(runs', |runs|, i, y, LineHeight(f, role), run);
    assert (runs' + [run])[..|runs|] == runs'[..|runs|];
  }

  /** Drawing one more line at the cursor keeps the runs inside the margins and stacked. */
  lemma AppendRun(runs: seq<TextRun>, f: Fonts, y: int, role: Role, text: string)
    requires MarginTop <= y && DrawnAbove(runs, f, y) && Stacked(runs, f)
    ensures var runs' := runs + [TextRun(role, MarginLeft, y, text)];
            && Texts(runs') == Texts(runs) + [text]
            && Roles(runs') == Roles(runs) + [role]
            && DrawnAbove(runs', f, y + LineHeight(f, role)) && Stacked(runs', f)
  {
    var runs' := runs + [TextRun(role, MarginLeft, y, text)];
    forall k | 0 <= k < |runs'| - 1
      ensures runs'[k].y + LineHeight(f, runs'[k].role) <= runs'[k + 1].y
    {
      assert runs'[k] == runs[k];
    }
  }

  lemma DrawnAboveMonotonic(runs: seq<TextRun>, f: Fonts, bottom: int, bottom': int)
    requires DrawnAbove(runs, f, bottom) && bottom <= bottom'
    ensures DrawnAbove(runs, f, bottom')
  {
  }

  /** One more run drawn one line height below the last keeps the lines evenly spaced. */
  lemma LinesAtSnoc(runs: seq<TextRun>, start: nat, count: nat, top: int, h: int, r: TextRun)
    requires LinesAt(runs, start, count, top, h) && start + count == |runs|
    requires r.y == top + count * h
    ensures LinesAt(runs + [r], start, count + 1, top, h)
  {
    var runs' := runs + [r];
    forall k | 0 <= k < count + 1 ensures runs'[start + k].y == top + k * h {
      if k < count {
        assert runs'[start + k] == runs[start + k];
      }
    }
  }

  /** Runs drawn later do not move the runs drawn before them. */
  lemma LinesAtExtend(runs: seq<TextRun>, runs': seq<TextRun>, start: nat, count: nat, top: int, h: int)
    requires LinesAt(runs, start, count, top, h)
    requires |runs| <= |runs'| && runs'[..|runs|] == runs
    ensures LinesAt(runs', start, count, top, h)
  {
    forall k | 0 <= k < count ensures runs'[start + k].y == top + k * h {
      assert runs'[start + k] == runs'[..|runs|][start + k];
    }
  }
}
