/**
 * The LaTeX path of the renderer: `render_with_pdflatex` prepares the
 * source and embeds it in a fixed document, the external toolchain
 * typesets it, and `render_latex_image` composes the typeset image under
 * an optional title and timestamp, or falls back to an error receipt or to
 * the plotting renderer.
 *
 * The two program variants differ in their preamble, their messages, the
 * length of the log tail they report, and in the fallback chain; `Variant`
 * selects between them. The toolchain (pdflatex, pdf2image, trimming and
 * resizing) is not modelled: what it produces from a document is the
 * parameter `typeset`.
 */
module Latex {
  import opened Wrappers
  import opened Variants
  import Receipt

  // ---------------------------------------------------------------------
  // Source preparation
  // ---------------------------------------------------------------------

  /** `pat` occurs in `s` starting at index `i`. */
  predicate OccursAt(s: string, pat: string, i: int) {
    0 <= i <= |s| - |pat| && s[i..i + |pat|] == pat
  }

  /** Python's `pat in s`. */
  predicate Contains(s: string, pat: string) {
    exists i :: 0 <= i <= |s| - |pat| && OccursAt(s, pat, i)
  }

  const BeginDocument: string := @"\begin{document}"
  const SectionCommand: string := @"\section"
  const BeginTikz: string := @"\begin{tikzpicture}"
  const DisplayDollars: string := "$$"
  const OpenDisplayMath: string := @"\["
  const CloseDisplayMath: string := @"\]"

  /** The source already looks like document body text: it has a document body marker or a section. */
  predicate IsFullDocument(src: string) {
    Contains(src, BeginDocument) || Contains(src, SectionCommand)
  }

  /** The source already sets its own math or drawing environment. */
  predicate HasMathEnvironment(src: string) {
    Contains(src, BeginTikz) || Contains(src, DisplayDollars) || Contains(src, OpenDisplayMath)
  }

  /** `\[ src \]`: the source as one displayed formula. */
  function DisplayMath(src: string): string {
    OpenDisplayMath + " " + src + " " + CloseDisplayMath
  }

  /**
   * The content `render_with_pdflatex` embeds: the source itself when it is
   * a full document or sets its own environment, otherwise the source as
   * displayed math.
   */
  function PrepareSource(src: string): (content: string)
    ensures content == src || content == DisplayMath(src)
    ensures content != src <==> !IsFullDocument(src) && !HasMathEnvironment(src)
    ensures IsFullDocument(content) || HasMathEnvironment(content)
  {
    if IsFullDocument(src) || HasMathEnvironment(src) then src
    else
      ContainsPrefix(OpenDisplayMath, " " + src + " " + CloseDisplayMath);
      assert DisplayMath(src) == OpenDisplayMath + (" " + src + " " + CloseDisplayMath);
      assert DisplayMath(src) != src;
      DisplayMath(src)
  }

  lemma ContainsPrefix(pat: string, rest: string)
    ensures Contains(pat + rest, pat)
  {
    assert OccursAt(pat + rest, pat, 0);
  }

  lemma {:induction false} ContainsInMiddle(s: string, pat: string, before: string, after: string)
    requires Contains(s, pat)
    ensures Contains(before + s + after, pat)
  {
    var i :| 0 <= i <= |s| - |pat| && OccursAt(s, pat, i);
    var t := before + s + after;
    assert t[|before| + i..|before| + i + |pat|] == s[i..i + |pat|];
    assert OccursAt(t, pat, |before| + i);
  }

  /** Preparing prepared content changes nothing more. */
  lemma PrepareSourceIdempotent(src: string)
    ensures PrepareSource(PrepareSource(src)) == PrepareSource(src)
  {
  }

  /** The user's source always survives, character for character, inside the prepared content. */
  lemma PrepareSourceKeepsSource(src: string)
    ensures Contains(PrepareSource(src), src)
  {
    assert OccursAt(src, src, 0);
    if PrepareSource(src) != src {
      ContainsInMiddle(src, src, OpenDisplayMath + " ", " " + CloseDisplayMath);
      assert OpenDisplayMath + " " + src + " " + CloseDisplayMath
          == (OpenDisplayMath + " ") + src + (" " + CloseDisplayMath);
    }
  }

  // ---------------------------------------------------------------------
  // The generated document
  // ---------------------------------------------------------------------

  /** Everything of the generated document before the content: the class, the packages, an
      80 mm wide and 2000 mm tall page, a sans-serif default font, and the document start. */
  function Preamble(v: Variant): string {
    match v
    case RootModule => RootPreamble
    case TicketPrinterModule => TicketPrinterPreamble
  }

  const RootPreamble: string := @"
\documentclass[11pt]{article}
\usepackage[utf8]{inputenc}
\usepackage[T1]{fontenc}
\usepackage[ngerman]{babel}
\usepackage{amsmath}
\usepackage{amssymb}
\usepackage{amsfonts}
\usepackage{mathtools}
\usepackage{physics}
\usepackage{siunitx}
\usepackage{bm}
\usepackage{upgreek}
\usepackage{pifont}
\usepackage{graphicx}
\usepackage{enumitem}
\usepackage{geometry}
\usepackage{tikz}          
\usepackage{pgfplots}
\usepackage{circuitikz} 
\usepackage{chemfig}     
\usepackage{listings}    
\usepackage{xcolor}      
\usepackage{booktabs}    
\usepackage{tabularx}    
\usepackage{eurosym}     
\usetikzlibrary{patterns,decorations.pathmorphing,decorations.markings,calc}
\pgfplotsset{compat=1.18}
\geometry{paperwidth=80mm, paperheight=2000mm, left=2mm, right=2mm, top=2mm, bottom=2mm}
\renewcommand{\familydefault}{\sfdefault}
\setlength{\parindent}{0pt}
\setlength{\parskip}{0.5em}
\begin{document}
"

  const TicketPrinterPreamble: string := @"
\documentclass[11pt]{article}
\usepackage[utf8]{inputenc}
\usepackage[T1]{fontenc}
\usepackage[ngerman]{babel}
\usepackage{amsmath}
\usepackage{amssymb}
\usepackage{amsfonts}
\usepackage{graphicx}
\usepackage{enumitem}
\usepackage{geometry}
\usepackage{tikz}          
\usepackage{pgfplots}      
\pgfplotsset{compat=1.18}
\geometry{paperwidth=80mm, paperheight=2000mm, left=2mm, right=2mm, top=2mm, bottom=2mm}
\renewcommand{\familydefault}{\sfdefault}
\setlength{\parindent}{0pt}
\setlength{\parskip}{0.5em}
\begin{document}
"

  const EndDocument: string := "\n" + @"\end{document}" + "\n"

  /** The text written to `ticket.tex`: the preamble, the content, and the document end. */
  function TexDocument(v: Variant, content: string): string {
    Preamble(v) + content + EndDocument
  }

  /** The content can be read back from the document: it sits between the fixed preamble and end. */
  lemma TexDocumentHoldsContent(v: Variant, content: string)
    ensures var d := TexDocument(v, content);
            && |d| == |Preamble(v)| + |content| + |EndDocument|
            && d[..|Preamble(v)|] == Preamble(v)
            && d[|Preamble(v)|..|d| - |EndDocument|] == content
            && d[|d| - |EndDocument|..] == EndDocument
  {
  }

  // ---------------------------------------------------------------------
  // Typesetting and its error messages
  // ---------------------------------------------------------------------

  /** Python's `s[-n:]`: the last `n` characters, or all of `s` when it is shorter. */
  function Tail(s: string, n: nat): (t: string)
    ensures |t| == if |s| <= n then |s| else n
    ensures s == s[..|s| - |t|] + t
  {
    if |s| <= n then s else s[|s| - n..]
  }

  /** Python's `s[:n]`: the first `n` characters, or all of `s` when it is shorter. */
  function Head(s: string, n: nat): (h: string)
    ensures |h| == if |s| <= n then |s| else n
    ensures s == h + s[|h|..]
    ensures h <= s
  {
    if |s| <= n then s else s[..n]
  }

  /** How many characters of the compiler log a compile error reports. */
  function LogTailLength(v: Variant): nat {
    match v
    case RootModule => 500
    case TicketPrinterModule => 300
  }

  function CompileErrorPrefix(v: Variant): string {
    match v
    case RootModule => "LaTeX Error. Check syntax.\n"
    case TicketPrinterModule => "LaTeX Fehler. Prüfe die Syntax.\n"
  }

  /** What is reported when no `ticket.log` could be read. */
  function MissingLog(v: Variant): string {
    match v
    case RootModule => "No log found."
    case TicketPrinterModule => "Kein Log gefunden."
  }

  /** The message of the error raised when pdflatex exits with an error. */
  function CompileErrorMessage(v: Variant, log: Option<string>): string {
    CompileErrorPrefix(v) + Tail(if log.Some? then log.value else MissingLog(v), LogTailLength(v))
  }

  /** What the external toolchain makes of a generated document. */
  datatype ToolRun =
    | CompilerMissing(osMessage: string)   // starting pdflatex raised FileNotFoundError
    | CompileError(log: Option<string>)    // pdflatex exited with an error; the log, if one was written
    | NoPages                              // the PDF converted to no page images
    | Page(width: nat, height: nat, heightAtMaxWidth: nat)
                                           // the trimmed first page, and its height once resized
                                           // to the usable width (a floating-point ratio)
    | ToolFailed(message: string)          // any other exception, by its message

  /** The size of the trimmed page image `render_with_pdflatex` returns, or the message of what it raised. */
  function RenderWithPdflatex(v: Variant, src: string, typeset: string -> ToolRun): (r: Result<(nat, nat, nat), string>)
    ensures var run := typeset(TexDocument(v, PrepareSource(src)));
            && (r.Success? <==> run.Page?)
            && (run.Page? ==> r.value == (run.width, run.height, run.heightAtMaxWidth))
            && (run.CompilerMissing? ==> r.error == (if v.RootModule? then CompilerMissingMessage else run.osMessage))
            && (run.CompileError? ==> r.error == CompileErrorMessage(v, run.log))
            && (run.NoPages? ==> r.error == NoPagesMessage(v))
            && (run.ToolFailed? ==> r.error == run.message)
  {
    match typeset(TexDocument(v, PrepareSource(src)))
    case CompilerMissing(osMessage) =>
      Failure(if v.RootModule? then CompilerMissingMessage else osMessage)
    case CompileError(log) => Failure(CompileErrorMessage(v, log))
    case NoPages => Failure(NoPagesMessage(v))
    case Page(w, h, hMax) => Success((w, h, hMax))
    case ToolFailed(message) => Failure(message)
  }

  /** The root copy's own message when pdflatex cannot be started; the other copy passes the operating system's message on. */
  const CompilerMissingMessage: string := "LaTeX (pdflatex) not found. Please install MiKTeX or TeX Live."

  /** The message when the PDF converts to no page image. */
  function NoPagesMessage(v: Variant): string {
    match v
    case RootModule => "Could not convert PDF to image."
    case TicketPrinterModule => "PDF konnte nicht in Bild gewandelt werden."
  }

  /** A compile error reports the reason, then the end of the log, bounded by the variant's tail length. */
  lemma CompileErrorReportsLogTail(v: Variant, log: string)
    ensures var m := CompileErrorMessage(v, Some(log));
            && m[..|CompileErrorPrefix(v)|] == CompileErrorPrefix(v)
            && |m| <= |CompileErrorPrefix(v)| + LogTailLength(v)
            && log == log[..|log| - (|m| - |CompileErrorPrefix(v)|)] + m[|CompileErrorPrefix(v)|..]
  {
    var t := Tail(log, LogTailLength(v));
    assert CompileErrorMessage(v, Some(log))[|CompileErrorPrefix(v)|..] == t;
  }

  // ---------------------------------------------------------------------
  // Composition
  // ---------------------------------------------------------------------

  const PrintWidth: nat := Receipt.PrintWidth
  const MarginTop: nat := Receipt.MarginTop
  const MarginBottom: nat := Receipt.MarginBottom
  const MarginLeft: nat := Receipt.MarginLeft
  const MarginRight: nat := Receipt.MarginRight
  /** The widest image that is placed without resizing (540). */
  const MaxImageWidth: nat := PrintWidth - MarginLeft - MarginRight
  /** Vertical space reserved for the title line and for the timestamp line. */
  const TitleSpace: nat := 50
  const TimeSpace: nat := 30

  /** The final canvas: its size, the title and timestamp drawn above the image, and where the image is pasted at what size. */
  datatype Composition = Composition(width: nat, height: nat, header: seq<Receipt.TextRun>,
                                     imageX: int, imageY: nat, imageWidth: nat, imageHeight: nat)

  /**
   * The layout `render_latex_image` builds around a typeset page of `w` by
   * `h` pixels, where `hMax` is the page's height once resized to the usable
   * width: the page is narrowed to the usable width when wider, placed
   * below the header, centred, and followed by the bottom margin. The
   * header is the title, unwrapped, in the title font and the timestamp
   * `now` in the time font, each in its own fixed slot.
   */
  function Compose(w: nat, h: nat, hMax: nat, title: string, addDt: bool, now: string): (c: Composition)
    ensures c.width == PrintWidth
    ensures c.imageWidth <= MaxImageWidth
    ensures w <= MaxImageWidth ==> c.imageWidth == w && c.imageHeight == h
    ensures w > MaxImageWidth ==> c.imageWidth == MaxImageWidth && c.imageHeight == hMax
    ensures Receipt.Texts(c.header) == (if title != "" then [title] else []) + (if addDt then [now] else [])
    ensures Receipt.Roles(c.header) == (if title != "" then [Receipt.TitleRole] else [])
                                       + (if addDt then [Receipt.TimeRole] else [])
    // the first header line is drawn at the top margin, the timestamp one title slot lower when there is a title
    ensures forall k :: 0 <= k < |c.header| ==> c.header[k].x == MarginLeft && c.header[k].y == MarginTop + k * TitleSpace
    ensures forall k :: 0 <= k < |c.header| ==>
              c.header[k].y + (if c.header[k].role == Receipt.TitleRole then TitleSpace else TimeSpace) <= c.imageY
    ensures c.imageY == MarginTop + (if title != "" then TitleSpace else 0) + (if addDt then TimeSpace else 0)
    ensures c.height == c.imageY + c.imageHeight + MarginBottom
    ensures MarginLeft <= c.imageX && c.imageX + c.imageWidth <= PrintWidth - MarginRight
    ensures 0 <= (PrintWidth - (c.imageX + c.imageWidth)) - c.imageX <= 1
  {
    var imgW := if w > MaxImageWidth then MaxImageWidth else w;
    var imgH := if w > MaxImageWidth then hMax else h;
    var titleRuns := if title != "" then [Receipt.TextRun(Receipt.TitleRole, MarginLeft, MarginTop, title)] else [];
    var timeY := MarginTop + (if title != "" then TitleSpace else 0);
    var timeRuns := if addDt then [Receipt.TextRun(Receipt.TimeRole, MarginLeft, timeY, now)] else [];
    var headerH := timeY + (if addDt then TimeSpace else 0);
    Composition(PrintWidth, headerH + imgH + MarginBottom, titleRuns + timeRuns,
                (PrintWidth - imgW) / 2, headerH, imgW, imgH)
  }

  // ---------------------------------------------------------------------
  // The fallback chain
  // ---------------------------------------------------------------------

  /** Which optional tools are installed: pdf2image, pdflatex and matplotlib. */
  datatype Toolchain = Toolchain(pdf2image: bool, pdflatex: bool, matplotlib: bool)

  /** What `render_latex_image` returns, by the renderer that produced it. */
  datatype LatexImage =
    | Composed(layout: Composition)
    | ErrorReceipt(title: string, body: seq<string>)   // render_receipt_image(title, body, False)
    | PlotFallback(src: string, title: string, addDt: bool)
                                                       // render_matplotlib_fallback(src, title, add_dt)

  /** The longest error message an error receipt shows. */
  const ErrorMessageLimit: nat := 300

  function ErrorTitle(v: Variant): string {
    match v
    case RootModule => "LaTeX Error"
    case TicketPrinterModule => "LaTeX Fehler"
  }

  function NoEngineMessage(v: Variant): string {
    match v
    case RootModule => "No LaTeX Engine & no Matplotlib found."
    case TicketPrinterModule => "Keine LaTeX Engine gefunden."
  }

  /**
   * `render_latex_image(src, title, add_dt)`: typeset and compose when both
   * pdf2image and pdflatex are present, turning any error into an error
   * receipt; otherwise the plotting renderer when matplotlib is present;
   * otherwise a fixed error receipt. `now` is the formatted current time.
   * With both tools present it never raises; what the plotting renderer
   * may raise is outside this model.
   */
  function RenderLatexImage(v: Variant, src: string, title: string, addDt: bool, now: string,
                            tools: Toolchain, typeset: string -> ToolRun): (r: LatexImage)
    ensures tools.pdf2image && tools.pdflatex ==> !r.PlotFallback?
    ensures !(tools.pdf2image && tools.pdflatex) ==>
              r == (if tools.matplotlib then PlotFallback(src, title, addDt)
                    else ErrorReceipt("Error", [NoEngineMessage(v)]))
    ensures r.ErrorReceipt? ==> |r.body| == 1 && |r.body[0]| <= ErrorMessageLimit
    ensures tools.pdf2image && tools.pdflatex ==>
              var t := RenderWithPdflatex(v, src, typeset);
              && (t.Success? <==> r.Composed?)
              && (t.Failure? ==> r.ErrorReceipt? && r.title == ErrorTitle(v)
                                 && r.body[0] <= t.error)
    ensures r.Composed? ==>
              (r.layout.width == PrintWidth
               && r.layout.height == r.layout.imageY + r.layout.imageHeight + MarginBottom)
  {
    if tools.pdf2image && tools.pdflatex then
      var t := RenderWithPdflatex(v, src, typeset);
      if t.Success? then Composed(Compose(t.value.0, t.value.1, t.value.2, title, addDt, now))
      else ErrorReceipt(ErrorTitle(v), [Head(t.error, ErrorMessageLimit)])
    else if tools.matplotlib then PlotFallback(src, title, addDt)
    else ErrorReceipt("Error", [NoEngineMessage(v)])
  }

  /**
   * Any typesetting failure shows as an error receipt titled for the
   * variant whose one line is the start of the failure's message, cut to
   * 300 characters.
   */
  lemma TypesetFailureReceipt(v: Variant, src: string, title: string, addDt: bool, now: string,
                              tools: Toolchain, typeset: string -> ToolRun)
    requires tools.pdf2image && tools.pdflatex
    requires RenderWithPdflatex(v, src, typeset).Failure?
    ensures var r := RenderLatexImage(v, src, title, addDt, now, tools, typeset);
            var m := RenderWithPdflatex(v, src, typeset).error;
            && r == ErrorReceipt(ErrorTitle(v), [Head(m, ErrorMessageLimit)])
            && |r.body[0]| == (if |m| <= ErrorMessageLimit then |m| else ErrorMessageLimit)
            && m == r.body[0] + m[|r.body[0]|..]
  {
  }

  /** A compile error shows as an error receipt titled for the variant whose one line is the
      start of the error message, the reason and then the log tail, cut to 300 characters. */
  lemma CompileErrorReceipt(v: Variant, src: string, title: string, addDt: bool, now: string,
                            tools: Toolchain, typeset: string -> ToolRun)
    requires tools.pdf2image && tools.pdflatex
    requires typeset(TexDocument(v, PrepareSource(src))).CompileError?
    ensures var r := RenderLatexImage(v, src, title, addDt, now, tools, typeset);
            var m := CompileErrorMessage(v, typeset(TexDocument(v, PrepareSource(src))).log);
            && r.ErrorReceipt? && r.title == ErrorTitle(v) && |r.body| == 1
            && |r.body[0]| == (if |m| <= ErrorMessageLimit then |m| else ErrorMessageLimit)
            && m == r.body[0] + m[|r.body[0]|..]
            && r.body[0][..|CompileErrorPrefix(v)|] == CompileErrorPrefix(v)
  {
    var m := CompileErrorMessage(v, typeset(TexDocument(v, PrepareSource(src))).log);
    PrefixFitsLimit(v);
    assert Head(m, ErrorMessageLimit)[..|CompileErrorPrefix(v)|] == m[..|CompileErrorPrefix(v)|];
  }

  lemma PrefixFitsLimit(v: Variant)
    ensures |CompileErrorPrefix(v)| < ErrorMessageLimit
  {
    match v
    case RootModule => assert |CompileErrorPrefix(v)| == 27;
    case TicketPrinterModule => assert |CompileErrorPrefix(v)| == 32;
  }

  /**
   * The two limits do not agree: the message carries the last 500 (or 300)
   * characters of a long log, but the receipt keeps only its first 300
   * characters, so the final characters of the log never reach the
   * receipt. Shown here for the end of a long log.
   */
  lemma LongLogEndNotShown(v: Variant, src: string, title: string, addDt: bool, now: string,
                           tools: Toolchain, typeset: string -> ToolRun, log: string)
    requires tools.pdf2image && tools.pdflatex
    requires typeset(TexDocument(v, PrepareSource(src))) == CompileError(Some(log))
    requires |log| >= LogTailLength(v)
    ensures var r := RenderLatexImage(v, src, title, addDt, now, tools, typeset);
            var shown := ErrorMessageLimit - |CompileErrorPrefix(v)|;
            && 0 < shown < LogTailLength(v)
            && r.body == [CompileErrorPrefix(v) + log[|log| - LogTailLength(v)..|log| - LogTailLength(v) + shown]]
  {
    var n := LogTailLength(v);
    var p := CompileErrorPrefix(v);
    assert CompileErrorMessage(v, Some(log)) == p + Tail(log, n);
    PrefixFitsLimit(v);
    assert n > ErrorMessageLimit - |p| by {
      if v.RootModule? { assert n == 500; } else { assert |p| == 32; }
    }
    HeadOfPrefixAndTail(p, log, n, ErrorMessageLimit);
  }

  /** Cutting `p + log[-n:]` to `limit` characters keeps `p` and the start of the tail. */
  lemma HeadOfPrefixAndTail(p: string, log: string, n: nat, limit: nat)
    requires |p| < limit && limit - |p| < n <= |log|
    ensures Head(p + Tail(log, n), limit) == p + log[|log| - n..|log| - n + (limit - |p|)]
  {
    var t := Tail(log, n);
    assert t == log[|log| - n..];
    assert (p + t)[..limit] == p + t[..limit - |p|];
  }

  /** With both typesetting tools present, a page always gives a composition of the page, whatever the title. */
  lemma TypesetPageIsComposed(v: Variant, src: string, title: string, addDt: bool, now: string,
                              tools: Toolchain, typeset: string -> ToolRun, w: nat, h: nat, hMax: nat)
    requires tools.pdf2image && tools.pdflatex
    requires typeset(TexDocument(v, PrepareSource(src))) == Page(w, h, hMax)
    ensures RenderLatexImage(v, src, title, addDt, now, tools, typeset) == Composed(Compose(w, h, hMax, title, addDt, now))
  {
  }
}
