# Universal ticket printer: the rendering and delivery backend in Dafny

The universal ticket printer is a desktop program that prints receipts on an
80 mm thermal printer. Its backend does four things:

- It lays text out as a receipt of fixed width: greedy word wrapping, then a
  title, an optional timestamp and body lines stacked between margins.
- It can typeset LaTeX instead and centre the typeset page under a header.
- It encodes the image as an ESC/POS `GS v 0` raster command and delivers it.
  Delivery goes to a network printer on port 9100 first, and to an MQTT
  broker when that fails.
- It keeps its settings in a JSON file merged over built-in defaults.

The repository carries the program twice:
`universal_ticket_printer.py` at the top and a copy under `TicketPrinter/`.
The backend logic is the same in both. They differ in these places:

- the LaTeX preamble;
- the language of the messages;
- the length of the log tail in a LaTeX error: 500 characters at the top,
  300 in `TicketPrinter/`;
- the fallback chain when no LaTeX engine is present;
- a missing `pdflatex` executable: the top-level copy raises its own "LaTeX
  (pdflatex) not found…" message, while the other lets `FileNotFoundError`
  through with the operating system's message;
- how `pdflatex` is detected: the top-level copy runs `pdflatex --version`
  and falls back to `shutil.which`, while the other only calls
  `shutil.which`;
- `save_settings` returns whether the write succeeded in one copy and
  nothing in the other.

`Variants.Variant` selects the copy wherever the modelled behaviour
differs. Detection is the `pdflatex` flag of `Latex.Toolchain` in both.

Modules:

- `TextLayout` (`text_layout.dfy`): `_wrap`. Python's `str.split` and
  `str.strip` are modelled over the `str.isspace` characters. The wrapper is
  a method with a loop, proved against the recursive packing function
  `Pack`.
- `Receipt` (`receipt.dfy`): `render_receipt_image`. The canvas is its size
  plus the list of text runs drawn on it. The fonts are measuring functions
  and line heights.
- `EscPos` (`escpos.dfy`): `pil_to_escpos_raster` and the framing
  `send_lan_image` writes. It includes a decoder, the partner of the
  encoder.
- `Dispatch` (`dispatch.dfy`): `send_lan_image`, `send_mqtt_image`,
  `print_master` and `send_manual_cut`. What the socket and the broker do is
  an abstract `Network`.
- `Latex` (`latex.dfy`): the source rule and document of
  `render_with_pdflatex`, and the composition and fallback chain of
  `render_latex_image`. What the toolchain makes of a document is an
  abstract function.
- `Settings` (`settings.dfy`): `load_settings` and `save_settings` as a class
  holding `APP_SETTINGS` and the file.
- `Wrappers` and `Variants`: `Option`, `Result` and the program variant.

Behaviour of the program worth knowing when reading the model:

- Keys in the settings file that are not among the defaults are kept:
  `load_settings` merges the file over the defaults with `dict.update`.
- An all-black 8×8 mode "1" image packs to 0x00 bytes, and these encode as
  0xFF after inversion (`EscPos.AllBlackEightByEight`).
- The prepared LaTeX is always embedded in the fixed preamble, even when it
  already contains `\begin{document}`. Source that has no `\section` or
  `\begin{document}` and no math environment is wrapped in display math
  `\[ … \]`.
- Neither copy retries a failed compile: the first error is reported.
- An encoding overflow, meaning a header field of 65536 or more, raises out
  of `send_lan_image`, which catches only `OSError`. So `print_master`
  raises instead of trying the broker (`Dispatch.PrintMaster`).

## Model

| member | source | states |
|---|---|---|
| TextLayout.Wrap | universal_ticket_printer.py:211-223 | The greedy loop returns the lines of the specification function `Wrapped`. Blank text gives exactly `[""]`, and only blank text does. Otherwise the lines rejoined with single spaces equal the whitespace-split words rejoined with single spaces. Every line is a single word or measures at most `maxPx`. |
| TextLayout.WrappedRejoins | TicketPrinter/universal_ticket_printer.py:157-169 | Joining the wrapped lines with single spaces gives the input's words joined with single spaces: no word is split, dropped or reordered. |
| TextLayout.WrappedKeepsWords | universal_ticket_printer.py:212-222 | For non-blank text the line groups, concatenated, are exactly the split words in order. |
| TextLayout.WrappedLinesFit | universal_ticket_printer.py:216-221 | For non-blank text every line is one of the words or fits within `maxPx`. |
| TextLayout.WrappedIsGreedy | universal_ticket_printer.py:216-221 | A line is closed only when appending the next word would exceed `maxPx`. Each word joined its line only because the line with it still fitted. |
| TextLayout.WrappedNonBlank | TicketPrinter/universal_ticket_printer.py:158-169 | Non-blank text gives at least one line, and no line is empty. |
| TextLayout.NoWordsIffBlank | universal_ticket_printer.py:212-213 | `split()` returns no words exactly when the text is empty or all whitespace. |
| TextLayout.StripEmptyIffBlank | universal_ticket_printer.py:243 | `strip()` gives the empty string exactly when the text is blank, so a blank title adds no title lines. |
| TextLayout.WordsAreWords | universal_ticket_printer.py:212 | Every word `split()` returns is non-empty and contains no whitespace. |
| TextLayout.PackKeepsWords | universal_ticket_printer.py:214-222 | The packing loop's groups concatenate to the current line's words followed by the remaining words. |
| TextLayout.PackGroupsFit | TicketPrinter/universal_ticket_printer.py:162-167 | If the current line fits or is a single word, every group produced does too. |
| TextLayout.PackBreaksOnlyWhenFull | universal_ticket_printer.py:217-221 | Between consecutive groups, the first word of the next group would not have fitted on the previous line. |
| TextLayout.PackJoinsOnlyWhenFits | TicketPrinter/universal_ticket_printer.py:163-164 | Every word after the first in a group was added when the line with it still measured at most `maxPx`. |
| Receipt.WrapBody | universal_ticket_printer.py:245-247 | Each body line is wrapped on its own and the results are concatenated in order. At least one line is produced per input line. |
| Receipt.RenderReceipt | universal_ticket_printer.py:240-278 | The canvas is 576 wide. Its height is max(28 + title lines·title height + 10 if any title line + timestamp height if requested + body lines·body height + 40, 100). It holds the title lines, then the timestamp, then the body lines, in their fonts, stacked without overlap. Title line k is at y = 28 + k·title height; the timestamp is at 28 + title lines·title height, plus 10 if any title line; body line k is at that position plus the timestamp height if requested, plus k·body height. Every run starts at x = 18 and ends at least 40 px above the bottom. |
| Receipt.Layout | universal_ticket_printer.py:258-278 | For already wrapped title and body lines: the same canvas size, texts, fonts, margins and per-line y positions as `RenderReceipt`. |
| Receipt.MeasureHeight | universal_ticket_printer.py:258-263 | The step-by-step height accumulation equals the content height, that is 28 + title block with its 10 px gap + timestamp + body + 40, floored at 100. |
| Receipt.DrawHeader | TicketPrinter/universal_ticket_printer.py:213-220 | The title lines are drawn in the title font, line k at y = 28 + k·title height. Then comes the 10 px gap if any title line, then the timestamp in the time font at 28 + title lines·title height (+ 10). The cursor ends below the timestamp, where the body starts. |
| Receipt.DrawLines | TicketPrinter/universal_ticket_printer.py:213-223 | The drawing loop appends one run per line after the existing runs, which it leaves unchanged. Line k is at start + k·height in its font. The cursor ends at start + lines·height, with every run above it and stacked. |
| EscPos.EncodeRaster | universal_ticket_printer.py:473-482 | The loop builds `1D 76 30 00`, then ceil(w/8) and h as little-endian 16-bit fields, then every data byte inverted, in order. The length is 8 + data length. It fails with an overflow exactly when a field does not fit in 16 bits. |
| EscPos.ParseRasterOfRaster | TicketPrinter/universal_ticket_printer.py:367-376 | Decoding an encoded raster gives back the width in bytes, the height and the original data bytes. |
| EscPos.RasterOfParseRaster | universal_ticket_printer.py:476-482 | Every byte string the decoder accepts is the encoding of the bitmap it describes. |
| EscPos.InvertedTwice | universal_ticket_printer.py:479-481 | Inverting every byte twice restores the data. |
| EscPos.LittleEndianRoundTrip | universal_ticket_printer.py:477 | `n.to_bytes(2, 'little')` read back little-endian is `n` for every n below 65536. |
| EscPos.HeaderMatchesPayload | TicketPrinter/universal_ticket_printer.py:370-376 | For a well-formed bitmap, the data following the header is exactly width-in-bytes × height bytes long. |
| EscPos.ParseLanStreamOfLanStream | universal_ticket_printer.py:489-490 | The stream `1B 40` + raster + four `0A` + optional `1D 56 00` can be split back into the raster and the cut flag. |
| EscPos.LanStreamEndsWithCutIffCut | TicketPrinter/universal_ticket_printer.py:383-384 | The stream is 6 bytes longer than the raster, plus 3 when cutting. It ends with `1D 56 00` exactly when a cut was requested. |
| EscPos.AllBlackEightByEight | universal_ticket_printer.py:473-482 | An 8×8 image with all packed bits clear encodes to `1D 76 30 00 01 00 08 00` followed by eight `FF` bytes. |
| Dispatch.SendLanImage | universal_ticket_printer.py:484-495 | No connection is attempted exactly when the printer address is empty. The connection fails exactly when it is set and the printer cannot be reached. The encoding overflow escapes exactly when the printer was reached and a header field does not fit. Delivery happens exactly when every step succeeds. The stream, written to the configured address on port 9100, is the framed raster with the cut flag. |
| Dispatch.Publish | TicketPrinter/universal_ticket_printer.py:391-429 | The broker is skipped exactly when the host is empty; with a host set, no client is made exactly when paho-mqtt is missing. A publication happens exactly when the host is set, the client library is present and the broker accepts. It goes to the configured host, port, TLS setting and topic with a 30 s keep-alive and QoS 2, with the user and password as credentials exactly when a user is set. |
| Dispatch.TransportOf | universal_ticket_printer.py:485-528 | Each transport setting is read with its `.get` fallback: no printer address, no broker host, port 8883, no user, no password, topic "Prn20B1B50C2199" and TLS on when the key is absent. A stored text (or, for the port, number) is used as it is, and a stored `mqtt_use_tls` by its Python truthiness. |
| Dispatch.LoadedTransportDefaults | universal_ticket_printer.py:51-81 | After `load_settings`, a transport key the file does not hold reads as its built-in default, which agrees with the `.get` fallback of the dispatcher. |
| Dispatch.SendMqttImage | universal_ticket_printer.py:497-535 | The image is published exactly when the host is set, paho-mqtt is present and the broker accepts. The payload is a "png" ticket carrying the base64 image, `cut_paper` 1 exactly when cutting, and a ticket id of "desk-" and the time stamp. |
| Dispatch.PrintMaster | universal_ticket_printer.py:561-568 | The network printer is tried first. "OK (LAN)" when it delivered, and the broker is then not tried. "OK (Cloud)" exactly when the printer failed and the broker published. "Failed (Check Settings)" exactly when neither delivered and no overflow was raised. An encoding overflow raises without trying the broker. |
| Dispatch.NothingConfiguredFails | TicketPrinter/universal_ticket_printer.py:458-465 | With empty printer address and empty broker host, the result is "Failed (Check Settings)" and neither transport opens a connection. |
| Dispatch.UnreachablePrinterFallsBackToCloud | universal_ticket_printer.py:484-535 | When the printer connection fails and the broker works, the result is "OK (Cloud)". The published message goes to the configured topic with QoS 2 and carries the image payload. |
| Dispatch.DeliveredStreamIsFramedRaster | universal_ticket_printer.py:484-495 | Whatever reached the printer is the framed raster of the image. It decodes back to the image's width in bytes, height and data, and to the cut flag. |
| Dispatch.ImagePayloadFields | universal_ticket_printer.py:520-526 | The image payload has `cut_paper` 1 exactly when cutting, else 0. Its ticket id is "desk-" followed by the decimal time stamp, which reads back as that stamp. |
| Dispatch.DecimalRoundTrip | TicketPrinter/universal_ticket_printer.py:416 | The decimal text of the stamp in the ticket id parses back to the stamp. |
| Dispatch.SendManualCut | universal_ticket_printer.py:537-559 | The 1×1 image is sent to the network printer with a cut first, and this never raises. Only when the printer does not take it is a cut-only command published. The result is true exactly when one of the two delivered. |
| Dispatch.ManualCutWithoutHostFails | universal_ticket_printer.py:537-541 | When the printer is not reached and the broker host is empty, the cut reports failure without creating a client. |
| Dispatch.ManualCutStream | TicketPrinter/universal_ticket_printer.py:431-433 | The cut command's stream is `1B 40 1D 76 30 00 01 00 01 00 FF 0A 0A 0A 0A 1D 56 00`. |
| Latex.PrepareSource | universal_ticket_printer.py:304-308 | A source with `\begin{document}` or `\section` is unchanged. Otherwise it is unchanged if it has `\begin{tikzpicture}`, `$$` or `\[`, and becomes `\[ src \]` exactly when it has none of them. The result always counts as a full document or as having a math environment. |
| Latex.PrepareSourceIdempotent | TicketPrinter/universal_ticket_printer.py:233-237 | Preparing an already prepared source changes nothing. |
| Latex.PrepareSourceKeepsSource | universal_ticket_printer.py:305-308 | The user's source occurs unchanged inside the prepared content. |
| Latex.TexDocumentHoldsContent | universal_ticket_printer.py:310-345 | The generated document is the variant's fixed preamble, the content and `\end{document}`. The content can be read back from between them. |
| Latex.CompileErrorReportsLogTail | TicketPrinter/universal_ticket_printer.py:273-281 | A compile error's message starts with the variant's reason. It continues with a suffix of the log no longer than the variant's tail length, 500 or 300 characters. |
| Latex.Compose | universal_ticket_printer.py:398-426 | The canvas is 576 wide. A page wider than 540 is narrowed to 540 at its resized height; otherwise it keeps its size. The header holds the title, unwrapped, in the title font when it is non-empty, then the timestamp in the time font when requested. Both start at x = 18; the first header line is at y = 28 and the timestamp at 78 after a title, and each sits in its 50 or 30 px slot above the image. The image is pasted below a header of 28 + 50 with a title + 30 with a timestamp, and the canvas ends 40 below it. The image lies between the side margins, centred to within one pixel. |
| Latex.RenderWithPdflatex | universal_ticket_printer.py:298-390 | The result is a page exactly when the toolchain produced one, with that page's size. A missing compiler gives the root copy's own message or the operating system's message. A compile error gives the reason and the log tail. An empty conversion gives the variant's "no image" message, and any other failure passes its message on. |
| Latex.RenderLatexImage | TicketPrinter/universal_ticket_printer.py:296-336 | With pdf2image and pdflatex present it composes exactly when typesetting succeeded. Any typesetting failure becomes a one-line error receipt with the variant's error title, whose line is a prefix of the failure's message of at most 300 characters. With both tools present it never raises. Otherwise it uses the plotting fallback when matplotlib is present, else a fixed error receipt. |
| Latex.TypesetFailureReceipt | universal_ticket_printer.py:429-433 | Every typesetting failure, whatever its kind, gives the error receipt with the variant's title and the first min(length, 300) characters of the failure's message. |
| Latex.TypesetPageIsComposed | universal_ticket_printer.py:397-427 | With both tools present, a typeset page always yields its composition, whatever the title and timestamp. |
| Latex.CompileErrorReceipt | TicketPrinter/universal_ticket_printer.py:329-331 | A compile error yields an error receipt with the variant's title. Its one line is the first min(length, 300) characters of the error message and starts with the reason. |
| Latex.LongLogEndNotShown | universal_ticket_printer.py:374 | For a log at least as long as the tail, the receipt shows the reason and only the first 273 (root) or 268 (other copy) characters of the tail. The last characters of the log never appear on the receipt. |
| Settings.Loaded | universal_ticket_printer.py:69-81 | The loaded settings have every default key plus every key of a readable file. A stored value wins over the default, and a key the file lacks keeps its default. |
| Settings.SettingsStore.Load | TicketPrinter/universal_ticket_printer.py:76-88 | `APP_SETTINGS` becomes the defaults updated with the readable file, and the file is unchanged. Every default key is present afterwards. A file holding every default key is loaded back exactly. |
| Settings.SettingsStore.Save | universal_ticket_printer.py:83-105 | `APP_SETTINGS` is updated with the given keys, other keys unchanged, even when the write fails. The file then holds the whole dictionary if writable and is unchanged otherwise. The root copy returns whether the write succeeded; the other copy returns nothing. No key is lost. |
| Settings.SaveThenLoad | TicketPrinter/universal_ticket_printer.py:90-97 | Loading a file written from settings that hold every default key gives those settings back exactly. |
| Settings.LoadSaveLoad | universal_ticket_printer.py:69-89 | Saving loaded settings and loading them again is the identity. |

## Left out

- Pixels are not modelled: fonts, text drawing, dithering, trimming and LANCZOS resizing. Fonts are measuring functions with line heights, and a typeset page is its size.
- The line height `int((ascent + descent) * 1.15)` and the resized height `int(h * 540 / w)` are floating-point. They are given as natural-number inputs.
- `render_matplotlib_fallback` and `render_composed_image` are not modelled beyond being chosen by the fallback chain. Their markup substitution and height estimate are text and float drawing for a plotting library.
- `Latex.RenderLatexImage`: errors raised inside the plotting fallback are not modelled. The fallback is called outside the `try` in both copies, so such an error leaves `render_latex_image`; `PlotFallback` only records that the fallback was chosen.
- `Latex.RenderWithPdflatex`: the temporary directory, running pdflatex, reading `ticket.log` and converting the PDF are the abstract `typeset` function. The "pdf2image missing" errors inside `render_with_pdflatex` cannot be reached from `render_latex_image`, which checks for pdf2image first.
- `Latex.RenderLatexImage`: exceptions raised by the composition itself (resizing, pasting) are not modelled. Only toolchain errors become error receipts.
- Sockets, the MQTT client, PNG and base64 encoding, and JSON serialisation are not modelled. `Network` says which steps succeed, and the base64 image is an input string.
- `Dispatch.SendMqttImage`: `tls_set` and `username_pw_set` run outside the `try`, so an exception there escapes; the model treats every broker failure as a `False` result. The random client id is not modelled.
- `Dispatch.TransportOf`: `Transport` holds the settings as strings, a number and a flag. A stored value of another JSON kind than the key expects, say a number as `printer_ip`, is read as the fallback, whereas the program passes it on as is. The truthiness of `mqtt_use_tls` counts floats, lists and objects as true.
- The `text or ""` case of `_wrap`, where the text is `None`, is not modelled, since the model's text is always a string.
- `EscPos.Invert`: bytes are integers 0..255, and `~b & 0xFF` is stated as 255 - b. The bit-level identity is explained in a comment, not proved.
- `Settings.SettingsStore.Save`: the file is either fully written or untouched. Partial writes, JSON values that cannot be serialised, and a file whose top-level value is not an object are not modelled. Nor is the text format: indentation, and ASCII escaping in one copy.
- The permission-denied message box in the root `save_settings` is not modelled.
- The GUI, the background-task threads, the update check and installer, and the administrator checks are left out. They are presentation, concurrency, HTTP and OS glue.
- The two test files exercise helper functions that exist in neither copy of the program. Nothing in them corresponds to code in either copy of the program.
