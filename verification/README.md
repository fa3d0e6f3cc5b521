# Box-net dieline generator and print templates: a Dafny model

This project models three parts of a small print-shop tool set.

- **The box-net generator** (`generator.py`, module `BoxNet`).
  - `_derived_vars` turns the box parameters into a symbol table: length L, width B, height H, corner radius R and material thickness ep.
  - `_segment_list` resolves a template of `(kind, x0, y0, x1, y1)` entries against that table. It drops every segment whose two endpoints are `math.isclose` on both axes.
  - `svg_bytes_from_params` sizes the canvas as the largest coordinate plus a 20 mm margin. It routes each segment to the CUT or the FOLD layer.
- **The legacy-listing converter** (`build_segments_from_cs.py`, module `LegacyListing`).
  - It reads a CAD listing line by line and strips each line.
  - It buffers the `x0/x1/y0/y1 = expr;` assignments.
  - On each `AddSegment((ltCut|ltFold), …)` line it emits one tuple of expression texts and clears the buffer.
- **The print-template layout** (`cards.py`, `create_template`, module `CardTemplate`). It covers:
  - the language fallback;
  - the page, cut, safe and text-frame rectangles;
  - the logo scale, size and placement;
  - the piecewise font scaling;
  - the 300-DPI pixel sizes.

Shared pieces:
- `Outcomes` holds `Option` and a failure-compatible `Result`. A Python exception becomes an `Err` value.
- `Reals` holds `Min`, `Max` and `Abs` on reals, as Python's `min`, `max` and `abs` compute them.
- `Seqs` holds two generic operations. `Filter` is order-preserving selection. `Traverse` maps over a sequence and stops at the first failure.

Each loop of the modelled core is a method whose postcondition ties its result to a specification function. The properties are proved about those functions:
- `BoxNet.BuildSegmentList` models the loop of `_segment_list`.
- `BoxNet.RouteLayers` models the layer loop.
- `LegacyListing.ParseListing` models the listing loop.
- `CardTemplate.SizeLogo` and `CardTemplate.ScaleFonts` model the reassigned locals of `create_template`.

The `mm` unit is reportlab's 72/25.4 points. All arithmetic is on unbounded reals.

## Model

| member | source | states |
|---|---|---|
| BoxNet.DerivedVars | generator.py:13-38 | Every local is pinned down: the aliases H2 = H, Ep = ep, R1 = R; the constants V1 = 12, V2 = 3, Pdp = 30; V = ep−0.45 and V3 = ep+0.5; the panel sizes by their formulas. The offsets reduce to closed forms: P1x = R+2ep, P2y = ep+1.25, P3x = P2x+R+2ep, P3y = P1y+ep+1.25. P1y is the larger of the two panel-stack heights. |
| BoxNet.VarMap | generator.py:38 | The dictionary of locals has exactly the 27 local names as keys. |
| BoxNet.FormulaOverLocalsFindsItsNames | generator.py:38-55 | A formula that reads only names of the dictionary of locals can raise ZeroDivisionError but never KeyError, whatever the box parameters. |
| BoxNet.Apply | generator.py:52-55 | An operation fails iff it is a division by zero, and then with ZeroDivisionError. |
| BoxNet.Eval | generator.py:52-55 | A formula raises only KeyError or ZeroDivisionError. |
| BoxNet.EvalCoord | generator.py:52-55 | A coordinate that is not callable is taken as it is, whatever the table. A callable one raises only KeyError or ZeroDivisionError. |
| BoxNet.LidStackIsTaller | generator.py:33-36 | For every thickness above -1.25 mm the branch takes the first stack. P1y is then 2R+2H+L+6ep+33.5. |
| BoxNet.EvalFailsOnlyOnMissingNames | generator.py:52-55 | A formula raises KeyError only for a name it reads that the derived table lacks. It never raises KeyError when the table holds every name it reads. |
| BoxNet.EvalReadsOnlyItsNames | generator.py:52-55 | A formula's value depends only on the table entries it names. |
| BoxNet.EvalSpec | generator.py:51-55 | A resolved entry keeps its kind. |
| BoxNet.IsClose | generator.py:57 | Equal values are close. |
| BoxNet.Kept | generator.py:57-58 | A segment whose endpoints coincide is dropped. |
| BoxNet.IsCloseFacts | generator.py:57-58 | isclose with rel_tol 1e-9 and abs_tol 0 is reflexive and symmetric. Only zero is close to zero. Distinct close values share a sign and are non-zero. |
| BoxNet.SegmentList | generator.py:50-59 | The list has no more segments than the template has entries. |
| BoxNet.ResolveStep | generator.py:51-55 | Resolving entry i after a successful prefix either fails the whole list with that entry's error or extends the resolved prefix by the entry's segment. |
| BoxNet.BuildSegmentList | generator.py:50-59 | The loop returns the resolved template without its degenerate entries, or the first error raised while resolving. |
| BoxNet.SegmentListKeepsWhatIsNotDegenerate | generator.py:50-59 | The output has no more segments than the template. Each output segment is a resolved entry with that entry's kind. No output segment has coinciding endpoints. An entry is kept iff its x or its y endpoints are not close. |
| BoxNet.SegmentListConcat | generator.py:50-59 | Template order is kept: the output for two consecutive template parts is the output of the first part followed by that of the second. |
| BoxNet.ConstantTemplatePassesThrough | generator.py:52-55 | A template made only of constants resolves, whatever the table, to its own numbers, entry by entry. |
| BoxNet.MaxCoord | generator.py:66-67 | The maximum bounds every endpoint on its axis and is attained by one of them. |
| BoxNet.Canvas | generator.py:66-67 | The canvas fails (max of an empty sequence) iff no segment is kept. Every endpoint lies at least 20 mm inside the canvas. On each axis one endpoint lies exactly 20 mm inside. |
| BoxNet.Layout | generator.py:66-77 | Laying out fails (the maximum of an empty sequence) iff there is no segment. |
| BoxNet.DrawingOf | generator.py:61-77 | When the template resolves but every segment has zero length, the drawing raises the empty-maximum error. |
| BoxNet.RouteLayers | generator.py:74-77 | The loop puts the CUT-kind segments, in order, in the CUT layer and every other segment, in order, in the FOLD layer. |
| BoxNet.LayoutPartitionsSegments | generator.py:66-77 | The drawing fails iff nothing is kept. Otherwise the two layers together hold every kept segment exactly once, the CUT layer only CUT kinds and the FOLD layer only other kinds. Every endpoint in a layer lies inside the canvas less its margin. |
| BoxNet.SvgFromParams | generator.py:61-77 | The whole pipeline yields the canvas size and the two layers the composition of derivation, resolution and layout defines, or its error. |
| Seqs.Filter | generator.py:57-58 | Selection never lengthens a sequence. |
| Seqs.FilterMembers | generator.py:57-58 | An element is selected iff it is in the input and satisfies the predicate. |
| Seqs.FilterSnoc | generator.py:57-58 | One more iteration appends the new element exactly when it satisfies the predicate. |
| Seqs.FilterConcat | generator.py:50-58 | Selection commutes with concatenation, so selected elements keep their input order. |
| Seqs.FilterPartition | generator.py:74-77 | Selecting by a predicate and by its negation splits the input: lengths add up and the multisets add up to the input's. |
| Seqs.Traverse | generator.py:50-55 | A successful resolution has one result per entry. |
| Seqs.TraverseSnoc | generator.py:51-55 | One more entry either keeps an earlier error, raises its own error, or appends its resolved value. |
| Seqs.TraverseEntrywise | generator.py:51-55 | The i-th result is the i-th entry resolved. A failure is the error of the first entry that fails, and every entry before it resolves. |
| Seqs.TraverseErrorPersists | generator.py:51-55 | Once an entry fails, the whole template fails with that error. |
| Seqs.TraverseSucceeds | generator.py:51-55 | When every entry resolves, the template resolves. |
| Seqs.TraverseConcat | generator.py:50-55 | Resolving two consecutive template parts gives the results of the first followed by those of the second. |
| LegacyListing.LeadingSpaces | build_segments_from_cs.py:19 | The leading whitespace run lies within the line. |
| LegacyListing.TrailingSpaces | build_segments_from_cs.py:19 | The trailing whitespace run lies within the line. |
| LegacyListing.LeadingSpacesAreSpaces | build_segments_from_cs.py:19 | The leading run is all whitespace and maximal. |
| LegacyListing.TrailingSpacesAreSpaces | build_segments_from_cs.py:19 | The trailing run is all whitespace and maximal. |
| LegacyListing.Strip | build_segments_from_cs.py:19 | Stripping never lengthens a line. |
| LegacyListing.StripRemovesSurroundingWhitespace | build_segments_from_cs.py:19 | The stripped line is a contiguous slice after the leading whitespace. Everything after it is whitespace. It neither starts nor ends with whitespace. |
| LegacyListing.Capture | build_segments_from_cs.py:20 | A captured expression is never empty. |
| LegacyListing.DotRun | build_segments_from_cs.py:20 | `.` runs up to the first newline and no further. |
| LegacyListing.LastSemicolon | build_segments_from_cs.py:20 | Finds the last semicolon in a range, or reports that the range has none. |
| LegacyListing.CaptureFrom | build_segments_from_cs.py:20 | A captured expression is non-empty and has no newline. |
| LegacyListing.MatchAssign | build_segments_from_cs.py:20-23 | A match is anchored at the line start: the letter, then the digit 0 or 1. |
| LegacyListing.CaptureFromWithoutSemicolon | build_segments_from_cs.py:20 | Without a semicolon there is no match. |
| LegacyListing.DotRunReachesEnd | build_segments_from_cs.py:20 | On a newline-free line, `.` reaches the end. |
| LegacyListing.LastSemicolonIsUnique | build_segments_from_cs.py:20 | A semicolon with none after it is the last one. |
| LegacyListing.CaptureFromFindsLast | build_segments_from_cs.py:20 | The greedy group ends just before the last semicolon when it can be non-empty there. |
| LegacyListing.CaptureFromBacktracks | build_segments_from_cs.py:20 | When the last semicolon directly follows the start, the match backtracks one character into the whitespace, or fails at the line start. |
| LegacyListing.CaptureAfterSpaces | build_segments_from_cs.py:20 | The captured expression is the text after the skipped whitespace up to the last semicolon. |
| LegacyListing.CaptureBacktracksIntoSpaces | build_segments_from_cs.py:20 | When only whitespace precedes the last semicolon, the capture is the one whitespace character before it, or nothing. |
| LegacyListing.CaptureIsTextUpToLastSemicolon | build_segments_from_cs.py:20 | For every newline-free text the capture is fully determined by the last semicolon and the leading whitespace, in both cases above, and is absent without a semicolon. |
| LegacyListing.ContainsIsSubstring | build_segments_from_cs.py:24 | The test `'AddSegment' in line` holds iff the word occurs at some position of the line. |
| LegacyListing.WordRun | build_segments_from_cs.py:25 | The maximal run of word characters. |
| LegacyListing.KindTagFrom | build_segments_from_cs.py:25 | A found tag starts with `lt` followed by at least one word character. |
| LegacyListing.TagMatchIsTheScannedTag | build_segments_from_cs.py:25 | Where `\((lt\w+),` matches, its group is the maximal word run after `(lt` that the scan takes. |
| LegacyListing.ScannedTagMatches | build_segments_from_cs.py:25 | Where the scan's test succeeds, the pattern matches with the scanned tag. |
| LegacyListing.KindTagFromIsLeftmostMatch | build_segments_from_cs.py:25 | From a start position on, a found tag is the group of the leftmost match, and no tag means no match anywhere from there. |
| LegacyListing.KindTagIsLeftmostMatch | build_segments_from_cs.py:25 | `re.search` yields the group of the leftmost match in the line, and nothing iff the pattern matches nowhere. |
| LegacyListing.KindOf | build_segments_from_cs.py:15 | Only `ltCut` and `ltFold` are mapped: `ltCut` exactly to CUT and `ltFold` exactly to FOLD. |
| LegacyListing.Lex | build_segments_from_cs.py:19-24 | An assignment line assigns one of x0, y0, x1, y1 a non-empty expression. |
| LegacyListing.LexClassifiesLine | build_segments_from_cs.py:19-24 | The x pattern is tried first, then the y pattern, then the AddSegment test. An AddSegment line carries the first `(lt…,` tag of the stripped line. |
| LegacyListing.AssignmentPatternsExclusive | build_segments_from_cs.py:20-23 | No line matches both the x and the y pattern. |
| LegacyListing.Emitted | build_segments_from_cs.py:26-28 | A tuple is emitted iff all four coordinates are buffered. It then holds them in order x0, y0, x1, y1. Otherwise the error names a missing key. |
| LegacyListing.SegmentFor | build_segments_from_cs.py:24-28 | An AddSegment line succeeds iff it has a tag, the tag is in `kind_map`, and all coordinates are buffered. A missing tag and an unknown tag are distinct errors. |
| LegacyListing.Step | build_segments_from_cs.py:19-29 | An assignment overwrites its key and emits nothing. An unmatched line changes nothing. A successful AddSegment appends exactly one tuple and leaves the buffer empty. |
| LegacyListing.Lexed | build_segments_from_cs.py:18 | One token per line. |
| LegacyListing.LexedEntrywise | build_segments_from_cs.py:18-19 | The token of line i is the classification of line i alone. |
| LegacyListing.Run | build_segments_from_cs.py:18-29 | A successful run emits at most one tuple per line. |
| LegacyListing.Parse | build_segments_from_cs.py:18-29 | The written list has at most one tuple per line of the listing. |
| LegacyListing.RunSnoc | build_segments_from_cs.py:18-29 | One more line is one more step, after an earlier failure nothing more happens. |
| LegacyListing.LexedSnoc | build_segments_from_cs.py:18 | The tokens of one more line are the earlier tokens plus its own. |
| LegacyListing.LexedPrefix | build_segments_from_cs.py:18 | The tokens of a prefix of the lines are a prefix of the tokens. |
| LegacyListing.RunErrorPersists | build_segments_from_cs.py:18-29 | Once a line fails, the script stops with that error. |
| LegacyListing.ParseErrorPersists | build_segments_from_cs.py:18-29 | Once a line fails, the whole listing fails with that error. |
| LegacyListing.ParseSnoc | build_segments_from_cs.py:18-29 | Reading one more line is one step on the state so far. |
| LegacyListing.ParseListing | build_segments_from_cs.py:15-29 | The loop over the lines produces exactly the tuples the step-by-step definition gives, or its first error. |
| LegacyListing.EmitsOnePerLineInOrder | build_segments_from_cs.py:24-29 | There is one tuple per AddSegment line. The tuples of the first j lines are the first tuples of the output, so tuples come out in line order. |
| LegacyListing.LexedAssignsCoords | build_segments_from_cs.py:20-23 | The lines only ever assign the four buffer keys. |
| LegacyListing.BufferHoldsLatestAssignments | build_segments_from_cs.py:20-29 | The buffer holds exactly the keys assigned since the last AddSegment line, each with its latest expression. |
| LegacyListing.AddSegmentUsesLatestAssignments | build_segments_from_cs.py:20-29 | An AddSegment line succeeds iff its tag is `ltCut` or `ltFold` and all four coordinates were assigned since the previous AddSegment. It then appends the mapped kind and the latest expressions and empties the buffer. |
| LegacyListing.UnmatchedLineChangesNothing | build_segments_from_cs.py:19-24 | A line matching none of the three patterns leaves the result unchanged. |
| CardTemplate.MMIsInchOver25_4 | cards.py:87-98 | The `mm` unit the layout uses is 72/25.4 points and positive. |
| CardTemplate.TranslationsArePolishAndEnglish | cards.py:15-36 | The translations exist for PL and EN only. |
| CardTemplate.UpperChar | cards.py:79 | Lower-case ASCII letters are shifted to upper case and everything else is kept. |
| CardTemplate.Upper | cards.py:79 | Upper-casing works character by character and keeps the length. |
| CardTemplate.UpperIdempotent | cards.py:79 | Upper-casing twice is upper-casing once. |
| CardTemplate.SelectLanguage | cards.py:79-81 | The chosen tag is always a translation key: the upper-cased tag when it is one, EN otherwise. |
| CardTemplate.SelectLanguageIsCaseInsensitive | cards.py:79-81 | PL is chosen iff the tag is pl in any case; EN is chosen in every other case; upper-casing the input changes nothing. |
| CardTemplate.ChooseLanguage | cards.py:79-81 | The reassigned `lang` local is the selected tag. |
| CardTemplate.GeometryOf | cards.py:87-98 | The page starts at the origin. The cut rectangle is inset by the 3 mm bleed on every side, and the safe area by 4 mm from the cut (7 mm from the page). The text frame is inset 1 mm from the safe area. The corner radius is 5 mm. |
| CardTemplate.PageIsCardPlusBleed | cards.py:87-97 | In millimetres the page is the card plus 6 mm on each axis, and the safe area is the card less 8 mm. |
| CardTemplate.LogoScaleFactor | cards.py:138-140 | The factor times 60 is min(width, 60): 1 from 60 mm on, width/60 below. It never exceeds 1 and is not negative for a non-negative width. |
| CardTemplate.LogoSize | cards.py:132-158 | Without a file: the placeholder 30 mm × 10 mm times the factor. With a readable image: width min(30 mm, half the safe width) times the factor, with the image's aspect ratio. After a read failure: zero size, and the image is drawn only when the reader was created. The final logo height is the box height. |
| CardTemplate.SizeLogo | cards.py:132-158 | The reassigned locals end with the logo size above. |
| CardTemplate.LogoIsAtMostThirtyMillimetres | cards.py:132-158 | On a card of non-negative width no logo, placeholder or image, is wider than 30 mm, whatever the safe area. |
| CardTemplate.ImageLogoFitsSafeArea | cards.py:148-149 | An image logo is never wider than half the safe area nor wider than 30 mm. |
| CardTemplate.PlaceholderFitsSafeAreaIff | cards.py:154-158 | The placeholder fits across the safe area iff the card is at least 16 mm wide. |
| CardTemplate.LogoPosition | cards.py:232-233 | The logo box is centred across the safe area and its top edge lies on the safe-area top. |
| CardTemplate.ScaledFontSizes | cards.py:161-177 | The sizes never exceed 7/8/8. The floors are 3.5/4/4, rising to 4.5/5/5 from 60 mm on. The sizes are exactly 7/8/8 iff the smaller side is at least 100 mm. Every card whose smaller side is under 60 mm gets exactly 3.5/4/4: the extra 0.8 scaling meant for very small cards (cards.py:169-173) never lifts a size above its floor, since 7·0.6·0.8 = 3.36 < 3.5 and 8·0.6·0.8 = 3.84 < 4. Header and data sizes always agree. |
| CardTemplate.ScaleFonts | cards.py:161-177 | The reassigned size locals end with the scaled sizes above. |
| CardTemplate.FontSizesAreMonotone | cards.py:161-177 | A card whose smaller side is not shorter never gets smaller text, across the jump at 60 mm (the sizes are continuous at 100 mm). |
| CardTemplate.Trunc | cards.py:203-210 | `int()` truncates toward zero. |
| CardTemplate.PixelsAt300Dpi | cards.py:201-204 | The pixel count is the whole part of mm/25.4·300. |
| CardTemplate.PixelSizes | cards.py:201-210 | The cut pixels are the card size at 300 DPI. The page pixels are the card size plus the 3 mm bleed on both sides (`PAGE_W`, `PAGE_H`) at 300 DPI. For a card of non-negative size the page is 70 or 71 pixels larger than the card on each axis. |
| CardTemplate.SixMillimetresAreSeventyPixels | cards.py:201-210 | Adding 6 mm adds 70 or 71 whole pixels. |
| CardTemplate.TemplateOf | cards.py:78-245 | The template uses the selected language and that language's texts. The logo box is centred in the safe area with its top on the safe-area top. Geometry, logo size, font sizes and pixel sizes are the ones above. |
| CardTemplate.CreateTemplate | cards.py:78-245 | The procedure computes exactly that layout. |

## Left out

- SVG serialisation in generator.py (`svgwrite`, the `"…mm"` strings, `tostring().encode`): the model stops at the canvas numbers and the two layers.
- The contents of `segments_full.py`: the template is a parameter.
- The template's Python lambdas are modelled as a small expression tree over the derived table. It has numbers, names, negation and the four operations, evaluated left operand first. A KeyError becomes `UnknownName` and a ZeroDivisionError becomes `DivisionByZero`.
- IEEE-754 rounding: all arithmetic is on exact reals. `isclose` is `|a−b| ≤ 1e-9·max(|a|,|b|)`.
- File I/O in build_segments_from_cs.py: the argv check, `read_text`/`write_text`, `splitlines`, `pprint.pformat` and `print`. The model takes the already-split lines and returns the tuple list.
- The link between the two halves is not modelled. The converter writes its tuples as expression strings with `pprint.pformat`. Such strings are not `callable`, so generator.py:52-55 would keep them as they are, and `isclose` at generator.py:57 would then raise TypeError on the first entry. `LegacyListing.RawSegment` and `BoxNet.SegmentSpec` are therefore separate types, and the template is a parameter of the generator.
- LegacyListing.IsWordChar: the regex class `\w` is restricted to ASCII, where Python's also accepts other Unicode letters and digits.
- Regular expressions: only the three patterns of the script are modelled, each by a direct matcher with the same anchoring and backtracking.
- app.py (Flask routing, form parsing, PDF conversion, the browser thread) is not part of this model.
- All reportlab drawing in cards.py is left out: canvas, clip paths, the Bézier rounded rectangles, the hatching loop, the Paragraph/Frame text flow, font registration, colours and the filename and title strings.
- `find_logo_file` and `ImageReader` become the `LogoSource` parameter. It is one of: no file, the reader fails, the size query fails, or an image of given size.
- The three `print` calls of cards.py (the logo found, the logo error, the finished file) are console output and are left out.
- The font leading values, the spacers of the text story, the translated texts' placement and the `.2f`/`.1f` number formatting are left out.
- CardTemplate.UpperChar: `str.upper` is modelled for ASCII letters only. Other characters are kept. The chosen tag agrees with Python's for every tag made of ASCII characters.
- Rotation, proportional margins, labels and dimension tables are left out for the box net, because generator.py does none of them.
