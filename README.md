# lumina widget core in Dafny

This project models the logic of lumina, a small pygame widget toolkit, with no pixels in it. It covers:

- the box model (rectangles, padding, margin);
- the widget tree (mount, unmount, ordered listeners, the container family `Container`, `Row`, `Column` and `Stack`);
- the window's throttled redraw scheduler and its event router;
- the scrollable container;
- the reactive `State` and `Computed` cells;
- the widgets' state machines (text input, data table, card, modal, both button classes, text labels);
- the emoji run splitter, `Style.merge` with the font cache rule, and the colour arithmetic.

Glyph and font measurement are parameters (`measure`, `width`, `fontHeight`, `resolve`). What a child widget answers to
`calculate_size` and whether it consumes an event are parameters too (`measure`, `accepts`). So are the clock
(`now`), the mouse position and the Ctrl state. Callbacks and listeners are recorded in logs on the objects
(`Journal`, `calls`, `clickCalls`, `reports`, ...), and calls of `invalidate()` are counted.

One module per source file:

| File | Module |
|---|---|
| option.dfy | `Options` |
| geometry.dfy | `Geometry` |
| events.dfy | `Events` |
| graphics.dfy | `Graphics` |
| style.dfy | `Styles` |
| text_renderer.dfy | `TextRenderer` |
| reactive.dfy | `Reactive` |
| input.dfy | `Input` |
| datatable.dfy | `DataTable` |
| table_sort.dfy | `TableSort`, the data table's row sort |
| layout.dfy | `Layouts`, the container arithmetic |
| tree.dfy | `Tree`: widget.py, container.py and window.py share this module because Widget and Window refer to each other |
| text.dfy | `TextWidgets` |
| buttons.dfy | `Buttons`: button.py and modern_button.py |
| card.dfy | `Cards` |
| scrollable.dfy | `Scrolling` |

Code that updates fields in place is modelled as classes:

- `Widget`, `Container`, `Window`;
- `ScrollView`, `Card`, `Modal`;
- `TextInput`, `Table`;
- `Button`, `ModernButton`, `Label`;
- `State`, `Computed`, `Style`.

Their methods have `modifies` clauses, and their ensures say how the fields they modify change. The loops of the source are methods with loop
invariants proved against specification functions, for example `FindTaker` against `Topmost`, `ColumnAt` against
`InColumn`, `ClosestCaret` against `IsClosestCaret`, `SplitTextAndEmojis` against `Runs`, and the layout loops against
`ChildRects`. The pure rules are functions whose properties are proved as lemmas.

## Model

| member | source | states |
|---|---|---|
| Geometry.ContainsIsCollideOrFarEdge | lumina/core/types.py:31-33 | Rect.contains accepts exactly the points pygame's collidepoint accepts plus those on the closed right and bottom edges |
| Geometry.ContainsCorners | lumina/core/types.py:31-33 | both the top-left and the bottom-right corner of a rect with non-negative size are contained |
| Geometry.FarCornerContainsButNotCollides | lumina/core/types.py:31-33 | the far corner is inside Rect.contains but outside pygame's half-open collidepoint |
| Geometry.DefaultPadding | lumina/core/types.py:36-41 | Padding() has all four sides 0 |
| Geometry.PaddingAll | lumina/core/types.py:43-45 | Padding.all(v) adds 2v on each axis |
| Geometry.PaddingSymmetric | lumina/core/types.py:47-49 | Padding.symmetric(v, h) adds 2v vertically and 2h horizontally |
| Geometry.DefaultMargin | lumina/core/types.py:52-57 | Margin() has all four sides 0 |
| Geometry.PaddingConstructors | lumina/core/types.py:43-49 | all(v) sets every side to v; symmetric(v, h) gives top = bottom = v and left = right = h; symmetric(v, v) is all(v) |
| Geometry.MarginMatchesPadding | lumina/core/types.py:59-65 | Margin.all, Margin.symmetric and Margin() lay out their sides exactly as the Padding versions do |
| Graphics.MakeColor | lumina/core/graphics.py:196-209 | pygame.Color accepts exactly channels in 0..255 and keeps them as given |
| Graphics.ColorWithAlpha | lumina/core/graphics.py:184-193 | get_color_with_alpha keeps r, g and b and replaces only alpha; it fails exactly for an alpha outside 0..255 |
| Graphics.LightenChannelBounds | lumina/core/graphics.py:196-201 | for a factor in [0, 1] a lightened channel lies in [c, 255] |
| Graphics.LightenColorBounds | lumina/core/graphics.py:196-201 | lighten_color with a factor in [0, 1] never fails, keeps alpha and moves each channel toward 255 |
| Graphics.DarkenChannelBounds | lumina/core/graphics.py:204-209 | for a factor in [0, 1] a darkened channel lies in [0, c] |
| Graphics.DarkenColorBounds | lumina/core/graphics.py:204-209 | darken_color with a factor in [0, 1] never fails, keeps alpha and moves each channel toward 0 |
| Graphics.ZeroFactorIsIdentity | lumina/core/graphics.py:196-209 | a factor of 0 returns the colour unchanged, for both lighten and darken |
| Graphics.UnitFactorIsExtreme | lumina/core/graphics.py:196-209 | a factor of 1 lightens to white and darkens to black, alpha kept |
| Graphics.DarkenPastOneIsBlack | lumina/core/graphics.py:204-209 | any factor of 1 or more darkens to black, because the max(0, ...) guard absorbs the negative product |
| Graphics.RoundedRadius | lumina/core/graphics.py:25-31 | a radius of 0 or less means a plain rect; otherwise the radius used is the smaller of the radius and half the shorter side |
| Graphics.FittingRadiusUnchanged | lumina/core/graphics.py:29-31 | a radius that already fits half of both sides is used unchanged |
| Styles.DefaultStyle | lumina/core/style.py:11-61 | Style() holds only the dataclass fields and no font cache |
| Styles.MakeStyle | lumina/core/style.py:11-61 | Style(**overrides) has exactly the dataclass fields; each is its override when given, else its default |
| Styles.WidgetFields | lumina/core/style.py:20-57 | the defaults of font_size (14), font_weight ("normal"), opacity (1) and cursor ("default") |
| Styles.MergeFieldRule | lumina/core/style.py:63-77 | for every field, merge takes other's value when it is not None, else this style's value |
| Styles.MergeAddsOtherAttributes | lumina/core/style.py:71-75 | an attribute set in other is copied even when this style lacks it |
| Styles.MergeAllSetYieldsOther | lumina/core/style.py:71-75 | when every field of other is set, the merged fields are exactly other's |
| Styles.MergeWithDefaultResets | lumina/core/style.py:63-77 | merging a plain Style() resets every field whose default is not None; only the Optional fields keep this style's values |
| Styles.MergeAssociative | lumina/core/style.py:63-77 | for complete styles, (a merge b) merge c equals a merge (b merge c) |
| Styles.MergeIdempotent | lumina/core/style.py:63-77 | a complete style merged with itself is unchanged |
| Styles.MergeSharesFontCache | lumina/core/style.py:67-75 | the merged style shares a font cache object: other's if it has one, else this style's |
| Styles.Style.Merge | lumina/core/style.py:63-77 | merge returns a fresh style holding the merged attributes, and neither input changes |
| Styles.Style.constructor | lumina/core/style.py:7-61 | a new Style holds MakeStyle(overrides) and no cache |
| Styles.WeightFlags | lumina/core/style.py:107-108 | "bold" and "600" are bold while "500", "normal" and None are not; only "italic" is italic |
| Styles.FontFlags | lumina/core/style.py:107-108 | the default style is neither bold nor italic |
| Styles.FontFor | lumina/core/style.py:106-108 | the built font is bold iff the weight is in the bold list, and italic iff the style is "italic" |
| Styles.ToPygameColor | lumina/core/style.py:79-90 | None and any value that is neither a string nor a tuple give no colour; a name gives the colour the lookup finds and raises ValueError when it finds none; a 1-tuple is a packed 0xRRGGBBAA integer; a 3-tuple gives that colour with alpha 255; a 4-tuple gives it with its alpha; a channel outside 0..255 or any other length raises, kept apart from the no-colour result |
| Styles.ChannelsRoundTrip | lumina/core/style.py:87-88 | a colour spread into a 4-tuple, or an opaque one into a 3-tuple, converts back to itself |
| Styles.PackedRoundTrip | lumina/core/style.py:87-88 | a colour packed as one 0xRRGGBBAA integer converts back to itself |
| Styles.Style.GetFont | lumina/core/style.py:92-173 | a cached key returns the cached font and changes nothing; otherwise the font is built for the key and stored, creating the cache when the style has none |
| Styles.CachedFontIsBuiltFont | lumina/core/style.py:99-104 | from a coherent cache, get_font returns the font the key would build whether it hits or not, and the cache stays coherent |
| TextRenderer.SplitTextAndEmojis | lumina/core/text_renderer.py:117-148 | the loop returns exactly the maximal-run split Runs(text), and the parts join back to the text |
| TextRenderer.NextMatch | lumina/core/text_renderer.py:119-135 | the next match is the first emoji at or after the position, extended to the longest emoji run; None when no emoji is left |
| TextRenderer.RunsProperties | lumina/core/text_renderer.py:132-148 | the split joins back to the input, has no empty part, flags each part correctly, and alternates flags |
| TextRenderer.RunsJoin | lumina/core/text_renderer.py:132-148 | concatenating the parts gives back the input exactly |
| TextRenderer.RunsWellFormed | lumina/core/text_renderer.py:137-146 | no part is empty, and every character of a part carries that part's emoji flag |
| TextRenderer.RunsAlternate | lumina/core/text_renderer.py:135-146 | consecutive parts differ in their emoji flag, so emoji runs are maximal |
| TextRenderer.RunsUnique | lumina/core/text_renderer.py:117-148 | any part list that joins to the text, is well formed and alternates is the split itself |
| TextRenderer.ContainsEmojiIffEmojiPart | lumina/core/text_renderer.py:31-46 | _contains_emoji holds exactly when the split yields an emoji part |
| TextRenderer.EmptySplit | lumina/core/text_renderer.py:132-148 | the empty string splits into no parts and contains no emoji |
| TextRenderer.RunsFromEmpty | lumina/core/text_renderer.py:145-146 | the split of a suffix is empty exactly when the suffix is |
| TextRenderer.EmojiCharGivesEmojiPart | lumina/core/text_renderer.py:119-141 | every emoji character lies in some emoji part |
| TextRenderer.EmojiPartGivesEmojiChar | lumina/core/text_renderer.py:119-141 | every emoji part holds an emoji character |
| TextRenderer.RunEnd | lumina/core/text_renderer.py:119-130 | the end of the longest same-flag run from a position: one flag up to it, a different flag or the end at it |
| TextRenderer.RunEndUnique | lumina/core/text_renderer.py:128 | a run is fixed by where it stops: every maximal same-flag stretch ends at RunEnd |
| TextRenderer.GetTextSize | lumina/core/text_renderer.py:215-218 | the empty string measures (0, 0); other text is whatever the measurement gives |
| Reactive.State.constructor | lumina/core/reactive.py:11-14 | a new State holds the initial value and has no observers and no calls |
| Reactive.State.SetValue | lumina/core/reactive.py:20-24 | an equal value calls and schedules no one; a different one is stored, then every synchronous observer is called once and every asynchronous one scheduled once; the logs grow by exactly the calls, the raising observers and the scheduled asyncio tasks |
| Reactive.State.NotifyObservers | lumina/core/reactive.py:41-49 | every synchronous observer is called exactly once; the failures caught are exactly the raising observers; every asynchronous observer is scheduled once |
| Reactive.FailingExactly | lumina/core/reactive.py:42-46 | an observer is logged as failed iff it was called and raises, so a failure never stops later observers |
| Reactive.Enumerate | lumina/core/reactive.py:42 | iterating the observer set visits each member exactly once |
| Reactive.State.Subscribe | lumina/core/reactive.py:26-31 | the observer joins the synchronous or the asynchronous set, as the flag says, and the other set is untouched |
| Reactive.State.Unsubscribe | lumina/core/reactive.py:33-37 | the returned unsubscribe discards from the same set, so a second call is harmless |
| Reactive.Computed.constructor | lumina/core/reactive.py:64-68 | a Computed starts dirty, with nothing cached and no compute run |
| Reactive.Computed.SubscribeToDependencies | lumina/core/reactive.py:70-72 | _mark_dirty joins the synchronous observers of every dependency, and only their observer sets change |
| Reactive.Computed.MarkDirty | lumina/core/reactive.py:74-76 | the flag is set without recomputing, each observer is called once, and the failure log grows by exactly the raising ones |
| Reactive.Computed.Read | lumina/core/reactive.py:78-83 | a dirty cell computes once and caches the result; a clean one returns the cache without computing |
| Reactive.ReadTwiceComputesOnce | lumina/core/reactive.py:79-83 | two reads in a row run compute at most once and return the same value |
| Reactive.Computed.Subscribe | lumina/core/reactive.py:85-91 | the observer joins the set, and the returned unsubscribe refers to it |
| Reactive.Computed.Unsubscribe | lumina/core/reactive.py:88-89 | unsubscribe discards the observer; a second call is harmless |
| Reactive.Computed.NotifyObservers | lumina/core/reactive.py:93-98 | every observer is called exactly once, and a failing one does not stop the rest |
| Input.SizePadding | lumina/widgets/input.py:28-34 | the default padding of small, large and medium inputs; any unknown size name gets the medium padding |
| Input.InputSize | lumina/widgets/input.py:81-100 | the input is 200 wide and one line plus padding high, plus 20 for a label; a multiline input is three times as high |
| Input.Insert | lumina/widgets/input.py:180-184 | the text is spliced in at the caret and the rest of the value is kept on both sides |
| Input.RemoveAt | lumina/widgets/input.py:141-152 | exactly one character is removed and the rest is kept in order |
| Input.RemoveUndoesInsert | lumina/widgets/input.py:180-184 | removing a character just inserted gives the value back |
| Input.InsertUndoesRemove | lumina/widgets/input.py:148-152 | putting a removed character back gives the value back |
| Input.KeyEdit | lumina/widgets/input.py:129-178 | the caret stays within [0, len]; only edits change the value; Return submits iff single-line; Backspace or Delete is ignored iff at the start or the end; Home and End move to 0 and len |
| Input.BackspaceUndoesTyping | lumina/widgets/input.py:141-146 | typing a character and then pressing Backspace restores the value and the caret |
| Input.DeleteRemovesCharAfterCaret | lumina/widgets/input.py:148-152 | Delete removes exactly the character after the caret and keeps the caret |
| Input.BackspaceRemovesCharBeforeCaret | lumina/widgets/input.py:141-146 | Backspace removes exactly the character before the caret and moves the caret back one |
| Input.LeftRightInverse | lumina/widgets/input.py:154-162 | Left then Right restores the caret away from the start, and Right then Left away from the end; at the ends they are clamped |
| Input.ReturnInMultiline | lumina/widgets/input.py:131-139 | Return in a multiline input types a newline at the caret |
| Input.ClosestCaretUnique | lumina/widgets/input.py:193-212 | only one caret slot is nearest to the click with the earliest-on-ties rule |
| Input.ClosestCaret | lumina/widgets/input.py:198-209 | the search loop finds the nearest slot, the earliest among equals |
| Input.TextInput.constructor | lumina/widgets/input.py:26-57 | the caret starts after the initial value; an explicit padding wins over the size default; nothing focused or logged |
| Input.TextInput.OnValueChanged | lumina/widgets/input.py:186-191 | on_change gets the value when it is set, then CHANGE is emitted and a redraw requested |
| Input.TextInput.InsertText | lumina/widgets/input.py:180-184 | the value becomes Insert(value, caret, t) and the caret moves past the text, then the change is announced |
| Input.TextInput.Submit | lumina/widgets/input.py:132-136 | on_submit (when set) and SUBMIT get the unchanged value |
| Input.TextInput.MoveCursor | lumina/widgets/input.py:154-178 | a caret key puts the caret at the new slot and asks for one redraw |
| Input.TextInput.HandleKey | lumina/widgets/input.py:129-178 | the value and caret become what KeyEdit says, with the change, submit and redraw effects of its outcome; consumed unless ignored |
| Input.TextInput.PlaceCursorAtPosition | lumina/widgets/input.py:193-212 | the caret goes to the nearest slot to the click, and a redraw is requested |
| Input.TextInput.HandleEvent | lumina/widgets/input.py:102-127 | a disabled input ignores everything; a click inside focuses and places the caret and is consumed; a click outside only unfocuses; keys count only while focused |
| DataTable.ColumnWidth | lumina/widgets/datatable.py:187 | a column without a width is 150 wide |
| DataTable.TotalPages | lumina/widgets/datatable.py:83-87 | 1 without pagination; otherwise the ceiling of rows over rows per page, so the pages hold every row and the last page is not empty |
| DataTable.TotalPagesUnique | lumina/widgets/datatable.py:83-87 | the ceiling is the only page count with that property |
| DataTable.PageRows | lumina/widgets/datatable.py:74-81 | all rows without pagination; otherwise at most a page of rows, the slice from page·r, or nothing past the end |
| DataTable.RowOnItsPage | lumina/widgets/datatable.py:74-87 | row i is on page i / r at position i % r, and that page exists |
| DataTable.EarlierPagesFull | lumina/widgets/datatable.py:74-87 | every page before the last holds exactly rows-per-page rows |
| DataTable.ColumnAt | lumina/widgets/datatable.py:180-192 | the loop returns ColumnIndex: the first column whose half-open interval holds x, or -1 when none does |
| DataTable.ColumnsCover | lumina/widgets/datatable.py:180-192 | with non-negative widths, every x in [0, total width) lies in some column |
| DataTable.RowAt | lumina/widgets/datatable.py:167-178 | -1 outside the content rect, in the header band or past the page's rows; otherwise the row band under the point |
| DataTable.RowAtFindsBand | lumina/widgets/datatable.py:167-178 | a point inside the content rect in the band of row j finds row j |
| DataTable.SelectClick | lumina/widgets/datatable.py:137-146 | a plain click selects only that row; a Ctrl click toggles that row and keeps every other row's membership |
| DataTable.CtrlClickTwice | lumina/widgets/datatable.py:138-143 | two Ctrl clicks on the same row restore the selection |
| DataTable.SelectedRows | lumina/widgets/datatable.py:149 | the reported rows are exactly the data rows whose identity is selected |
| DataTable.SelectedRowsCount | lumina/widgets/datatable.py:149 | each selected row is reported as many times as it occurs in the data, an unselected one never |
| DataTable.SelectedRowsAppend | lumina/widgets/datatable.py:149 | the comprehension keeps data order: the report for a + b is the report for a followed by the report for b |
| DataTable.TableSize | lumina/widgets/datatable.py:56-72 | the width is the column widths plus padding, clamped to the offer; the height is header, visible rows, the pagination bar when needed and padding, clamped |
| DataTable.TableHeightBound | lumina/widgets/datatable.py:56-72 | the height never exceeds header, a full page, the pagination bar and the padding |
| DataTable.Table.constructor | lumina/widgets/datatable.py:12-54 | a new table has padding 16 unless one is given, page 0, no sort, no selection and nothing reported, for any page size |
| DataTable.Table.SortData | lumina/widgets/datatable.py:89-107 | not sortable: nothing changes; otherwise the same column flips the direction and a new one starts ascending, then the rows are sorted stably by the key and page 0 is shown, or TypeError for keys Python cannot order |
| DataTable.Table.HandlePaginationClick | lumina/widgets/datatable.py:218-237 | Prev moves back one page exactly when it is hit from page > 0; otherwise Next moves forward one exactly when it is hit before the last page; page size 0 raises on Next; any other click keeps the page; consumed iff the page moved, with one redraw then |
| DataTable.Table.ClickRow | lumina/widgets/datatable.py:130-157 | the selection becomes SelectClick when selectable; then the selection change and the row click are reported when their callbacks are set; one redraw |
| DataTable.Table.ClickHeader | lumina/widgets/datatable.py:120-127 | a click on a sortable header is that column's sort_data, consumed unless the sort raised, and the rows are only permuted |
| DataTable.Table.HandleLeftClick | lumina/widgets/datatable.py:118-163 | the header over a sortable column sorts by it; otherwise a row of the page is clicked; otherwise, for a table with more rows than a page, the pagination bar is clicked; otherwise nothing changes and the click is not consumed |
| DataTable.Table.HandleEvent | lumina/widgets/datatable.py:109-165 | motion sets the hovered row to RowAt and redraws only when it changed; a left press is dispatched as HandleLeftClick states and keeps the hovered row; only a left press can raise; everything else changes nothing |
| TableSort.KeyOf | lumina/widgets/datatable.py:103 | a row without the column has the key "" |
| TableSort.StrLessIrreflexive | lumina/widgets/datatable.py:103 | Python's string order is irreflexive |
| TableSort.StrLessTransitive | lumina/widgets/datatable.py:103 | Python's string order is transitive |
| TableSort.StrLessTotal | lumina/widgets/datatable.py:103 | Python's string order is total on distinct strings |
| TableSort.CellLessIrreflexive | lumina/widgets/datatable.py:103 | the key order is irreflexive |
| TableSort.CellLessTransitive | lumina/widgets/datatable.py:103 | the key order is transitive |
| TableSort.CellLessTotal | lumina/widgets/datatable.py:103 | the key order is total on distinct keys |
| TableSort.PrecedesIrreflexive | lumina/widgets/datatable.py:102-103 | "goes strictly before", ascending or descending, is irreflexive |
| TableSort.PrecedesTransitive | lumina/widgets/datatable.py:102-103 | "goes strictly before", ascending or descending, is transitive |
| TableSort.PrecedesTotal | lumina/widgets/datatable.py:102-103 | of two distinct keys one goes strictly before the other |
| TableSort.OrderableKeysComparable | lumina/widgets/datatable.py:103 | when the sort does not raise, Python can compare every two keys |
| TableSort.UnorderableHasIncomparablePair | lumina/widgets/datatable.py:103 | when keys mix kinds, two of them cannot be compared, so list.sort raises TypeError |
| TableSort.WithKey | lumina/widgets/datatable.py:103 | the rows with one key, in list order, are no more than the rows |
| TableSort.InsertRow | lumina/widgets/datatable.py:102-103 | inserting a row adds exactly one element |
| TableSort.SortRows | lumina/widgets/datatable.py:102-103 | the sorted list has as many rows as the input |
| TableSort.InsertRowPermutes | lumina/widgets/datatable.py:102-103 | insertion adds the row to the multiset and changes nothing else |
| TableSort.SortRowsPermutes | lumina/widgets/datatable.py:102-103 | sorting only rearranges the rows |
| TableSort.InsertRowOrdered | lumina/widgets/datatable.py:102-103 | inserting into an ordered list keeps it ordered |
| TableSort.SortRowsOrdered | lumina/widgets/datatable.py:102-103 | no sorted row is followed by one whose key goes strictly before its own, in the chosen direction |
| TableSort.InsertRowStable | lumina/widgets/datatable.py:102-103 | inserting a row puts it after every row with the same key |
| TableSort.SortRowsStable | lumina/widgets/datatable.py:102-103 | for every key, the rows with that key keep their relative order, reverse=True included |
| TableSort.SortRowsCorrect | lumina/widgets/datatable.py:102-103 | the sorted rows are a permutation of the input, ordered by the key in the chosen direction, and stable |
| Layouts.ParseAlign | lumina/widgets/container.py:240-248 | "center", "end" and "stretch" are recognised, and any other string means start |
| Layouts.MaxW | lumina/widgets/container.py:68 | the running maximum of the widths, starting from 0, bounds every width |
| Layouts.MaxH | lumina/widgets/container.py:154 | the running maximum of the heights, starting from 0, bounds every height |
| Layouts.MaxWAttained | lumina/widgets/container.py:68 | the maximum is some child's width, or the 0 the fold starts from |
| Layouts.AlongWLast | lumina/widgets/container.py:169-174 | the last child of a row ends where the widths plus n − 1 spacings end |
| Layouts.AlongHLast | lumina/widgets/container.py:220-225 | the last child of a column ends where the heights plus n − 1 spacings end |
| Layouts.PlainSize | lumina/widgets/container.py:54-71 | Container's size is the widest child plus horizontal padding by the summed heights plus vertical padding, with no spacing |
| Layouts.RowSize | lumina/widgets/container.py:141-156 | Row width is padding, widths and spacing counted n − 1 times; Row height is the tallest child plus padding |
| Layouts.ColumnSize | lumina/widgets/container.py:212-227 | Column is the Row rule with the axes swapped |
| Layouts.StackSize | lumina/widgets/container.py:261-277 | Stack's size is the component-wise maximum plus padding, and every child fits inside it |
| Layouts.ContentRect | lumina/widgets/container.py:283-288 | the content rect is inset by the padding on all four sides |
| Layouts.StackedRects | lumina/widgets/container.py:78-92 | child i starts below the heights of the earlier children and i gaps, and is no wider than the content |
| Layouts.StackedAdjacent | lumina/widgets/container.py:81-92 | each stacked child starts where the previous one ends, plus the gap |
| Layouts.PlainLayoutFillsSize | lumina/widgets/container.py:73-92 | a container laid out at its calculated height has its last child end on the bottom padding line |
| Layouts.RowStart | lumina/widgets/container.py:176-184 | start begins at the left padding; end finishes at the right padding; center leaves equal margins |
| Layouts.RowRects | lumina/widgets/container.py:158-195 | row children sit side by side from RowStart at their measured size on the top padding line |
| Layouts.RowAdjacent | lumina/widgets/container.py:186-195 | consecutive row children are exactly one spacing apart |
| Layouts.RowEndFlush | lumina/widgets/container.py:181-195 | with align "end" the last child is flush with the right padding line, with no trailing spacing |
| Layouts.RowStartFillsSize | lumina/widgets/container.py:141-195 | a row laid out at its own calculated width and aligned at the start also ends on the right padding line |
| Layouts.ColumnRects | lumina/widgets/container.py:229-255 | column children are placed one per measured size |
| Layouts.ColumnRectsPlaced | lumina/widgets/container.py:236-255 | each column child sits at its running height and measured height, placed horizontally by align |
| Layouts.ColumnChild | lumina/widgets/container.py:239-250 | stretch fills the content width, center leaves equal margins, end is flush right, anything else flush left |
| Layouts.ColumnFillsSize | lumina/widgets/container.py:212-255 | a column laid out at its calculated height ends on the bottom padding line |
| Layouts.StackChildrenFit | lumina/widgets/container.py:261-291 | at the stack's own size, every child fits in the shared content rect |
| Tree.Notices | lumina/core/widget.py:90-97 | one listener call per registered handler, in registration order |
| Tree.RemoveFirst | lumina/core/widget.py:84-86 | list.remove drops only the first occurrence, and the multiset loses exactly that element |
| Tree.RemoveAppended | lumina/core/widget.py:77-86 | adding a new listener and calling its remover restores the list |
| Tree.RemoveAppendedDuplicate | lumina/core/widget.py:77-86 | for a listener registered twice, the remover drops the first registration and keeps the later one |
| Tree.Widget.constructor | lumina/core/widget.py:15-34 | a new widget is unlinked, unmounted, without listeners, with a zero rect and Padding() unless one is given |
| Tree.Widget.Emit | lumina/core/widget.py:90-97 | every listener of the type is called once in order, a raising one included, and nothing else changes |
| Tree.Widget.AddEventListener | lumina/core/widget.py:77-88 | the handler is appended to its type's list, the other lists are untouched, and the remover names that handler |
| Tree.Widget.CallRemover | lumina/core/widget.py:84-86 | the first registration is removed; ValueError iff the type has a list that no longer holds the handler; otherwise nothing changes |
| Tree.Widget.Mount | lumina/core/widget.py:53-59 | the parent is p and the widget is mounted; the window is w if given, else p's window, else None; MOUNT listeners run after the links are set |
| Tree.Widget.Unmount | lumina/core/widget.py:61-67 | UNMOUNT listeners run while the links are still set; then parent, window and mounted are cleared |
| Tree.Widget.Layout | lumina/core/widget.py:108-110 | the rect becomes exactly the one given |
| Tree.Widget.Invalidate | lumina/core/widget.py:117-120 | forwarded to the window when there is one, otherwise nothing happens |
| Tree.InvalidateStep | lumina/core/window.py:79-87 | an invalidation counts only when more than 1/120 s passed since the last one that counted; otherwise nothing changes |
| Tree.InvalidateSameInstant | lumina/core/window.py:79-87 | any number of invalidations at the same instant act as one |
| Tree.InvalidateThrottled | lumina/core/window.py:79-87 | after an invalidation counts, later ones within 1/120 s change nothing |
| Tree.StackingAt | lumina/widgets/container.py:60-69 | each child is measured against the height its predecessors and the padding leave |
| Tree.RowAlign | lumina/widgets/container.py:179-184 | a row knows center and end; anything else, stretch included, starts at the left |
| Tree.SizeForEmpty | lumina/widgets/container.py:56-57 | a container of any class without children measures as its padding |
| Tree.ChildRects | lumina/widgets/container.py:73-291 | every container class gives each of its children one rect |
| Tree.Container.constructor | lumina/widgets/container.py:13-26 | the container holds its widget part and exactly the children given |
| Tree.Container.Mount | lumina/widgets/container.py:28-32 | the container is mounted first, then each child with the container as parent and its window, listeners in that order |
| Tree.Container.Unmount | lumina/widgets/container.py:34-38 | every child is unmounted in order, then the container |
| Tree.Container.AddChild | lumina/widgets/container.py:40-45 | the child is always appended; the tree stays valid iff the child is new and not the container; a mounted container mounts it (its listeners in order) and invalidates the window, except that adding itself raises; an unmounted one changes nothing else |
| Tree.UniqueAppend | lumina/widgets/container.py:40-45 | appending keeps the children distinct iff the new child was not among them |
| Tree.Container.RemoveChild | lumina/widgets/container.py:47-52 | a member is unmounted, its first occurrence removed and the window invalidated; a non-member changes nothing |
| Tree.Container.CalculateSize | lumina/widgets/container.py:54-71 | each class's loop returns the size SizeFor specifies |
| Tree.Container.Layout | lumina/widgets/container.py:73-92 | the container takes the rect, and every child gets the rect its class's rule assigns |
| Tree.Container.HandleEvent | lumina/widgets/container.py:110-124 | the event goes to the last offered child that consumes it; consumed iff some child does |
| Tree.PointOf | lumina/widgets/container.py:116-117 | only mouse events carry a position that filters children |
| Tree.MountAll | lumina/widgets/container.py:31-32 | every child is linked to the parent and window, with MOUNT listeners in child order |
| Tree.UnmountAll | lumina/widgets/container.py:36-37 | every child is unlinked, with UNMOUNT listeners in child order |
| Tree.StackLayout | lumina/widgets/container.py:290-291 | every child of a stack receives the identical content rect |
| Tree.FindTaker | lumina/widgets/container.py:113-124 | the reverse loop returns the topmost offered child that consumes the event, or -1 |
| Tree.TopmostUnique | lumina/widgets/container.py:113-124 | the topmost consumer is unique |
| Tree.PlainCalculate | lumina/widgets/container.py:54-71 | Container's size loop computes SizeFor(Plain) |
| Tree.PlainTotals | lumina/widgets/container.py:60-69 | the loop's running maximum and height are those of the stacked measurements |
| Tree.RowCalculate | lumina/widgets/container.py:141-156 | Row's loop computes RowSize of the children's answers to an unbounded width |
| Tree.ColumnCalculate | lumina/widgets/container.py:212-227 | Column's loop computes ColumnSize of the children's answers to an unbounded height |
| Tree.StackCalculate | lumina/widgets/container.py:261-277 | Stack's loop computes StackSize |
| Tree.PlainLayout | lumina/widgets/container.py:73-92 | Container's layout loop places every child where ChildRects says |
| Tree.StackPlace | lumina/widgets/container.py:81-92 | each child is placed at the running y, no wider than the limit, and y moves down by its height and the gap |
| Tree.RowLayout | lumina/widgets/container.py:158-195 | Row's layout loops place every child where ChildRects says |
| Tree.RowMeasure | lumina/widgets/container.py:166-174 | the first loop yields the children's sizes and the total width with n − 1 spacings |
| Tree.ColumnLayout | lumina/widgets/container.py:229-255 | Column's layout loop places every child where ChildRects says |
| Tree.ColumnPlace | lumina/widgets/container.py:236-255 | each column child is placed at its running height, x and width by align |
| Tree.WindowRects | lumina/core/window.py:137-148 | top-level children are stacked from y = 0 at x = 0, at their measured size |
| Tree.WindowRectsAdjacent | lumina/core/window.py:140-148 | each top-level child starts where the one above it ends |
| Tree.WindowPlace | lumina/core/window.py:138-148 | the window's layout loop places each child below the ones before it, measured with the height left |
| Tree.VisibleOf | lumina/core/window.py:161-164 | the rendered children are visible children, and every visible child is rendered |
| Tree.VisibleOfSingle | lumina/core/window.py:161-164 | one child is rendered iff it is visible |
| Tree.VisibleOfAppend | lumina/core/window.py:161-164 | the loop keeps order and multiplicity: the rendered children of a + b are those of a followed by those of b |
| Tree.ClearCaches | lumina/core/window.py:105-129 | every cache is dropped and every window involved is invalidated at that instant |
| Tree.Window.constructor | lumina/core/window.py:12-53 | a new window is not running, is dirty, has no surface, has the mouse at the origin and nothing focused or hovered |
| Tree.Window.Invalidate | lumina/core/window.py:79-87 | the dirty flag and last time become what InvalidateStep says |
| Tree.Window.MountChildren | lumina/core/window.py:55-58 | each child is mounted with no parent and this window |
| Tree.Window.UnmountChildren | lumina/core/window.py:60-63 | each child is unmounted, in order |
| Tree.Window.AddChild | lumina/core/window.py:65-70 | the child is always appended; the window stays valid iff the child is new; it is mounted and the window invalidated only while running |
| Tree.Window.RemoveChild | lumina/core/window.py:72-77 | a member is unmounted, removed and the window invalidated; a non-member changes nothing |
| Tree.Window.Layout | lumina/core/window.py:131-148 | the top-level children are placed at WindowRects of their measurements |
| Tree.Window.Render | lumina/core/window.py:150-168 | without a surface or when clean nothing happens; otherwise the visible children are drawn in order and the flag cleared |
| Tree.Window.UpdateHover | lumina/core/window.py:203-216 | the hovered widget becomes the last visible child under the mouse, or none |
| Tree.Window.Resize | lumina/core/window.py:177-186 | a resizable window takes the requested size, no smaller than its minimum, lays out and invalidates; otherwise nothing changes |
| Tree.Window.HandleEvent | lumina/core/window.py:170-201 | QUIT stops and calls on_close; resize as Resize; motion moves the mouse and hover; buttons go to the topmost child under the stored mouse; keys go only to the focused widget |
| Tree.Window.ClearAllCaches | lumina/core/window.py:103-129 | every top-level cache is dropped, and each child's window is invalidated |
| Tree.Window.ForceRedraw | lumina/core/window.py:94-98 | caches are cleared, then the window is invalidated |
| Tree.Window.SetTheme | lumina/core/window.py:89-101 | the theme is replaced, caches cleared, the window invalidated and laid out again |
| TextWidgets.ParsePreset | lumina/widgets/text.py:33-46 | the five preset names are recognised exactly |
| TextWidgets.PresetOverrides | lumina/widgets/text.py:33-46 | a known preset overrides the size and possibly weight and opacity; an unknown name overrides nothing |
| TextWidgets.Preset | lumina/widgets/text.py:33-46 | every preset is a complete style |
| TextWidgets.PresetFields | lumina/widgets/text.py:35-46 | the size, weight and opacity of each preset, defaults elsewhere |
| TextWidgets.PresetValues | lumina/widgets/text.py:35-44 | heading is 32 bold, subheading 24 "600", body 16, caption 14 at opacity 0.7, small 12 |
| TextWidgets.PresetUnknown | lumina/widgets/text.py:45-46 | any other name gives the plain default style |
| TextWidgets.PresetFlags | lumina/widgets/text.py:35-42 | only heading and subheading are bold, and only caption is translucent |
| TextWidgets.HeaderFontSize | lumina/widgets/text.py:97-100 | levels 1 to 5 map to 32, 28, 24, 20, 18, and every other level to 16 |
| TextWidgets.HeaderStyle | lumina/widgets/text.py:97-103 | a header has its level's size and is always bold |
| TextWidgets.HeaderSizesDescend | lumina/widgets/text.py:99-100 | a deeper level never has a larger font |
| TextWidgets.HeaderOneIsHeading | lumina/widgets/text.py:99-103 | a first-level header has the heading preset's style |
| TextWidgets.ParagraphIsBody | lumina/widgets/text.py:109-111 | a paragraph has the body preset's style |
| TextWidgets.TextWidgetSize | lumina/widgets/text.py:48-57 | the measured text plus padding on each axis; empty text is just the padding |
| TextWidgets.AlignedX | lumina/widgets/text.py:80-88 | left starts at the left padding; right ends at the right padding; center is the floor of half the free width |
| TextWidgets.CenteredMargins | lumina/widgets/text.py:85-86 | centred text leaves equal margins, up to the pixel lost to floor division |
| TextWidgets.TextColorSource | lumina/widgets/text.py:68-74 | a set foreground colour wins, then the window theme, then black |
| TextWidgets.Label.constructor | lumina/widgets/text.py:11-31 | the preset or given style, with a set color argument overriding foreground_color; nothing rendered yet |
| TextWidgets.Label.Render | lumina/widgets/text.py:59-91 | an invisible label does nothing; the surface is rebuilt iff there is none or the text changed; it is drawn at the aligned x |
| TextWidgets.RenderTwiceBuildsOnce | lumina/widgets/text.py:65-78 | the first render builds the surface at most once and the second does not build it again |
| Buttons.PressRelease | lumina/widgets/button.py:64-88 | a press inside arms and is consumed; a release always disarms and clicks iff armed and inside; other events change nothing |
| Buttons.ClicksNeedPresses | lumina/widgets/button.py:69-84 | over any run of events there are no more clicks than presses inside, plus one if the button starts armed |
| Buttons.ReleaseAloneNeverClicks | lumina/widgets/button.py:75-85 | a release without a press never clicks |
| Buttons.PressReleaseInsideClicksOnce | lumina/widgets/button.py:69-84 | a press and a release on the button make exactly one click |
| Buttons.ButtonPadding | lumina/widgets/button.py:19-21 | the default padding is 12 vertically and 24 horizontally |
| Buttons.ButtonSize | lumina/widgets/button.py:50-62 | text plus padding on each axis, at least 80 by 36, and equal to one of the two |
| Buttons.ParseVariant | lumina/widgets/button.py:37-48 | the three variant names are recognised exactly |
| Buttons.VariantStyle | lumina/widgets/button.py:37-48 | primary and secondary set radius 8; primary sets weight "600"; secondary sets border 2; the known variants set the hand cursor; nothing else changes |
| Buttons.OnlyPrimaryTurnsBold | lumina/widgets/button.py:39-41 | from the default style, only a primary button is bold |
| Buttons.VariantStyleIdempotent | lumina/widgets/button.py:37-48 | applying the variant style twice is the same as once |
| Buttons.BlendChannelBounds | lumina/widgets/button.py:187-189 | in exact arithmetic, for alpha in [0, 1] a blended channel lies between base and overlay |
| Buttons.ApplyOverlay | lumina/widgets/button.py:180-191 | the result is opaque, and it fails exactly where a channel leaves 0..255 |
| Buttons.ApplyOverlayDefined | lumina/widgets/button.py:180-191 | in exact arithmetic, for alpha in [0, 1] the overlay never fails, and each channel stays between base and overlay |
| Buttons.ApplyOverlayEnds | lumina/widgets/button.py:187-191 | alpha 0 gives the base channels and alpha 1 the overlay's, both opaque |
| Buttons.Button.constructor | lumina/widgets/button.py:11-35 | the default padding unless one is given, then the variant style; not pressed or hovered |
| Buttons.Button.HandleEvent | lumina/widgets/button.py:64-88 | a disabled button ignores everything; otherwise PressRelease decides, and a click calls on_click (when set) and emits CLICK |
| Buttons.Button.UpdateHover | lumina/widgets/button.py:172-178 | hovered iff the mouse is on an enabled button; a redraw only when it changed |
| Buttons.ClassOf | lumina/widgets/modern_button.py:24-30 | small and large are recognised, and every other name is medium |
| Buttons.ModernPadding | lumina/widgets/modern_button.py:24-30 | each class pads 8, 12 or 16 vertically and twice that horizontally |
| Buttons.MinSize | lumina/widgets/modern_button.py:94-99 | the minimum sizes are 60×32, 80×40 and 100×48 |
| Buttons.SizeFont | lumina/widgets/modern_button.py:54-60 | the font sizes are 14, 16 and 18, with radii 6, 8 and 10 |
| Buttons.UnknownSizeIsMedium | lumina/widgets/modern_button.py:24-99 | an unknown size name gets the medium padding, minimum, font and radius |
| Buttons.ModernSize | lumina/widgets/modern_button.py:73-101 | at least the class minimum; text plus 28 for an icon plus padding wide; at least 20 plus padding high; equal to one of the bounds |
| Buttons.SizeStyle | lumina/widgets/modern_button.py:52-65 | the class's font size and radius, weight "600", and the hand cursor unless disabled; nothing else changes |
| Buttons.ModernButton.constructor | lumina/widgets/modern_button.py:13-50 | the class padding unless one is given, then the size style; both progress values 0 |
| Buttons.ModernButton.HandleEvent | lumina/widgets/modern_button.py:126-156 | a disabled button ignores everything; motion tracks hover and is never consumed; presses and releases follow PressRelease |
| Buttons.ModernButton.UpdateAnimations | lumina/widgets/modern_button.py:103-124 | both progress values snap to 1 or 0 by hover and press, and a redraw is requested only when one changed |
| Buttons.UpdateAnimationsSettles | lumina/widgets/modern_button.py:111-124 | the first update requests at most one redraw and a second one with nothing changed in between requests none |
| Cards.CardContent | lumina/widgets/card.py:69-74 | the card's content area is inset by the padding, below the title band |
| Cards.AreaChildRects | lumina/widgets/card.py:77-90 | one rect per child, stacked with the gap of 8 |
| Cards.CardLayoutOverrunsSize | lumina/widgets/card.py:44-90 | calculate_size stacks without a gap but layout adds 8 between children, so at its calculated height the last child ends 8·(n − 1) past the content area |
| Cards.CardPadding | lumina/widgets/card.py:23-25 | the padding given, else 16 on every side |
| Cards.Card.constructor | lumina/widgets/card.py:13-42 | a plain container with the card padding, not hovered, nothing called |
| Cards.Card.CalculateSize | lumina/widgets/card.py:44-54 | the container size, plus the font height and 8 when there is a title |
| Cards.Card.Layout | lumina/widgets/card.py:56-90 | the card takes the rect; its children are stacked with a gap of 8 in the content area below the title |
| Cards.Card.HandleEvent | lumina/widgets/card.py:92-109 | motion updates hover and redraws a hoverable card on change; a left press inside a clickable card calls on_click and is consumed; everything else goes to the children |
| Cards.DialogBox | lumina/widgets/card.py:236-240 | the dialog has the modal's size and is centred in the rect |
| Cards.DialogContent | lumina/widgets/card.py:243-248 | the content area is 24 in from the sides and the bottom, below a 60-high title bar |
| Cards.CloseButton | lumina/widgets/card.py:277-282 | the close button is 32 square, 8 below the top, its right edge 8 in from the dialog's |
| Cards.ContentPressKeepsOpen | lumina/widgets/card.py:266-285 | a press in the content area never closes the modal |
| Cards.BackdropPressCloses | lumina/widgets/card.py:272-274 | a press outside the dialog closes it iff the modal is closable |
| Cards.OfferInOrder | lumina/widgets/card.py:293-295 | the content is offered the event in order, up to the first that consumes it |
| Cards.Modal.constructor | lumina/widgets/card.py:194-226 | the modal is opening, and each content widget is mounted with the modal as parent and no window |
| Cards.Modal.CalculateSize | lumina/widgets/card.py:228-230 | the modal takes exactly what it is offered, unbounded included |
| Cards.Modal.Layout | lumina/widgets/card.py:232-262 | the modal takes the rect, and its content is stacked with a gap of 8 in the centred dialog's content area |
| Cards.Modal.Close | lumina/widgets/card.py:299-303 | opening becomes false, and on_close is called when set |
| Cards.Modal.HandleEvent | lumina/widgets/card.py:264-297 | a closing event closes the modal; any other event goes to the content in order; the modal always consumes |
| Scrolling.MaxScroll | lumina/widgets/scrollable.py:177-178 | how far the content can scroll is max(0, content − viewport), 0 against an unbounded viewport |
| Scrolling.ClampScroll | lumina/widgets/scrollable.py:177-178 | the clamped offset lies in [0, limit] and equals the input when that is in range |
| Scrolling.ClampIdempotent | lumina/widgets/scrollable.py:177-178 | clamping an already clamped offset changes nothing |
| Scrolling.WheelScroll | lumina/widgets/scrollable.py:176-178 | a wheel step moves 30 a notch and stays in [0, limit] |
| Scrolling.WheelRoundTrip | lumina/widgets/scrollable.py:176-178 | scrolling back by the same notches undoes an in-range step |
| Scrolling.ThumbRatio | lumina/widgets/scrollable.py:129 | the share of the content the viewport shows |
| Scrolling.ThumbLength | lumina/widgets/scrollable.py:129-130 | the thumb is at least 20 long and no longer than the larger of 20 and the viewport |
| Scrolling.ThumbAtEnds | lumina/widgets/scrollable.py:132-133 | scroll 0 puts the thumb at the track's start, and the largest scroll puts it at the end |
| Scrolling.ThumbWithinTrack | lumina/widgets/scrollable.py:130-133 | an in-range scroll keeps the thumb inside the track |
| Scrolling.ThumbMonotone | lumina/widgets/scrollable.py:132-133 | a larger scroll never moves the thumb back |
| Scrolling.DragMovesThumb | lumina/widgets/scrollable.py:206-212 | while a drag stays unclamped, the thumb moves exactly with the mouse |
| Scrolling.ScrollBars | lumina/widgets/scrollable.py:117-168 | a bar and thumb exist on an axis iff it scrolls and the content exceeds the viewport |
| Scrolling.VThumbInsideBar | lumina/widgets/scrollable.py:128-140 | in a viewport at least 20 high, the vertical thumb lies inside its track and is at least 20 long |
| Scrolling.HThumbInsideBar | lumina/widgets/scrollable.py:154-165 | in a viewport at least 20 wide, the horizontal thumb lies inside its track |
| Scrolling.LaidViewport | lumina/widgets/scrollable.py:75-96 | the vertical bar takes its width off when the content is taller, then the horizontal bar its height when wider than what is left |
| Scrolling.VerticalBarPastRightEdge | lumina/widgets/scrollable.py:91-96 | content just shorter than the rect and wider than it gets a vertical bar drawn outside the rect, with no width taken off for it |
| Scrolling.CollideRectSharesPoint | lumina/widgets/scrollable.py:238-254 | two rects that collide share a point inside both |
| Scrolling.OfferShown | lumina/widgets/scrollable.py:230-236 | the event goes to the first visible child overlapping the viewport that consumes it, in order |
| Scrolling.MeasureContent | lumina/widgets/scrollable.py:80-89 | the content is the widest child by the sum of every height plus 8, the last included |
| Scrolling.ContentIsStackExtent | lumina/widgets/scrollable.py:83-89 | the measured content is the stack's extent with a gap after every child |
| Scrolling.ScrollView.constructor | lumina/widgets/scrollable.py:13-48 | nothing is scrolled, measured or dragged yet |
| Scrolling.ScrollView.CalculateSize | lumina/widgets/scrollable.py:50-69 | the content is the container size; the viewport is the offer less a bar for each bar needed; the view asks for all it is offered |
| Scrolling.ScrollView.UpdateScrollbars | lumina/widgets/scrollable.py:117-168 | the bar fields become ScrollBars of the current state, and nothing else changes |
| Scrolling.ScrollView.MeasureView | lumina/widgets/scrollable.py:75-96 | the content is measured at the rect's width, and the viewport settles on LaidViewport |
| Scrolling.ScrollView.PlaceChildren | lumina/widgets/scrollable.py:98-112 | each child is placed at its scrolled place in the stack |
| Scrolling.ScrollView.Layout | lumina/widgets/scrollable.py:71-115 | the view takes the rect, measures, settles the viewport, places the children shifted by the scroll and updates the bars |
| Scrolling.ScrollView.WheelStep | lumina/widgets/scrollable.py:175-181 | scroll_y moves 30 a notch clamped to its range, the bars are updated, and one redraw is requested |
| Scrolling.ScrollView.StartDragVertical | lumina/widgets/scrollable.py:186-190 | the vertical drag starts from the mouse's y and the current scroll_y |
| Scrolling.ScrollView.StartDragHorizontal | lumina/widgets/scrollable.py:193-197 | the horizontal drag starts from the mouse's x and the current scroll_x |
| Scrolling.ScrollView.DragVertical | lumina/widgets/scrollable.py:204-215 | with a positive range, scroll_y follows the mouse's share of the range, clamped, and the view is laid out again; otherwise nothing changes |
| Scrolling.ScrollView.DragHorizontal | lumina/widgets/scrollable.py:217-228 | the vertical drag rule on the other axis |
| Scrolling.ScrollView.EndDrags | lumina/widgets/scrollable.py:199-201 | a release ends both drags |
| Scrolling.ScrollView.OfferToShown | lumina/widgets/scrollable.py:230-236 | the children the viewport shows get the event in order; consumed iff one takes it |
| Scrolling.ScrollView.HandleEvent | lumina/widgets/scrollable.py:170-236 | wheel over the view scrolls; a press on a thumb starts a drag; a release ends drags; motion while dragging is always consumed; the rest goes to shown children |
| Scrolling.ViewportRect | lumina/widgets/scrollable.py:240-245 | the viewport rect is the view's corner at the viewport's size |
| Scrolling.ScrollChildRects | lumina/widgets/scrollable.py:99-112 | each child is stacked with a gap of 8 from the padded corner less the scroll, no wider than the viewport less padding |
| Scrolling.ScrollShiftsChildren | lumina/widgets/scrollable.py:99-112 | scrolling shifts every child by the scroll and changes nothing else |

## Left out

- Painting: every `render` and `_draw_*` body, the ModernGraphics drawing, shadow, blur and gradient routines, and blitting are not modelled. Only the rules that decide geometry and state are.
- Font and glyph measurement, the platform font lookup, DPI scaling and emoji substitution are parameters. `TextRenderer.render_text` is counted as a surface rebuild.
- The time-driven animations are not modelled: `_update_animations` of TextInput, Card and Modal, and the cursor blink. ModernButton's snap rule is modelled because it does not depend on time.
- `Window.run`, the App and DisplayManager plumbing, pygame initialisation, `set_mode` and `display.flip` are not modelled. The window's surface is the flag `hasSurface`.
- pygame events are the datatype `Event`. `pygame.mouse.get_pos()` and `pygame.key.get_pressed()` are parameters (`mouseX`, `mouseY`, `ctrl`).
- asyncio: scheduling an asynchronous observer appends it to the log `scheduled`. The created asyncio Task is not modelled.
- WeakSet collection is not modelled. Observer sets are explicit sets.
- Reactive.Computed.SubscribeToDependencies: lumina/core/reactive.py:72 subscribes the bound method `self._mark_dirty`, created on the spot, and drops the returned unsubscribe, which was its only strong reference. In CPython the WeakSet therefore loses it as soon as `subscribe` returns, so a dependency's change never marks the Computed dirty. The model keeps the subscription and models the evident intent.
- The order in which a WeakSet yields its members is unspecified. `Enumerate` gives each member once in some order, and the model fixes no order.
- Themes are configuration data, so a theme is an opaque number.
- pygame.Rect truncates coordinates to integers and normalises negative sizes. Rects here are real-valued and never normalised. `collidepoint` is the half-open test on reals, and `colliderect` is modelled for rects of positive size.
- `float('inf')` is the `Extent` value `Unbounded`.
- `Scrolling.ThumbRatio`: a content of 0 would raise ZeroDivisionError in the source; the model uses a ratio of 0. That thumb is only used when the content exceeds the viewport.
- Scrolling.ScrollView.HandleEvent: requires a finite viewport (`ViewportKnown`), which layout always leaves. After a calculate_size with an unbounded offer and before any layout, the source would compute with inf; the model does not cover that state.
- Scrolling.ScrollView.UpdateScrollbars: requires a finite viewport, for the same reason.
- Scrolling.ScrollView.HandleEvent: in the drag cases, the contract does not restate that the other axis's scroll and the drag fields are kept. The modifies clauses of DragVertical and DragHorizontal leave those fields out, which implies it.
- Scrolling.ScrollView.DragVertical: the invalidation is counted before the re-layout rather than after. Nothing in the model observes that order.
- Card and Modal style assignments are not modelled: border radius 12, the cursor and elevation.
- `invalidate()` is modelled as a counter on widgets that do not hold a window link. The Tree widgets forward to the window's throttle.
- Tree.Container: children are base widgets, one level deep, and a subclass's behaviour is reached only through `measure` and `accepts`. Nested containers would need a recursive heap structure, which is not modelled.
- Tree.Container.constructor, Tree.Window.constructor, Cards.Card.constructor, Cards.Modal.constructor and Scrolling.ScrollView.constructor: each requires that no widget appears twice among the children. The source permits duplicates, but then mounting twice and `list.remove` would touch the same object twice; the model does not cover such trees.
- Tree.Container.AddChild, Tree.Window.AddChild: a duplicate child is appended and mounted again, as in the source, but the tree is then no longer `Valid()`, and the other operations, which require `Valid()`, are not available on it.
- Tree.Container.AddChild: a container that adds itself while mounted raises RecursionError in the source. The model reports it as `raised` and does not promise what the partial mount left behind, beyond the appended list.
- DataTable.Table.constructor: `rows_per_page` is a `nat`, so a negative page size is not modelled. A page size of 0 is, and `TotalPages` raises ZeroDivisionError for it as the source does.
- Graphics.LightenChannel, Graphics.DarkenChannel, Buttons.BlendChannel: Python's float arithmetic is modelled as exact reals. `int()` of a float result can come out one lower than the exact value (`int(10 * (1 - 0.9))` is 0 in floats and 1 in the model).
- Buttons.BlendChannelBounds, Buttons.ApplyOverlayDefined: the bounds hold in exact arithmetic. In floats a channel can come out one below its lower bound (base = overlay = 3 with alpha 0.3 gives 2).
- Graphics.LightenColor, Graphics.DarkenColor, DataTable.Table.constructor: Python's default arguments (`factor=0.1`, `rows_per_page=10`) are not modelled; the model always takes them as explicit parameters.
- `Window._focused_widget` is set to None in `__init__` and assigned nowhere in the source. The model keeps the field and routes keys to it, but nothing sets it.
- `Window.set_theme` prints the theme's primary colour. Printing is not modelled.
- TextInput's `_apply_size_style` (font size per size class) and its hover and focus styling are not modelled. Only the padding defaults per size are.
- Cards.CardPadding, Input.TextInput.constructor: the padding argument is an `Option`, so an explicit `padding=None` is the same as no padding argument. The source tests only whether the key is absent (lumina/widgets/card.py:24, lumina/widgets/input.py:28). An explicit None reaches `padding or Padding()` (lumina/core/widget.py:26) and gives zero padding, where the model gives the card's 16 or the size class's padding.
- DataTable: a row's identity `id(row)` is the field `Row.id`. Rendering of the header, rows and pagination bar is not modelled.
- DataTable.Table.SortData: when Python cannot compare the keys, the model returns `ok == false` with the rows only permuted. CPython may leave the list partly reordered after the TypeError, so the model does not say which permutation.
- TextWidgets.Label: Text is modelled as a class of its own, not as a child in the Tree module. Its `lastText` and `surfaceColor` are Text's own render cache; `Tree.ClearCaches`, which drops `Tree.Widget.cached`, is not connected to it.
- Text's word wrapping for Paragraph is a TODO in the source, so there is nothing to model.
- `Style.get_font` takes the family, the DPI-scaled size and the bold and italic flags from the parameter `resolve`. The platform lookup order is not modelled.
