# mockingbird wireframe editor — a verified model

mockingbird is a browser editor for wireframes. A page is a grid of cells,
8 rows by 8 columns at first. Components from a palette (buttons, cards,
tables, charts, …) are dropped onto the grid. Each component sits at a
top-left cell and covers a rectangle of cells given by its span. It carries
a property record that a side pane edits. Pages are shown as tabs, and on a
journey canvas they are cards that can be linked by connections. The layout
can be exported as a text prompt for a code generator.

This project models the editor's logic in Dafny and proves the properties
that logic promises:

- `Grid`: the grid store. That is the cell lookups, occupancy, add, move, resize,
  update, delete, clear, the cell enumeration, the row and column controls,
  and the `(row, col)` ordering used by the export and the page cards.
  The stateful part is the class `Grid.WireframeGrid`.
- `Journey`: the journey canvas, with page-card dragging, connection creation,
  colours, edge styles and deletion. The class is `Journey.JourneyCanvas`.
- `Resizer`: the resize handles, mapping a mouse displacement to a span.
- `Export`: the prompt generator. `Export.GeneratePrompt` builds the text
  by appending, as the dialog does, one block per component in a loop. It
  is proved equal to the text of `Export.PromptLines`, a list of typed lines.
- `Tabs`: page renaming and the grid-size inputs, in the class `Tabs.PageTabs`.
- `Properties`: the properties pane, covering the one-key record update and
  remove, append and field edits on array-valued properties.
- `Sidebar`: the palette, covering its categories, search, expand/collapse
  and property change. The class is `Sidebar.ComponentSidebar`.
- `JsValue` and `JsText`: the JavaScript semantics the editor relies on.
  These are property records whose keys keep insertion order (true of the non-numeric keys the editors use), truthiness,
  `String(v)`, `JSON.stringify`, `parseInt`, `trim`, `toLowerCase` and
  `includes`. An array slot that was never assigned is a hole: reading it
  or spreading the array gives `undefined`, `filter` and `map` skip it, and
  JSON writes `null` for it.

Component ids come from `Date.now()` in the editor. Here they are a
`freshId` parameter (`stamp` for the text of the timestamp). The store's
`pendingComponentType` is `Option<string>`, and the empty string counts as
no pending type, as JavaScript truthiness has it.

A drop onto a covered cell is always rejected, even when the only component
covering that cell is the one being dragged. The model follows the handler
in this (`src/components/WireframeGrid.tsx:58-59`).

## Model

| member | source | states |
|---|---|---|
| Grid.IsCellOccupied | src/components/WireframeGrid.tsx:149-156 | true exactly when some content's rectangle `[row,row+rows) × [col,col+cols)` covers the cell |
| Grid.ContentForCell | src/components/WireframeGrid.tsx:140-147 | returns a content exactly when the cell is occupied, and then it is the first content in list order that covers the cell |
| Grid.IsCellMainContent | src/components/WireframeGrid.tsx:158-163 | true exactly when some content's top-left position is the cell |
| Grid.MainContentIsOccupied | src/components/WireframeGrid.tsx:149-163 | when every span is at least 1, a cell holding a top-left position is occupied |
| Grid.DisjointCoverUnique | src/components/WireframeGrid.tsx:140-147 | in a layout with pairwise disjoint rectangles, no cell is covered by two contents |
| Grid.NewContent | src/components/WireframeGrid.tsx:87-93 | a new content has span 1×1, the given position and no properties, and covers exactly its own cell |
| Grid.AddKeepsDisjoint | src/components/WireframeGrid.tsx:83-97 | appending a 1×1 content on an uncovered cell keeps all rectangles pairwise disjoint |
| Grid.FindById | src/components/WireframeGrid.tsx:62 | finds nothing exactly when no content has the id, and otherwise the first content of the list with that id |
| Grid.MoveTo | src/components/WireframeGrid.tsx:66-70 | same length; the contents with the id get the new position and every other content is unchanged |
| Grid.MoveKeepsEverythingElse | src/components/WireframeGrid.tsx:66-70 | a move keeps every content's id, type, span and properties, and changes only the moved content's position |
| Grid.ClampSpanBounds | src/components/WireframeGrid.tsx:116-122 | the clamp `Grid.ClampSpan` of `handleResizeContent`: the clamped span is at least 1×1, stays inside the grid when the anchor is inside, honours an in-range request exactly, and clamping twice is clamping once |
| Grid.Resized | src/components/WireframeGrid.tsx:111-126 | same length; only contents with the id change, and only their span, which becomes the clamped request |
| Grid.ResizedWithinGrid | src/components/WireframeGrid.tsx:111-126 | after a resize the target's rectangle ends inside the grid in both dimensions and is at least 1×1 |
| Grid.ResizeIdempotent | src/components/WireframeGrid.tsx:111-126 | applying the same resize request twice gives the same layout as applying it once |
| Grid.MergeLaws | src/components/WireframeGrid.tsx:102 | `Grid.Merge`, the `{...content, ...updates}` of `handleUpdateContent`: merging no fields is the identity, merging twice is merging once, and a given `properties` replaces the record whole |
| Grid.Updated | src/components/WireframeGrid.tsx:99-104 | same length; exactly the contents with the id are merged with the updates and the others are unchanged |
| Grid.Deleted | src/components/WireframeGrid.tsx:128-130 | the result holds exactly the contents whose id differs, with none added |
| Grid.DeleteAbsent | src/components/WireframeGrid.tsx:128-130 | deleting an id that no content has leaves the list unchanged |
| Grid.DeleteDistributes | src/components/WireframeGrid.tsx:128-130 | deletion distributes over concatenation, so the remaining contents keep their order |
| Grid.DeleteCounts | src/components/WireframeGrid.tsx:128-130 | deletion keeps every other content with its multiplicity and removes every copy of the id |
| Grid.Cells | src/components/WireframeGrid.tsx:202-207 | the enumeration has `rows*cols` cells |
| Grid.CellsInGrid | src/components/WireframeGrid.tsx:202-207 | cell `i` is `(i / cols, i % cols)`, lies inside the grid and has index `row*cols+col` back |
| Grid.CellsCoverGrid | src/components/WireframeGrid.tsx:202-207 | every cell of the grid appears in the enumeration at index `row*cols+col`, so the enumeration is a bijection |
| Grid.ViewOfCellCorrect | src/components/WireframeGrid.tsx:209-216 | in a disjoint layout a cell shows its content when it is that content's top-left cell, is hidden when it is covered otherwise, and is empty when uncovered |
| Grid.InsertByPosition | src/components/ExportModal.tsx:20-25 | inserting into a list sorted by `(row, col)` keeps it sorted and adds exactly the one content |
| Grid.SortByPosition | src/components/ExportModal.tsx:20-25 | the result is sorted by `(row, col)` and is a permutation of the input |
| Grid.WireframeGrid.constructor | src/components/WireframeGrid.tsx:27-32 | the store starts 8×8 with no contents, no selection and no pending type |
| Grid.WireframeGrid.AddRow | src/components/WireframeGrid.tsx:35 | adds exactly one row |
| Grid.WireframeGrid.RemoveRow | src/components/WireframeGrid.tsx:36 | removes one row but never goes below 1 |
| Grid.WireframeGrid.AddCol | src/components/WireframeGrid.tsx:37 | adds exactly one column |
| Grid.WireframeGrid.RemoveCol | src/components/WireframeGrid.tsx:38 | removes one column but never goes below 1 |
| Grid.WireframeGrid.HandleComponentSelect | src/components/WireframeGrid.tsx:78-81 | arms the type as pending and clears the selected content |
| Grid.WireframeGrid.HandleAddContent | src/components/WireframeGrid.tsx:83-97 | with an explicit position, or else the selected cell, appends exactly one new content there and clears the selected cell; with neither it changes nothing |
| Grid.WireframeGrid.HandleCellClick | src/components/WireframeGrid.tsx:40-54 | a covered cell selects its first covering content and clears cell and pending type; an uncovered cell with a pending type (not the falsy `""`) adds it there and disarms it; otherwise it selects the cell; disjointness is preserved |
| Grid.WireframeGrid.HandleCellDrop | src/components/WireframeGrid.tsx:56-76 | a drop on any covered cell changes nothing; a drop of an existing id moves that content only; any other payload adds a content of that type, clears the selected cell and disarms the pending type, and that addition keeps a disjoint layout disjoint |
| Grid.WireframeGrid.HandleUpdateContent | src/components/WireframeGrid.tsx:99-109 | the contents become the merged list, and the selected content is merged too when it has that id; contents whose properties have distinct keys keep them distinct under an update that brings distinct keys |
| Grid.WireframeGrid.HandleResizeContent | src/components/WireframeGrid.tsx:111-126 | the contents become the resize of the old list within the current grid |
| Grid.WireframeGrid.HandleDeleteContent | src/components/WireframeGrid.tsx:128-130 | the contents become the old list without that id |
| Grid.WireframeGrid.HandleClearAll | src/components/WireframeGrid.tsx:132-134 | the contents become empty |
| Journey.ConnectionIndex | src/components/JourneyCanvas.tsx:78 | `findIndex`: -1 exactly when no connection has the id, and otherwise the first index with the id |
| Journey.ConnectionColor | src/components/JourneyCanvas.tsx:77-80 | `getConnectionColor` gives no colour exactly when no connection has the id, and otherwise one of the eight palette colours |
| Journey.ColorByPosition | src/components/JourneyCanvas.tsx:77-80 | with unique ids, the `i`-th connection is drawn in palette colour `i mod 8` |
| Journey.ColorsCycleEvery8 | src/components/JourneyCanvas.tsx:77-80 | connections whose positions agree modulo 8 get the same colour |
| Journey.StyleOf | src/components/JourneyCanvas.tsx:180-210 | an edge is dashed and labelled as a UI connection exactly when it starts and ends on the same page, and its stroke and end marker take the colour `getConnectionColor` gives it |
| Journey.WithoutConnection | src/components/JourneyCanvas.tsx:150-152 | keeps exactly the connections with another id, with none added |
| Journey.WithoutAbsent | src/components/JourneyCanvas.tsx:150-152 | deleting an id that no connection has changes nothing |
| Journey.WithoutDistributes | src/components/JourneyCanvas.tsx:150-152 | deletion distributes over concatenation, so the other connections keep their order |
| Journey.WithoutCounts | src/components/JourneyCanvas.tsx:150-152 | deletion keeps every other connection with its multiplicity |
| Journey.FindNode | src/components/JourneyCanvas.tsx:84 | finds nothing exactly when no card has the page id, and otherwise the first card of that page |
| Journey.NodePosition | src/components/JourneyCanvas.tsx:154-156 | the card's position, or `(0, 0)` when the page has no card |
| Journey.DraggedTo | src/components/JourneyCanvas.tsx:96-100 | same length; only the dragged page's card moves, to the given point |
| Journey.DragBackRestores | src/components/JourneyCanvas.tsx:82-102 | moving the cursor back to where the drag started puts every card back where it was, with the offset `Journey.Offset` taken at mouse-down (cursor minus card position) |
| Journey.DraggedTwice | src/components/JourneyCanvas.tsx:96-100 | a later move of the dragged page overrides an earlier one |
| Journey.GestureFollowsLast | src/components/JourneyCanvas.tsx:94-102 | after any sequence of mouse moves, `Journey.Gesture`, the cards are where the last cursor position alone puts them |
| Journey.GestureBackRestores | src/components/JourneyCanvas.tsx:82-102 | a drag that moves anywhere and ends with the cursor back at the mouse-down point leaves every card where it was |
| Journey.CardComponents | src/components/JourneyCanvas.tsx:261-267 | a page card lists the page's components sorted by `(row, col)`, as a permutation |
| Journey.JourneyCanvas.constructor | src/components/JourneyCanvas.tsx:54-58 | the canvas starts from the given cards and connections, with no drag and no pending connection |
| Journey.JourneyCanvas.HandleNodeMouseDown | src/components/JourneyCanvas.tsx:82-92 | on a page with a card, starts dragging it with the cursor's offset from the card; otherwise changes nothing |
| Journey.JourneyCanvas.HandleMouseMove | src/components/JourneyCanvas.tsx:94-102 | while a card is dragged it moves to cursor minus offset; otherwise changes nothing |
| Journey.JourneyCanvas.HandleMouseUp | src/components/JourneyCanvas.tsx:104-106 | ends dragging |
| Journey.JourneyCanvas.HandleComponentClick | src/components/JourneyCanvas.tsx:108-128 | the first click records the source; the second appends one connection unless it is the same component, and always clears the source |
| Journey.JourneyCanvas.HandlePageClick | src/components/JourneyCanvas.tsx:130-144 | only when the source is a component, appends one connection to the page and clears the source; otherwise changes nothing |
| Journey.JourneyCanvas.HandleCanvasClick | src/components/JourneyCanvas.tsx:146-148 | cancels a pending connection |
| Journey.JourneyCanvas.HandleDeleteConnection | src/components/JourneyCanvas.tsx:150-152 | the connections become the old list without that id |
| Resizer.RoundedCells | src/components/ContentResizer.tsx:39-45 | `Math.round(delta / 108)`: the integer `k` with `108k - 54 <= delta < 108k + 54` |
| Resizer.RoundedCellsUnique | src/components/ContentResizer.tsx:39-45 | any integer in that rounding band is the rounded value |
| Resizer.NewSpan | src/components/ContentResizer.tsx:34-47 | the east handle keeps the rows and the south handle keeps the columns; a changed dimension is the start span plus the displacement rounded to whole 108-pixel cells, clamped to at least 1 and to the grid edge, so it is at least 1 and ends inside the grid |
| Resizer.Emitted | src/components/ContentResizer.tsx:49-52 | a resize is emitted exactly when the new span differs from the span at mouse-down, and it is the new span |
| Resizer.SmallMoveEmitsNothing | src/components/ContentResizer.tsx:37-52 | a displacement of under half a cell in both axes emits nothing when the start span fits the grid |
| Resizer.ZeroMoveClampsOversized | src/components/ContentResizer.tsx:37-52 | once the grid has shrunk below the component, even a zero displacement emits the span clamped to the edge |
| Resizer.GestureAsWrittenKeepsStaleSpan | src/components/ContentResizer.tsx:49-52 | dragging the south handle one row down and back leaves a 1×1 component 2 rows tall |
| Resizer.NewSpanIsClamped | src/components/ContentResizer.tsx:37-47 | for a fitting start span the computed span already satisfies the store's clamp |
| Resizer.GestureCorrectedFollowsLastMove | src/components/ContentResizer.tsx:25-52 | with the change test against the current span, a gesture ends at the span of its last displacement |
| Export.Capitalize | src/components/ExportModal.tsx:39 | the first character is upper-cased (ASCII only), the rest is kept, and the length is unchanged |
| Export.GuidanceFor | src/components/ExportModal.tsx:59-90 | a type gets a guidance line exactly when it is one of button, input, card, table, badge, avatar, tabs, accordion, alert and sidebar |
| Export.BlockFacts | src/components/ExportModal.tsx:36-93 | a block opens with its number and capitalised type and then the 1-based position; a span line appears iff the span exceeds 1×1; a properties header appears iff there are properties, with one line per key in key order; the type's guidance line appears if it has one; a blank line closes the block |
| Export.BodyHeadings | src/components/ExportModal.tsx:36-39 | the body's component headings are numbered 1..n in list order |
| Export.FrameHasNoHeadings | src/components/ExportModal.tsx:28-100 | the header and the footer contain no component heading |
| Export.PromptHeadings | src/components/ExportModal.tsx:28-100 | the headings of a whole prompt are those of its body, numbered 1..n |
| Export.PromptFacts | src/components/ExportModal.tsx:20-39 | the header states the rows and columns; the components are listed as a `(row, col)`-sorted permutation of the layout, and the prompt's headings are numbered 1..n and carry the capitalised types in that order |
| Export.JoinedConcat | src/components/ExportModal.tsx:28-100 | the text of two line lists back to back is the two texts back to back |
| Export.AppendLine | src/components/ExportModal.tsx:39-40 | one `prompt +=` adds exactly the text of one more line and its newline |
| Export.TopText | src/components/ExportModal.tsx:39-40 | writes the numbered, capitalised heading and then the 1-based position |
| Export.SpanText | src/components/ExportModal.tsx:42-44 | writes the span line only for a component larger than one cell |
| Export.PropertiesText | src/components/ExportModal.tsx:47-56 | writes the properties header and one line per key in key order, and nothing for a component without properties |
| Export.GuideText | src/components/ExportModal.tsx:59-90 | writes the guidance line only when the type has one |
| Export.BlockText | src/components/ExportModal.tsx:36-93 | the per-component loop body appends exactly the text of that component's block |
| Export.BodyText | src/components/ExportModal.tsx:36-93 | the `forEach` appends the blocks of the sorted list numbered from 1 |
| Export.GeneratePrompt | src/components/ExportModal.tsx:18-103 | the generated prompt is exactly the text of `Export.PromptLines` (the header, the sorted blocks and the footer), each line written out by `Export.Render` with the source's texts and followed by a newline |
| Tabs.CommitRename | src/components/PageTabs.tsx:65-70 | a rename is sent exactly when the edited name has a non-whitespace character, with the trimmed name, which starts and ends with a non-space |
| Tabs.PositiveValue | src/components/PageTabs.tsx:186-211 | a value is reported exactly when `parseInt` of the text is a number greater than 0 |
| Tabs.PositiveValueOfDimension | src/components/PageTabs.tsx:48-58 | the printed current dimension parses back to itself when it is positive |
| Tabs.BlurredInput | src/components/PageTabs.tsx:191-221 | on blur, valid text is kept and invalid text becomes the current dimension, which is then valid |
| Tabs.BlurIdempotent | src/components/PageTabs.tsx:191-197 | blurring twice is blurring once |
| Tabs.ControlsOf | src/components/PageTabs.tsx:115-241 | each tab has a delete control iff there is more than one page; Clear and Preview are disabled iff there are no contents |
| Tabs.PageTabs.constructor | src/components/PageTabs.tsx:46-49 | no tab is being edited, and the inputs show the current dimensions |
| Tabs.PageTabs.SyncCols | src/components/PageTabs.tsx:52-54 | the columns input shows the new dimension |
| Tabs.PageTabs.SyncRows | src/components/PageTabs.tsx:56-58 | the rows input shows the new dimension |
| Tabs.PageTabs.HandleDoubleClick | src/components/PageTabs.tsx:60-63 | editing starts on that page, from its current name |
| Tabs.PageTabs.HandleEditChange | src/components/PageTabs.tsx:99 | the edited name becomes the typed text |
| Tabs.PageTabs.HandleBlur | src/components/PageTabs.tsx:65-70 | sends the committed rename, if any, and always leaves editing |
| Tabs.PageTabs.HandleKeyDown | src/components/PageTabs.tsx:72-78 | Enter behaves as blur, Escape leaves editing without a rename, other keys change nothing |
| Tabs.PageTabs.HandleColsChange | src/components/PageTabs.tsx:184-190 | the text always updates, and a value is reported only when it is a positive number |
| Tabs.PageTabs.HandleColsBlur | src/components/PageTabs.tsx:191-197 | the columns text becomes the blurred text |
| Tabs.PageTabs.HandleRowsChange | src/components/PageTabs.tsx:208-214 | the text always updates, and a value is reported only when it is a positive number |
| Tabs.PageTabs.HandleRowsBlur | src/components/PageTabs.tsx:215-221 | the rows text becomes the blurred text |
| Properties.PropertyChange | src/components/PropertiesPane.tsx:27-30 | the update goes to the selected id; the key gets the value, every other key keeps its value, and distinct keys stay distinct |
| Properties.GetArrayProp | src/components/PropertiesPane.tsx:32-34 | the stored array, or `[]` when nothing or a falsy value is stored |
| Properties.Displayed | src/components/PropertiesPane.tsx:139-142 | an editor shows the stored array when it is non-empty and the defaults otherwise (the same code recurs at lines 260-264, 325-327, 435) |
| Properties.PresentHasNoHoles | src/components/PropertiesPane.tsx:281 | the elements `filter` visits are never holes and are no more than the array's slots (the same code recurs at lines 168, 345, 451) |
| Properties.PresentOfNoHoles | src/components/PropertiesPane.tsx:281 | `filter` visits every element of an array without holes |
| Properties.RemoveAtPresent | src/components/PropertiesPane.tsx:168 | `filter((_, i) => i !== index)` keeps, in order, every element that is not a hole except element `index`; an index outside the array drops only the holes (the same code recurs at lines 281, 345, 451) |
| Properties.RemoveAtHasNoHoles | src/components/PropertiesPane.tsx:168 | a removal never stores a hole |
| Properties.RemoveAtShape | src/components/PropertiesPane.tsx:168 | on an array without holes, an in-range removal is the array without element `index`: one shorter, earlier elements kept and later ones shifted down by one (the same code recurs at lines 281, 345, 451) |
| Properties.RemoveFromDefaults | src/components/PropertiesPane.tsx:139-168 | with nothing stored the defaults are shown, but a removal stores `[]` |
| Properties.Appended | src/components/PropertiesPane.tsx:180 | `[...stored, element]`: the old elements come first, each hole read as `undefined`, then the new element; without holes the old array is kept as a prefix unchanged (the same code recurs at lines 304, 368, 463) |
| Properties.AppendedTabNumbered | src/components/PropertiesPane.tsx:304-308 | a new tab is labelled `Tab n` with content `Content for Tab n`, where `n` is the new length |
| Properties.AppendedSectionNumbered | src/components/PropertiesPane.tsx:368-372 | a new section is titled `Section n`, where `n` is the new length |
| Properties.AppendedMenuItemNumbered | src/components/PropertiesPane.tsx:463 | a new menu item is `New Item n`, where `n` is the new length |
| Properties.WithField | src/components/PropertiesPane.tsx:148 | `{...element, [key]: value}` has the key set and every other field of the element unchanged (the same code recurs at lines 158, 271, 292, 335, 356) |
| Properties.ElementAt | src/components/PropertiesPane.tsx:147 | `newRows[index]` on the copy `[...stored]` is never a hole: holes and slots past the end read as `undefined` |
| Properties.EditedAsWritten | src/components/PropertiesPane.tsx:146-149 | a field edit sets `key` on element `index` (read from the spread copy, so a hole or a slot past the end is `undefined`); every other element is the copy's, with old holes read as `undefined`, and an index past the end leaves holes between the old end and `index` (the same code recurs at lines 270-272, 334-336) |
| Properties.AssignAt | src/components/PropertiesPane.tsx:147-148 | `[...stored]` then `copy[index] = x`: element `index` is `x`, the other old slots are the spread copy with holes read as `undefined`, and the array grows past the end with holes (the same code recurs at line 441) |
| Properties.EditField | src/components/PropertiesPane.tsx:146-149 | the in-place edit on the copy computes the field edit (the same code recurs at lines 156-159, 270-272, 291-293, 334-336, 355-357) |
| Properties.EditMenuItem | src/components/PropertiesPane.tsx:440-442 | element `index` becomes the typed text and every other element is kept |
| Properties.EditOfDefaultDropsRows | src/components/PropertiesPane.tsx:260-272 | with no tabs stored, editing the first default tab's label stores a single tab without id or content |
| Properties.RemoveAfterPastEndEdit | src/components/PropertiesPane.tsx:270-281 | editing the third shown default tab with nothing stored stores two holes and the edited tab; removing that tab then stores `[]`, because `filter` skips the holes, and the defaults are shown again |
| Properties.AppendAfterPastEndEdit | src/components/PropertiesPane.tsx:304 | adding a tab after that edit spreads the holes into two `undefined` elements, so removing the new tab keeps three elements, the first two `undefined` |
| Properties.EditedShown | src/components/PropertiesPane.tsx:260-272 | the corrected edit changes row `index` of the shown list and keeps its length and every other shown row |
| Properties.EditedShownKeepsOtherRows | src/components/PropertiesPane.tsx:260-272 | after the corrected edit the editor shows the old list with only row `index` changed |
| Sidebar.Flatten | src/components/ComponentSidebar.tsx:71 | the flat list holds exactly the components of the categories |
| Sidebar.ComponentsShape | src/components/ComponentSidebar.tsx:30-71 | the flat list is the two categories back to back, 28 entries |
| Sidebar.ComponentKindsDistinct | src/components/ComponentSidebar.tsx:30-71 | no component type appears twice in the palette |
| Sidebar.FilterItems | src/components/ComponentSidebar.tsx:89-91 | keeps exactly the components whose lower-cased label contains the lower-cased query |
| Sidebar.FilterItemsAppend | src/components/ComponentSidebar.tsx:89-91 | filtering distributes over concatenation, so the kept components keep their order |
| Sidebar.FilterCategories | src/components/ComponentSidebar.tsx:87-92 | every category is one of the input's with its components filtered, and none is left empty |
| Sidebar.FilterCategoriesOne | src/components/ComponentSidebar.tsx:87-92 | a category survives exactly when one of its components matches, and it then keeps only the matches |
| Sidebar.FilterCategoriesAppend | src/components/ComponentSidebar.tsx:87-92 | category filtering distributes over concatenation, so the categories keep their order |
| Sidebar.Filtered | src/components/ComponentSidebar.tsx:86-93 | an empty query returns the categories unchanged; any other query filters them |
| Sidebar.EmptyQueryMatchesAll | src/components/ComponentSidebar.tsx:89-91 | every label contains the empty query |
| Sidebar.Toggled | src/components/ComponentSidebar.tsx:73-83 | the toggled name flips membership and every other name keeps it |
| Sidebar.ToggleTwice | src/components/ComponentSidebar.tsx:73-83 | toggling a name twice restores the set |
| Sidebar.SidebarPropertyChange | src/components/ComponentSidebar.tsx:220-228 | nothing happens without a selection; otherwise the selected id gets its properties with one key set and the others kept |
| Sidebar.ComponentSidebar.constructor | src/components/ComponentSidebar.tsx:24-28 | the query starts empty, and "Components" and "Data Viz" start expanded |
| Sidebar.ComponentSidebar.ToggleCategory | src/components/ComponentSidebar.tsx:73-83 | the expanded set becomes the old set with that name toggled |
| Sidebar.ComponentSidebar.SetSearchQuery | src/components/ComponentSidebar.tsx:24 | the query becomes the typed text |
| Sidebar.ComponentSidebar.Visible | src/components/ComponentSidebar.tsx:86-93 | the listed categories are all of them for an empty query, and never an empty category |
| JsText.ParseIntOfIntToString | src/components/PageTabs.tsx:48-49 | `parseInt(n.toString())` is `n`, so the initial input text parses (line 186) back to the dimension |
| JsText.TrimNonEmptyIff | src/components/PageTabs.tsx:66 | a trimmed string is non-empty exactly when some character is not whitespace |
| JsText.Includes | src/components/ComponentSidebar.tsx:90 | `s.includes(sub)` holds exactly when `sub` occurs in `s` at some index |
| JsValue.Get | src/components/PropertiesPane.tsx:33 | `p[k]` is undefined exactly when no field has the key, and otherwise the value of a field with that key |
| JsValue.Set | src/components/PropertiesPane.tsx:28 | `{...p, [k]: v}` maps the key to the value and keeps every other key; an existing key keeps its place and a new one goes at the end (for the non-numeric keys the editors write) |

## Left out

- Rendering is not modelled: the JSX, CSS, the shadcn components, the
  sidebar previews and the property editor markup. They only display state.
- Browser side effects are not modelled. That covers drag images and their
  timers, the document listeners of the resize handles, the clipboard and
  its copy timer, and `dataTransfer` payloads. A drop's payload is a string
  parameter.
- `Date.now()` ids are not generated. They are parameters, and two
  additions in the same millisecond collide in the editor. The model does
  not rule that out.
- Cursor geometry uses integer coordinates. Floating-point pixel values
  and the SVG edge paths of the journey canvas are not modelled.
- Unicode behaviour is left out. `trim` uses the ASCII whitespace plus
  `\v`, `\f`, no-break space and byte-order mark, and `toLowerCase` and
  `toUpperCase` are ASCII only. Other Unicode spaces and letters are not
  modelled, including upper-case forms that lengthen a string ("ß" to "SS").
- `JsText.ParseInt`: reads decimal digits only, where `parseInt` without a
  radix also reads a hex `0x` prefix. The rows and columns inputs are number
  fields, whose text never holds an `x`.
- The desktop/mobile device toggle in the page tabs is not modelled. It only
  forwards the choice to the page (`src/components/PageTabs.tsx:146-175`).
- The sidebar's per-type property editors are not modelled. They only
  display values and call `Sidebar.SidebarPropertyChange`. A number field's
  `parseInt` result, possibly `NaN`, is a value parameter there.
- `JsValue.Json`: does not escape quotes or control characters inside strings.
- `JsValue.Set`: keeps every key in insertion order. JavaScript lists
  integer-like keys such as `"0"` first, in ascending order, but every key
  the pane and the sidebar write is a non-numeric literal.
- `Export.PropertyLines`: would print a repeated key once per field, where
  `Object.entries` yields it once. A JavaScript object cannot repeat a key,
  and the model keeps keys distinct where they change: `JsValue.SetKeepsDistinct`,
  `Properties.PropertyChange` and `Grid.WireframeGrid.HandleUpdateContent`.
  The prompt's contract does not require it.
- `Properties.GetArrayProp`: returns `[]` for a truthy non-array value, where the pane would
  go on using that value as if it were an array.
- `Grid.WireframeGrid.HandleCellDrop`: does not prove that moves keep the
  layout free of overlaps, because a move does not check the moved
  component's whole rectangle. `HandleResizeContent` does not prove it
  either, because the source does not keep that invariant.
- Removing a row or column does not clamp the existing contents. Contents
  may then lie partly outside the grid, as in the source.
- The state of the whole application, with several pages and wiring
  between components, is not modelled. Each file's logic is modelled as
  written.
- `Export.GeneratePrompt`: appends the header and footer as one block
  each, where the dialog appends them line by line. The text is the same.
- `Grid.SortByPosition`: is proved sorted and a permutation, but its
  stability is not stated.
- `Sidebar.ComponentSidebar`: the dragging-component field is left out,
  because it only drives styling.

## Findings

| source | as written | input that shows it | evidently intended | confidence | as-written member | corrected member |
|---|---|---|---|---|---|---|
| src/components/ContentResizer.tsx:49-52 | a move emits a resize only when the span differs from the span at mouse-down | south handle, 1×1 content at (0,0) in an 8×8 grid: move 108 px down, then back to 0 | the component is 1 row tall again when the cursor is back at the start | medium, not executed | Resizer.GestureAsWrittenKeepsStaleSpan | Resizer.GestureCorrectedFollowsLastMove |
| src/components/PropertiesPane.tsx:260-272 | a field edit copies the stored array, which is empty while the defaults are shown | a tabs component with no stored tabs: edit the label of the first shown tab | the edited list is the shown list with one tab relabelled | medium, not executed | Properties.EditOfDefaultDropsRows | Properties.EditedShownKeepsOtherRows |
