# gittyhub terminal core, modelled in Dafny

gittyhub is a terminal client for browsing GitHub pull requests. This project models
its core in Dafny and proves properties about it. The core has five parts:

- **The layout engine** (`layout_engine/src/lib.rs`), module `Layout`.
  - A `Context` is a rectangle of terminal cells.
  - A tree of `Pane`s, each holding a `Layout` in `Rows` or `Columns` format, cuts a context into equal bands by integer division.
  - `generate_layout` flattens the tree into one `(context, colour)` segment per leaf pane.
  - `GenerateLayout` keeps the source's append loop and recursion. It is proved equal to the specification function `Segments`.
  - Lemmas about `Segments` give band containment, adjacency and ordering, and the rounding loss of a split.
  - They also prove one segment per leaf in pre-order, each leaf inside its parent, and no two leaves overlapping.
- **The pull-request list view** (`src/views/pull_requests.rs`), module `PullRequests`.
  - The class `PullRequestList` has the fields `items`, `hovered` and `dirty`.
  - Its hover movement wraps around the list, and `select` turns the hovered item into a `ShowPull` command.
  - `Render` computes the four column widths (left folds of `max` over field lengths) and flags the hovered row. It leaves the view clean.
  - Pure functions (`HoverDownIndex`, `HoverUpIndex`, `Handled`, `ColumnWidth`, `Line`) specify the methods.
- **The detail view** (`src/views/full_pull_request.rs`), module `FullPullRequests`.
  - The class `FullPullRequest` ignores every event and never asks for navigation.
  - Rendering does not clear its dirty flag.
- **The component interface**, module `Views`.
  - It is the datatype `View = List(..) | Detail(..)` over the two view objects.
  - Each view has a value snapshot `ViewState` with pure `Handled`/`Rendered` steps.
- **The application controller** (`src/app.rs`), module `Application`.
  - The classes are `AppState` (dirty marker, view index, quit flag, user) and `App` (state plus views).
  - `App.HandleEvent` and `App.Render` are specified by `HandleModel` and `RenderModel` on the snapshot `AppModel`.
- **The entry point** (`src/main.rs`), module `MainLoop`.
  - The key binding is `KeyToEvent`.
  - The loop body is `Step`, and the loop itself is `EventLoop`: one initial render, then handle, quit check and render per input.
  - `Session` is `main` without the terminal.
  - The pure function `Run` specifies the loop. Its lemmas show where it stops, how often it renders, and that it cannot fail on a non-empty list.

Where the code and the behaviour one might expect from the application differ, the model follows the code:

- **Dirty tracking.** `App::dirty` reads the active view's own flag. The controller's `AppState.dirty` marker is toggled after every event and every drawn frame but is never consulted. The list view clears its own flag when it renders. The detail view never does, so a detail view is redrawn on every frame.
- **Navigation.** There is no Select event and no navigation stack. `Back` reaches the active view, and both views ignore it. The view index is never changed.
- **Event source.** Events are read synchronously from the terminal's input stream, not from a queue filled by a second thread.

The source files come from overlapping revisions: `src/ui/component.rs` declares the interface without `select`, and `src/events.rs` has no `Command`. The model uses one consistent set of types: `Events.Command = ShowPull(PullRequest)`, and a pull request with `number`, `title`, owner `login` and `state`.

On an empty list, `k`, or `j` once a row is hovered, computes `items.len() - 1`, which underflows. The first `j` on an empty list does not: it hovers row 0 without computing the length, and a later `select` would then index past the end. The model turns this into the exact preconditions of `HoverDownIndex`/`HoverUpIndex`, carried up to `LoopSafe`. `MainLoop.InitialSafety` shows that a `k` pressed on an empty list breaks it, and that a list with at least one pull request is safe for every input sequence.

## Model

| member | source | states |
|---|---|---|
| Layout.Layout.Default | layout_engine/src/lib.rs:81-88 | the default layout splits into rows and has no child panes |
| Layout.Layout.AddPane | layout_engine/src/lib.rs:90-94 | the new pane is appended last; the format and all earlier panes are unchanged |
| Layout.Context.Top | layout_engine/src/lib.rs:115-117 | the first row of the context: a non-empty context holds the full-width one-row strip on that row |
| Layout.Context.Left | layout_engine/src/lib.rs:123-125 | the first column of the context: a non-empty context holds the full-height one-column strip on that column |
| Layout.Context.Bottom | layout_engine/src/lib.rs:119-121 | the last row is `top + height - 1`, inside the context when the height is at least 1; requires exactly the condition under which the machine subtraction does not underflow |
| Layout.Context.Right | layout_engine/src/lib.rs:127-129 | the last column is `left + width - 1`, with the same underflow condition |
| Layout.ContextsOffset | layout_engine/src/lib.rs:132-150 | band `offset` of an n-way cut of a context; the axis it does not cut keeps the parent's start and length; its position and size along the cut axis are stated by BandGeometry; requires a non-zero pane count, since the machine division fails on zero |
| Layout.BandGeometry | layout_engine/src/lib.rs:139-148 | band `offset` of an n-way split starts at `lo + (len/n)*offset` along the cut axis and has length `len/n`; the other axis is inherited unchanged, for Rows (y, height) and Columns (x, width) alike |
| Layout.BandInside | layout_engine/src/lib.rs:132-150 | for `offset < n` every band lies inside the parent context |
| Layout.BandFits | layout_engine/src/lib.rs:140-141 | k bands of size `size/n` fit in `size` for `k <= n`, and one more fits for `k < n` |
| Layout.BandsAdjacent | layout_engine/src/lib.rs:141 | band `offset+1` starts on the cell right after band `offset` ends |
| Layout.BandsOrdered | layout_engine/src/lib.rs:139-148 | for `i < j < n` band i ends before band j starts, so the two bands are disjoint |
| Layout.SplitRoundingLoss | layout_engine/src/lib.rs:139-148 | the n bands cover `(len/n)*n <= len` cells; exactly `len % n` cells are lost; they tile the parent iff n divides its length |
| Layout.Segments | layout_engine/src/lib.rs:152-168 | the result is never empty, and a pane without children yields exactly `[(context, color)]` |
| Layout.GenerateLayout | layout_engine/src/lib.rs:152-168 | the append loop over the children with one recursive call each returns exactly `Segments(pane, context)` |
| Layout.Leaves | layout_engine/src/lib.rs:164-167 | the leaf panes in pre-order: never empty, and every one has no children |
| Layout.SegmentsFollowLeaves | layout_engine/src/lib.rs:152-168 | one segment per leaf, in pre-order, carrying that leaf's colour; so internal panes' colours are never drawn |
| Layout.SegmentsInside | layout_engine/src/lib.rs:152-168 | every segment lies inside the context it was laid out in |
| Layout.ChildSegmentsInside | layout_engine/src/lib.rs:157-162 | the segments of the first k children lie inside the parent and end no later than band k-1 |
| Layout.SegmentsDisjoint | layout_engine/src/lib.rs:152-168 | no two segments share a cell |
| Layout.AddPaneAppendsLeaves | layout_engine/src/lib.rs:90-94 | adding a pane to a layout appends that pane's leaves after the existing ones (or replaces the childless pane's own leaf) |
| Layout.SplitsDemo | layout_engine/examples/splits.rs:32-55 | the demo's pane tree, built with `Layout::default` and `add_pane`; what it draws is stated by SplitsDemoColors and SplitsDemoOn80By24 |
| Layout.SplitsDemoColors | layout_engine/examples/splits.rs:32-57 | for any terminal size the demo tree draws four regions, Magenta, Cyan, Green, White, in that order |
| Layout.SplitsDemoOn80By24 | layout_engine/examples/splits.rs:32-57 | on an 80 by 24 terminal the demo's regions are exactly (1,1,40,6), (1,7,40,6), (41,1,40,12), (1,13,80,12) |
| PullRequests.HoverDownIndex | src/views/pull_requests.rs:26-39 | the result is always set and, on a non-empty list, names an existing row; requires a non-empty list when a hover is set (`len - 1` underflows otherwise) |
| PullRequests.HoverUpIndex | src/views/pull_requests.rs:41-54 | the result is always set and names an existing row when the list is non-empty and the hover was at most `len`; requires exactly the non-underflow condition |
| PullRequests.HoverDownWraps | src/views/pull_requests.rs:26-39 | unset goes to row 0; from row i < len the hover goes to `(i+1) mod len`, wrapping from the last row to the first |
| PullRequests.HoverUpWraps | src/views/pull_requests.rs:41-54 | unset goes to the last row; from row i < len the hover goes to `(i+len-1) mod len`; above row 0 it goes one row up |
| PullRequests.HoverUpDownInverse | src/views/pull_requests.rs:26-54 | up then down, and down then up, return a hover inside the list to where it was |
| PullRequests.HoverDownCycles | src/views/pull_requests.rs:26-39 | k moves down from row i land on row `(i+k) mod len` |
| PullRequests.Handled | src/views/pull_requests.rs:128-137 | Up and Down move the hover and set dirty; every other event leaves the whole state unchanged; items never change |
| PullRequests.HandledKeepsHoverInRange | src/views/pull_requests.rs:128-137 | on a non-empty list every event can be handled and the hover stays on an existing row |
| PullRequests.Rendered | src/views/pull_requests.rs:169 | rendering cleans the view and changes nothing else |
| PullRequests.DecimalString | src/views/pull_requests.rs:151 | the decimal text of a number is non-empty, digits only, without a leading zero |
| PullRequests.ParseDecimalString | src/views/pull_requests.rs:151 | reading the decimal text back gives the number |
| PullRequests.DecimalLength | src/views/pull_requests.rs:151 | a number of k digits lies below 10^k and, for k > 1, at or above 10^(k-1) |
| PullRequests.ColumnWidth | src/views/pull_requests.rs:148-161 | the fold of `max` from 0 bounds every field of the column, is 0 for an empty list, and equals some item's field length otherwise |
| PullRequests.ColumnWidths | src/views/pull_requests.rs:148-161 | four widths, one per column, in the order number, title, login, state |
| PullRequests.Field | src/views/pull_requests.rs:87-117 | the text of column 0 to 3 of a row: the number's decimal text (non-empty, reading back as the number), then the title, the owner's login and the state |
| PullRequests.PadRight | src/views/pull_requests.rs:87-117 | left-aligned padding: the length is the larger of the text's and the width, the text comes first, the rest is spaces; never truncated |
| PullRequests.Line | src/views/pull_requests.rs:87-117 | the text of one row without colours: it starts with `#` and is at least as long as the four widths plus the `#` and three separating spaces |
| PullRequests.LinesAligned | src/views/pull_requests.rs:76-120 | with the widths `render` computes, each padded field of row i has exactly its column's width, so every row has the same length |
| PullRequests.TitleColumnExample | src/views/pull_requests.rs:152-154 | titles of lengths 3, 10 and 1 give a title column of width 10, to which all three are padded |
| PullRequests.HighlightRows | src/views/pull_requests.rs:164-167 | the loop over the rows flags row i exactly when the hover is `Some(i)` |
| PullRequests.OneHighlightAtMost | src/views/pull_requests.rs:164-167 | at most one row is flagged: one when the hover names a row, none otherwise |
| PullRequests.PullRequestList.constructor | src/views/pull_requests.rs:14-20 | a new view is dirty, has nothing hovered and holds the items as given |
| PullRequests.PullRequestList.HoverDown | src/views/pull_requests.rs:26-39 | the hover becomes `HoverDownIndex` of the old hover and length; items unchanged; dirty set |
| PullRequests.PullRequestList.HoverUp | src/views/pull_requests.rs:41-54 | the hover becomes `HoverUpIndex` of the old hover and length; items unchanged; dirty set |
| PullRequests.PullRequestList.Dirty | src/views/pull_requests.rs:124-126 | the view is dirty exactly when a render would still change its state |
| PullRequests.PullRequestList.HandleEvent | src/views/pull_requests.rs:128-137 | the new state is `Handled(old state, event)` |
| PullRequests.PullRequestList.Select | src/views/pull_requests.rs:139-145 | a command exactly when a row is hovered, and then it is `ShowPull` of that row's item; the view is only read |
| PullRequests.PullRequestList.Render | src/views/pull_requests.rs:147-171 | returns the widths `ColumnWidths(items)` and one flag per row tied to the hover; the view is clean afterwards, items and hover unchanged |
| FullPullRequests.FullPullRequest.constructor | src/views/full_pull_request.rs:14-16 | a new detail view is dirty and holds the given item |
| FullPullRequests.FullPullRequest.Render | src/views/full_pull_request.rs:20-38 | rendering leaves the view as it was; in particular it stays dirty |
| FullPullRequests.FullPullRequest.HandleEvent | src/views/full_pull_request.rs:40 | every event is ignored |
| FullPullRequests.FullPullRequest.Dirty | src/views/full_pull_request.rs:42-44 | answers the flag set at construction; since Render and HandleEvent keep it, a detail view always answers true |
| FullPullRequests.FullPullRequest.Select | src/views/full_pull_request.rs:46-48 | never asks for anything |
| Views.Dirty | src/ui/component.rs:8 | `dirty()` through the interface is the active view's own flag |
| Views.Handled | src/views/pull_requests.rs:128-137 | the effect of `handle_event` on a view's snapshot: the kind of view is kept, a detail view is unchanged, and a list view keeps its items |
| Views.HandleEvent | src/ui/component.rs:7 | dispatches to the view: the new snapshot is `Handled(old snapshot, event)` |
| Views.Rendered | src/views/pull_requests.rs:147-171 | the effect of `render` on a view's snapshot: the kind of view is kept, and a list view keeps its items and hover |
| Views.Render | src/ui/component.rs:6 | dispatches to the view: the new snapshot is `Rendered(old snapshot)` |
| Views.RenderedDirtiness | src/views/full_pull_request.rs:20-38 | rendering cleans a list view but leaves a detail view exactly as it was, so a dirty detail view stays dirty |
| Views.WellFormedPreserved | src/views/pull_requests.rs:26-54 | a non-empty list with an in-range hover (or a detail view) can take every event and stays so after any event or render |
| Application.AppState.ForUser | src/app.rs:42-49 | dirty, view index 0, not quitting, the user stored unchanged |
| Application.AppState.ToggleDirty | src/app.rs:15-29 | negates the dirty marker and changes nothing else |
| Application.HandleModel | src/app.rs:89-96 | the effect of `handle_event` on the application: every event flips the dirty marker exactly once and keeps the view index; the quit flag becomes set on Quit and is never cleared |
| Application.HandleModelEffects | src/app.rs:89-96 | the active view receives exactly the non-Quit events, each once; Quit leaves it untouched |
| Application.RenderModel | src/app.rs:75-87 | the effect of `render` on the application: the view index and quit flag are kept, and the dirty marker flips exactly when the active view is dirty |
| Application.RenderGating | src/app.rs:75-87 | a clean view is not redrawn; a list view is clean after one render, so a second render changes nothing; a dirty detail view stays dirty and is drawn again, flipping the marker back |
| Application.App.constructor | src/app.rs:59-65 | the application holds the given state and views |
| Application.App.ShouldQuit | src/app.rs:67-69 | answers the quit flag |
| Application.App.Dirty | src/app.rs:71-73 | answers the active view's flag, not the state record's marker |
| Application.App.Render | src/app.rs:75-87 | the new snapshot is `RenderModel(old)`: draws and flips the marker only when the active view is dirty; reports whether it drew; views and user unchanged |
| Application.App.HandleEvent | src/app.rs:89-96 | the new snapshot is `HandleModel(old, event)`: Quit sets the quit flag, any other event goes to the active view; the marker flips; views and user unchanged |
| MainLoop.KeyToEvent | src/main.rs:45-57 | Esc and `q` give Quit, Backspace gives Back, and `j`/`k`/`h`/`l` give Move Down/Up/Left/Right, each in both directions; nothing else gives an event |
| MainLoop.Feed | src/main.rs:59-61 | one input: an unmapped key leaves the application unchanged, a mapped one flips the dirty marker; the view index is always kept |
| MainLoop.Run | src/main.rs:38-69 | a run reads at most all inputs and draws no more frames than it makes render calls; it keeps the view index; if it stops early the application is quitting and no render followed the last input |
| MainLoop.FeedQuitting | src/main.rs:59-65 | only a quitting key sets the quit flag, and neither handling nor rendering clears it |
| MainLoop.RunStopsAtFirstQuit | src/main.rs:59-65 | the loop reads exactly up to the first quitting key, with one render after each earlier input |
| MainLoop.RunWithoutQuit | src/main.rs:43-68 | without a quitting key every input is read and followed by a render |
| MainLoop.SafeWhenWellFormed | src/main.rs:43-68 | from a non-empty list with an in-range hover, or a detail view, no input sequence reaches an arithmetic failure |
| MainLoop.InitialModel | src/main.rs:29-34 | the application as built: dirty, view 0, not quitting, a dirty list view with nothing hovered |
| MainLoop.InitialSafety | src/main.rs:29-36 | with at least one pull request every input sequence is safe; on an empty list a first `k` fails |
| MainLoop.KeysOnList | src/main.rs:45-61 | on the list view `j`/`k` set the hover to `HoverDownIndex`/`HoverUpIndex` and mark it dirty; `h`, `l` and Backspace only flip the marker |
| MainLoop.Step | src/main.rs:44-67 | one pass: handle the mapped event if any, then quit or render; the new snapshot and whether a frame was drawn follow `Feed` and `RenderModel` |
| MainLoop.EventLoop | src/main.rs:36-69 | an initial render, then the loop; final snapshot, inputs read, render calls and frames drawn are those of `Run` |
| MainLoop.Session | src/main.rs:29-69 | `main` without the terminal: the state for the user, one list view, and the loop, with the results of `Run` from the initial application |

## Left out

- Terminal output. The model does not produce the escape sequences, colours or text that `goto`, `draw_segment`, `fill_context`, `draw_header`, `draw_line`, `App::render` and `FullPullRequest::render` write. `Render` produces the widths and highlight flags, and `Line` gives the text of a row without colours.
- `draw_header` is not modelled: it only writes the column names padded to the widths.
- I/O errors. A failed write is taken never to happen. The `?` that would skip `self.dirty = false` in the list's `render` and the state toggle in `App::render` is not modelled, and neither are the panics of the `unwrap` calls in `main`.
- The terminal library, raw mode, the alternate screen, logging, the mock data source and the HTTP client. `Session` takes the user and the pull requests as parameters.
- The blocking input stream is a finite sequence. When it ends, `EventLoop` returns. `main` would restart its outer loop instead.
- `into_items` (src/views/pull_requests.rs:22-24) only hands the `items` field back; the model reads that field directly.
- The detail view's item is reduced to the list's pull-request record. Its `body` and the GitHub API record it came from are not modelled.
- Machine integers. `nat` is unbounded, so `usize` overflow in `idx + 1`, `y + height` or `left + width * offset` is not modelled.
- Underflows and other machine failures are kept as exact preconditions. These are `len - 1` in `hover_up`/`hover_down` on an empty list, `y + height - 1` in `bottom` and `x + width - 1` in `right` at zero, and the division by a zero pane count in `contexts_offset`.
- PullRequests.PullRequestList.Select: requires the hover to name an existing row. The source's `self.items[index]` panics otherwise, and that state is reachable: on an empty list a first `j` hovers row 0. The model does not describe the panic.
- Text lengths count characters. The source's `len()` counts UTF-8 bytes, so for non-ASCII titles and logins the modelled widths can be smaller than the source's.
- Application.App.constructor: requires nothing, but `App.Valid` assumes the active index names a view and the view objects are distinct from the state record. `main` builds them that way. The source's `views[view_index]` indexing would panic otherwise.
- PullRequests.ColumnWidths: states only the four widths' relation to `ColumnWidth`. The properties of a width are stated on `ColumnWidth` itself.
