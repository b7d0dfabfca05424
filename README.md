# Grid level editor: a Dafny model

`script.js` is the script of a browser level editor for a platform game. The page shows a
grid of 900 cells, 30 to a row. The user picks a brush from the sidebar and a tool (paint,
erase, flip), then drags or clicks over the grid. Each brush has a colour, a class, a shape
and an optional cap on how many cells may carry its class. The grid can be saved as a text
file of six-line records and loaded back. It can also be exported as a level: the player
spawn, the target, the world size and the lists of platforms, one-way platforms, enemies,
spikes, coins, falling blocks and spiky balls.

This project models that script and proves properties of the model.

- **Cells.** A cell is a value: its class list (a DOMTokenList, modelled as a sequence that
  starts with `cell` and holds each token once), its background colour (`""` when unpainted)
  and its `data-rotation` (absent, or an integer).
  - Module `Cells` states what `resetCell`, `applyShape`, `rotateSpikeShape`,
    `resetCellShape` and `resetCellClasses` do to one cell.
  - Module `Grid` performs the same steps in place on the grid's `array<Cell>`.
  - Module `ClassList` models `classList.add`/`remove` and the live `classList.forEach`.
- **Controller.** Module `Controller` holds the tool, the selected brush, the mouse flag and
  `colorCounters` with each sidebar counter's text.
  - `Handle` is the specification of one mouse event: the gate, then the erase, paint and
    flip branches.
  - Class `Editor` performs it in place on the cell array and its own fields. Lemmas prove
    what `Handle` keeps: counters never negative, capped counters within their caps, counter
    texts in step with the counts.
- **Export.** Module `Export` models the build button. `ExportLevel` is the function from
  the grid to the level record, and `Build` is its `forEach` loop.
- **Save and load.** Module `Save` models the save button, whose `forEach` builds the file
  text. Module `Load` models `loadGridFromContent`, which reads the lines with a running
  `currentIndex`. Module `RoundTrip` proves that loading a saved grid onto the page's
  fresh grid restores every cell's classes, colour and rotation. The same holds onto any
  grid whose cells hold at most one token besides `cell` and the shapes. Onto a painted
  grid the load can leave stale tokens behind (see "## Findings").
- **Text.** Module `JsText` models the JavaScript string operations these use: `trim`,
  `split`, `join`, number to string, `parseInt` and the truncating `%`.

Some of what the code does is easy to overlook. The model follows the code in each case:

- **Paint at the cap.** When the brush's counter is at its cap, the old colour's counter is
  still decremented, but the cell is not reset: it keeps its old colour and classes
  (script.js:59-68). It does not become blank.
- **Rotation class.** A rotation from 0 adds `class-2`; from 90, `class-3`; from 180,
  `class-4`; from 270, `class-1` (script.js:89-90). The loop at script.js:85-87 clears only
  `class-1` to `class-3`, so `class-4` is never removed once added.
- **`dir: none`.** A saved `dir: none` loads back as rotation 0, not as absent
  (script.js:404-406). The round trip restores `CurrentRotation`, not the very same
  attribute.
- **Negative cap.** A button's initial counter text is `0/max` for any non-zero `max`
  (script.js:128). `updateCounter` writes `n/max` only for a positive `max`
  (script.js:213-215). For a negative cap the two differ (`InitialTextIsZeroText` holds for
  `max >= 0`).
- **Load and the counters.** Loading never changes `colorCounters` or the counter texts
  (`Controller.Editor.LoadFile`).

## Model

| member | source | states |
|---|---|---|
| JsText.Trim | script.js:376 | the input is some whitespace, then the result, then some whitespace; the result has no whitespace at either end; so exactly the leading and trailing whitespace is removed |
| JsText.TrimAfterSpace | script.js:387 | the part after `key:` loses the single space the save put before the value, and nothing else |
| JsText.Split | script.js:372 | `split` yields at least one piece, no piece contains the separator, and joining the pieces with the separator gives the input back |
| JsText.SplitUnlines | script.js:372 | splitting the saved text at line feeds gives back the saved lines, then one empty piece after the final line feed |
| JsText.SplitOfJoin | script.js:392 | splitting a `", "`-joined list of tokens without a space gives the tokens back |
| JsText.NatToString | script.js:324 | a number's decimal text is non-empty, all digits, without a leading zero, and denotes the number |
| JsText.ParseIntOfIntToString | script.js:404 | `parseInt(String(i), 10)` is `i` for every integer, negative ones included |
| JsText.DigitPrefix | script.js:404 | `parseInt` reads the longest run of digits at the front of the text |
| JsText.JsRem | script.js:80 | JavaScript's `%` is `a - b * trunc(a / b)`: it takes the sign of the dividend, is smaller than the divisor in size, differs from the dividend by a multiple of the divisor, and agrees with the mathematical remainder on non-negative operands |
| ClassList.Add | script.js:66 | after `classList.add(t)` the tokens are the old ones plus `t`, in the old order, each once |
| ClassList.Remove | script.js:182 | after `classList.remove(t)` the tokens are the old ones except `t`, each once, and a missing token changes nothing |
| ClassList.RemoveAll | script.js:171 | removing several tokens leaves exactly the others, and `cell` stays first |
| ClassList.Others | script.js:325 | the filter keeps exactly the tokens other than `cell` |
| ClassList.LiveWalkKeeps | script.js:419-421 | the live `forEach` removal only removes tokens and never removes `cell` |
| ClassList.LiveWalkSkips | script.js:419-421 | removing while iterating over the live list keeps every second token after the visited ones |
| ClassList.LiveWalkOfCellList | script.js:419-421 | on `cell, t1, t2, ...` the live walk leaves `cell` followed by `t2, t4, ...` |
| Cells.Fresh | script.js:5-9 | a cell as created is well formed, with no token besides `cell`, so `resetCellClasses` clears it |
| Cells.Reset | script.js:177-185 | `resetCell` leaves no colour and the class list exactly `cell`, and keeps the rotation |
| Cells.ApplyShape | script.js:170-175 | `applyShape` leaves no shape token but the new one, adds it when it is non-empty, and changes no other token, the colour or the rotation |
| Cells.ClearShape | script.js:424-426 | `resetCellShape` removes exactly the three shape tokens |
| Cells.ResetClassesLive | script.js:416-422 | `resetCellClasses` as written only removes tokens, removes every shape token, and keeps the cell well formed |
| Cells.ResetClassesLiveSkips | script.js:416-422 | as written, `resetCellClasses` on `cell enemy rotated` leaves `cell rotated` |
| Cells.ClearClasses | script.js:416-422 | `resetCellClasses` as intended leaves exactly `cell` and keeps the colour and the rotation |
| Cells.LiveResetAgrees | script.js:416-422 | with at most one token besides `cell` and the shapes, the written and the intended `resetCellClasses` agree and leave `cell` alone |
| Cells.NextRotation | script.js:79-80 | the new rotation is again a multiple of 90, strictly between -360 and 360, and `(r + 90) mod 360` for `0 <= r < 360` |
| Cells.NextRotationCycle | script.js:80 | 0, 90, 180 and 270 go to 90, 180, 270 and 0 |
| Cells.NextRotationMoves | script.js:80 | a rotation always changes the rotation value |
| Cells.StateToken | script.js:89-90 | the state class is always one of the `class-` tokens |
| Cells.StateTokenCycle | script.js:89-90 | from 0, 90, 180 and 270 the state class is `class-2`, `class-3`, `class-4` and `class-1` |
| Cells.Rotate | script.js:78-97 | `rotateSpikeShape` sets the rotation to the next quarter turn, keeps the colour and keeps the cell well formed |
| Cells.RotateTokens | script.js:85-96 | after a rotation the state class is present, no other of `class-1` to `class-3` is, `rotated` is present iff the new rotation is not 0, and every other token is as before |
| Cells.Class4IsSticky | script.js:85-90 | a rotation never removes `class-4` |
| Cells.RotateMoves | script.js:79-83 | a rotation always changes the stored rotation |
| Cells.FourRotationsRestore | script.js:78-97 | four rotations bring a rotation of 0, 90, 180 or 270 back to itself, with `rotated` present iff it is not 0 |
| Cells.FullTurnKeepsClass4 | script.js:85-96 | after a full turn from 0 the cell has rotation 0, no `rotated`, and both `class-1` and `class-4` |
| Grid.RemoveOthers | script.js:179-184 | the loop over the copied class list removes exactly the tokens other than `cell` |
| Grid.RemoveShapes | script.js:418 | the loop over the shape names removes exactly the shape tokens |
| Grid.ResetCell | script.js:177-185 | `resetCell` on the array changes cell `i` as `Reset` says and no other cell |
| Grid.ApplyShapeAt | script.js:170-175 | `applyShape` on the array changes cell `i` as `ApplyShape` says and no other cell |
| Grid.RemoveQuarterClasses | script.js:85-87 | the `for` loop removes exactly `class-1`, `class-2` and `class-3` |
| Grid.RotateSpikeShape | script.js:78-97 | `rotateSpikeShape` on the array changes cell `i` as `Rotate` says and no other cell |
| Grid.ResetCellShape | script.js:424-426 | `resetCellShape` on the array changes cell `i` as `ClearShape` says and no other cell |
| Grid.ResetCellClasses | script.js:416-422 | `resetCellClasses` as written, on the array, changes cell `i` as `ResetClassesLive` says and no other cell |
| Grid.ClearCellClasses | script.js:416-422 | `resetCellClasses` as intended, on the array, changes cell `i` as `ClearClasses` says and no other cell |
| Grid.BlankCell | script.js:63-64 | reset, then the brush colour, on cell `i` only |
| Grid.ShapeAndClass | script.js:65-66 | the brush shape, then the brush class, on cell `i` only |
| Save.ShapeField | script.js:327-330 | the saved shape is `none` exactly when the cell has no shape token; otherwise it is a shape token the cell has, and the cell has no shape that comes before it in the order `square`, `circle`, `triangle` |
| Save.SaveGrid | script.js:319-339 | the save loop builds the text of every cell's record in grid order, each line ending in a line feed |
| Save.Fields | script.js:324-331 | the five values of a record: the 1-based header, the classes other than `cell` or `none`, the colour or `none`, the first shape or `none`, the rotation or `none` |
| Save.AppendRecord | script.js:333-338 | the six `+=` add the record's six lines to the text |
| Save.AppendLine | script.js:333 | one `+=` adds one line and its line feed |
| Load.HeaderIndex | script.js:379-381 | a header line selects an index of at least -1 |
| Load.AddTokens | script.js:392-394 | the old list stays at the front; every new token is a listed one other than `none`; the loop throws iff a listed token other than `none` is one `add` refuses; without a throw every such token is present; a well-formed list stays well formed |
| Load.SetClasses | script.js:390-395 | the class line runs `resetCellClasses` as written and then adds the listed tokens: what the reset left stays at the front, every other token is a listed one other than `none`, the line throws iff `add` refuses a listed token, and without a throw every listed token but `none` is present; colour and rotation stay; a line with no value throws after the reset |
| Load.SetColor | script.js:396-398 | the colour line sets the colour, clears it for `none`, keeps it when there is no value, and changes nothing else |
| Load.SetShape | script.js:399-402 | the shape line keeps exactly the tokens that are not shapes and adds the named value (`undefined` when missing) unless it is `none`; it throws iff `add` refuses that value; colour and rotation stay |
| Load.SetDir | script.js:403-407 | the dir line changes only the rotation: `none` sets it to 0, a value `parseInt` reads sets it to that number, and a missing or unreadable value throws and changes nothing |
| Load.Property | script.js:389-411 | a property line keeps the cell well formed, and any key other than the four changes nothing |
| Load.Apply | script.js:385-412 | a `key: value` line changes at most the selected cell, and changes nothing when no cell of the grid is selected |
| Load.Step | script.js:376-412 | one line changes at most the selected cell and keeps every cell well formed; a line that throws does so on a selected cell |
| Load.Run | script.js:375-413 | the line loop keeps the grid's size and every cell well formed, and nothing runs after a throw |
| Load.RunAppend | script.js:375-413 | loading two stretches of lines is loading the first, then the second |
| Load.BlankLine | script.js:376-377 | a blank line changes nothing |
| Load.OutsideGrid | script.js:385 | a line that is not a header changes nothing unless a cell of the grid is selected |
| Load.HeaderSelects | script.js:379-382 | the header `C<n>:` selects cell n - 1 |
| Load.LoadClasses | script.js:390-395 | the class case, on the array, runs `resetCellClasses` as written and changes cell `i` as `SetClasses` says |
| Load.AddClasses | script.js:392-394 | the `forEach` over the class tokens computes `AddTokens` |
| Load.LoadShape | script.js:399-402 | the shape case, on the array, changes cell `i` as `SetShape` says |
| Load.LoadProperty | script.js:389-411 | the `switch`, on the array, changes cell `i` as `Property` says |
| Load.LoadLine | script.js:376-412 | the callback for one line, on the array and `currentIndex`, is `Step` |
| Load.ApplyLine | script.js:385-412 | a `key: value` line, on the array, is `Apply` |
| Load.LoadGridFromContent | script.js:370-414 | the load, on the array, runs `resetCellClasses` as written, leaves the cells `LoadText` computes and reports whether no line threw |
| RoundTrip.ReloadedMatches | script.js:399-402 | the reloaded cell has the same token set, the same colour and the rotation the saved cell showed, and is well formed |
| RoundTrip.ClassTokensLoad | script.js:392-394 | the saved class field, split and added to `cell`, gives back the saved class list exactly |
| RoundTrip.ClassProperty | script.js:390-395 | on a cell with at most one token besides `cell` and the shapes, a saved class line restores the class list and keeps the colour and the rotation |
| RoundTrip.StaleClassAfterLoad | script.js:390-395 | the record of an empty cell, loaded over `cell square spike class-2 rotated`, leaves `cell class-2`: the reset as written skips `class-2` |
| RoundTrip.ColorProperty | script.js:396-398 | a saved colour line restores the colour |
| RoundTrip.ShapeProperty | script.js:399-402 | a saved shape line moves the saved shape to the end of the class list |
| RoundTrip.DirProperty | script.js:403-407 | a saved dir line restores the rotation the cell showed, with `none` as 0 |
| RoundTrip.HeaderLine | script.js:379-381 | the saved header of cell j selects cell j |
| RoundTrip.RecordLoads | script.js:333-338 | loading one saved record onto a cell with at most one token besides `cell` and the shapes sets exactly that cell to its reloaded value and selects it |
| RoundTrip.SaveTextLines | script.js:372 | splitting the saved text at line feeds gives the saved lines and a final empty one |
| RoundTrip.LoadRecords | script.js:370-375 | loading the saved text is loading its records one after another |
| RoundTrip.PrefixLoads | script.js:375-413 | onto a grid whose cells have at most one token besides `cell` and the shapes, after the first k records no line has thrown, cells 0 to k-1 are reloaded, the rest are untouched and cell k-1 is selected |
| RoundTrip.SaveThenLoad | script.js:319-414 | loading a saved grid onto a grid of the same size whose cells have at most one token besides `cell` and the shapes completes, and restores every cell's token set, colour and rotation, with a missing rotation read back as 0 |
| Export.PosInGrid | script.js:256-259 | a cell's position is on the 40-pixel lattice between 0 and 1160 |
| Export.PosInjective | script.js:256-259 | two cells never share a position |
| Export.ExportLevel | script.js:219-227 | the build yields a level iff some cell has `playerSpawn` and some cell has `end` |
| Export.PointListMembers | script.js:281-295 | the enemy, falling-block, spiky-ball and coin lists hold exactly the positions of the cells with that class |
| Export.PlatformMembers | script.js:266-267 | the platforms are exactly the 40 by 40 boxes at the `solButton` cells |
| Export.OneWayMembers | script.js:297-298 | the one-way platforms are exactly the width-40 entries at the `oneway` cells |
| Export.SpikeMembers | script.js:268-271 | the spikes are exactly the spike cells that are not platforms, each with its rotation divided by 90 |
| Export.PlayerIsLastSpawn | script.js:272-274 | the player is at the last spawn cell that is neither platform nor spike, else at (80, 320) |
| Export.TargetIsLastEnd | script.js:276-279 | the target is at the last `end` cell, else at (2860, 240) |
| Export.WorldCoversObstacles | script.js:261-264 | the maxima are at least 0, cover every obstacle cell, and are each 0 or reached by one |
| Export.MaxStep | script.js:261-264 | a cell raises the maxima only when it is an obstacle |
| Export.Build | script.js:219-304 | the build handler's loop computes `ExportLevel` over the array |
| Export.VisitCell | script.js:255-300 | the `forEach` callback for one cell is `Visit` |
| Export.LocateCell | script.js:256-279 | the first part of the callback is `Locate` |
| Export.MarkCell | script.js:281-299 | the marker pushes of the callback are `Mark` |
| Controller.CounterTextReads | script.js:211-216 | `parseInt` reads the count back from the counter text; the text holds a `/` exactly when the cap is positive, and then the cap reads back from what follows it |
| Controller.InitialTextIsZeroText | script.js:128 | for a cap of at least 0, the text a counter is created with is the text `updateCounter` shows for 0 |
| Controller.FirstWithColor | script.js:200 | the lookup finds the first button with the colour, or reports that none has it |
| Controller.Decrement | script.js:199-209 | only the first button with the colour loses one, only when its counter is positive, and only its text changes; no match changes nothing; no counter goes negative |
| Controller.Increment | script.js:194-197 | the brush's counter gains one and its text shows the new count; nothing else changes |
| Controller.PaintedCell | script.js:63-66 | a painted cell has the brush colour, the old rotation and the classes `cell`, shape, class |
| Controller.PaintKeepsValid | script.js:63-66 | painting keeps the cell well formed |
| Controller.DecrementKeepsCaps | script.js:199-209 | a decrement keeps every capped counter within its cap |
| Controller.DecrementKeepsTexts | script.js:199-209 | a decrement keeps every counter text in step with its count |
| Controller.IncrementKeepsCaps | script.js:62-67 | an increment that the cap test lets through keeps every capped counter within its cap |
| Controller.IncrementKeepsTexts | script.js:194-197 | an increment keeps every counter text in step with its count |
| Controller.IncrementCounts | script.js:195 | an increment adds one to the brush class's count and to no other |
| Controller.Erase | script.js:50-54 | erasing an unpainted cell changes nothing; erasing a painted one resets it and decrements its colour's counter |
| Controller.Released | script.js:59-61 | a cell with no colour decrements nothing |
| Controller.Place | script.js:62-68 | placing changes only the target cell and keeps its rotation; at the cap nothing changes |
| Controller.PlaceBelowCap | script.js:62-67 | below the cap the cell becomes `cell`, shape, class with the brush colour |
| Controller.PlaceCounts | script.js:62-67 | below the cap the brush class's count goes up by one and no other |
| Controller.PaintWith | script.js:55-69 | the paint branch changes only the target cell and keeps its rotation |
| Controller.Flip | script.js:70-73 | the flip branch rotates the target cell and leaves the counters |
| Controller.Handle | script.js:37-76 | an event changes at most the target cell, keeps the state well formed, and changes nothing unless it is a click or the mouse is down over a cell; only a flip needs the target's rotation to be whole quarter turns |
| Controller.RepaintSameColour | script.js:56-58 | painting a cell with its own colour changes nothing at all |
| Controller.PaintOverOtherColour | script.js:56-68 | painting over another colour first releases the old colour's counter; below the cap the cell becomes `cell`, shape, class in the brush colour and the brush counter gains one; at the cap the cell keeps its old colour and classes while the old counter stays decremented |
| Controller.EraseCell | script.js:50-54 | with the erase tool, a painted cell is reset and its colour's counter decremented; an unpainted cell is left alone |
| Controller.OnlyFlipRotates | script.js:44-74 | an event changes a cell's rotation iff it acts, the flip tool is selected and the cell is a spike; then the cell is rotated and the counters kept |
| Controller.HandleKeepsNonNegative | script.js:37-76 | no event makes a counter negative |
| Controller.HandleKeepsCaps | script.js:37-76 | no event takes a capped counter above its cap |
| Controller.HandleKeepsTexts | script.js:37-76 | after any event every counter text still shows its count |
| Controller.FreshGrid | script.js:5-9 | the page starts with 900 well-formed cells |
| Controller.LoadOntoFreshGrid | script.js:370-414 | loading a saved grid onto the page's fresh grid completes and gives every cell back its saved token set, colour and rotation |
| Controller.ZeroCounts | script.js:133 | every button's class starts with a counter of 0 |
| Controller.InitialTexts | script.js:128 | each counter starts with the text `0`, or `0/max` for a non-zero cap |
| Controller.InitialOk | script.js:125-133 | the initial page is well formed with no counter negative or above its cap, and its texts show the counts when no cap is negative |
| Controller.NewGrid | script.js:5-9 | the creation loop builds a new array of 900 fresh cells |
| Controller.NewCounters | script.js:125-133 | the sidebar loop sets every counter to 0 and every text to its initial text |
| Controller.Editor.constructor | script.js:5-9 | the editor starts with the fresh grid, zero counters, the paint tool, no brush and the mouse up |
| Controller.Editor.SelectTool | script.js:161-165 | selecting a tool changes only the tool |
| Controller.Editor.SelectBrush | script.js:135-138 | selecting a brush changes only the selected brush |
| Controller.Editor.SetMouseDown | script.js:31-32 | the mouse listeners change only the mouse flag |
| Controller.Editor.UpdateCounter | script.js:211-216 | `updateCounter` rewrites only that button's text, from its count |
| Controller.Editor.IncrementCounter | script.js:194-197 | `incrementCounter`, called below the cap, on the fields is `Increment` and keeps the counters within their caps |
| Controller.Editor.DecrementCounter | script.js:199-209 | `decrementCounter` on the fields is `Decrement` |
| Controller.Editor.EraseAt | script.js:50-54 | the erase branch on the array and the fields is `Erase` |
| Controller.Editor.PaintCell | script.js:63-66 | the four paint steps on the array change cell `i` as `Paint` says |
| Controller.Editor.ReleaseColor | script.js:59-61 | releasing the old colour on the fields is `Released` |
| Controller.Editor.PlaceAt | script.js:62-68 | the cap test and the paint on the array and the fields is `Place` |
| Controller.Editor.PaintAt | script.js:55-69 | the paint branch on the array and the fields is `PaintWith` |
| Controller.Editor.HandleMouseEvent | script.js:37-76 | `handleMouseEvent` changes the grid and the counters as `Handle` says, keeps every counter at least 0 and (with one counter per button) within its cap, and leaves the tool, the brush and the mouse flag |
| Controller.Editor.SaveFile | script.js:319-339 | the save button's text is `SaveText` of the grid |
| Controller.Editor.LoadFile | script.js:370-414 | a load sets the grid as `LoadText` (with `resetCellClasses` as written) says and never touches the counters or their texts |
| Controller.Editor.BuildLevel | script.js:219-304 | the build button's level is `ExportLevel` of the grid |

## Left out

- The configuration fetch, the sidebar and tool button construction, `innerHTML`, the arrow
  and the selection highlighting (script.js:13-29, 103-168, 187-192) are DOM and UI. The
  buttons are a parameter of the editor. The selection listeners are the setters
  `SelectTool` and `SelectBrush`, and the model keeps exactly one tool selected.
- Downloads, the file picker and `FileReader` (script.js:305-316, 341-347, 350-368) are I/O.
  Load takes the file's text as a string. The export returns a `Level` value, not its
  `JSON.stringify` text, and the build's `alert` is a `None` result.
- CSS `transform` strings (script.js:82, 405) are presentation only. The model tracks the
  rotation integer.
- The browser's normalisation of `style.backgroundColor` is not modelled: colours are opaque
  strings, stored as given. This affects the comparison at script.js:58 and the lookup at
  script.js:200.
- The spike listener loop (script.js:99-101) runs at startup, when no cell is a spike, so it
  attaches nothing.
- `loadCSS`, `loadJS` and the play button (script.js:428-449) are page plumbing.
- `console.warn` for an unknown key (script.js:409) is output only. The unknown key itself
  changes nothing (`Load.Property`).
- `parseInt` on numbers above 2^53 loses precision in JavaScript. The model's integers are
  exact.
- Cells.Rotate: requires a rotation that is a multiple of 90. Hand-edited files with other
  rotations make the state class a fraction (script.js:89). `Grid.RotateSpikeShape`
  carries the same requirement. `Controller.Handle` and `Controller.Editor.HandleMouseEvent`
  carry it only when the event flips a spike; painting and erasing do not read the rotation.
- Load.SetDir: a `dir` value that `parseInt` reads as NaN ends the load in the model. This
  includes a `dir` line with no colon. In the browser the rotation becomes `NaN` instead,
  and the load goes on.
- Load.SetClasses: models `resetCellClasses` as written (script.js:416-422), so the load
  follows the code. The round trip is therefore proved only onto target cells with at most
  one token besides `cell` and the shapes, which include the page's fresh grid. Onto a
  painted grid, stale tokens can survive (`RoundTrip.StaleClassAfterLoad`).
- Controller.Editor.IncrementCounter: requires the counter to be below its cap. Its one
  caller, `handleMouseEvent`, checks that first (script.js:62-67). The requirement keeps the cap
  bound that `Editor.Valid` carries.
- RoundTrip.SaveThenLoad: proved for savable cells only. A savable cell has:
  - tokens that are non-empty, contain no whitespace or `:`, and are not `none`;
  - a colour without a line feed or `:`, not `none`, and without surrounding whitespace;
  - at most one shape token.

  Other cells do not survive the text format. Examples are a token `none`, a colour with a
  `:`, or two shapes, of which only the first is saved.

## Findings

| source | as written | input that shows it | evidently intended | confidence | as-written member | corrected member |
|---|---|---|---|---|---|---|
| script.js:419-421 | `resetCellClasses` removes tokens from `cell.classList` inside `cell.classList.forEach`. The live list shifts left after each removal, so the token after a removed one is never visited. | A cell with the classes `cell enemy rotated` keeps `cell rotated` (`Cells.ResetClassesLiveSkips`). | Every class but `cell` is removed, as `resetCell` does with its copied list (script.js:179-184). | not executed | Cells.ResetClassesLive | Cells.ClearClasses |

The as-written walk is `ClassList.LiveWalk`, performed in place by `Grid.ResetCellClasses`.
`ClassList.LiveWalkSkips` proves that it keeps every second token after `cell`. The load
(`Load.SetClasses`, `Load.LoadClasses`, `Load.LoadText`, `Controller.Editor.LoadFile`)
runs this reset as written. `RoundTrip.StaleClassAfterLoad` shows the effect on a load: the
saved record of an empty cell, loaded over a rotated spike painted with `class-2`, leaves
`cell class-2`. The intended behaviour is `Cells.ClearClasses`, performed by
`Grid.ClearCellClasses`, which is proved to leave only `cell` on every well-formed cell.

`Cells.LiveResetAgrees` proves that the two readings agree when a cell has at most one token
besides `cell` and the shapes. The page's fresh grid is such a case. So the round trip
(`RoundTrip.SaveThenLoad`, `Controller.LoadOntoFreshGrid`) holds under both readings when
cells of that kind are loaded over.
