/** The editor's controller (script.js:30-74, 194-216): the selected tool and
    brush, the mouse state, the per-class counters shown on the sidebar
    buttons, and `handleMouseEvent`, which paints, erases or flips the cell
    under the mouse. `Handle` says what one event does to the grid and the
    counters; class `Editor` performs it in place. */
module Controller {
  import opened Wrappers
  import opened JsText
  import opened ClassList
  import opened Cells
  import opened Grid
  import Export
  import Save
  import Load
  import RoundTrip

  /** The tool buttons; the selection listeners keep exactly one of them selected. */
  datatype Tool = PaintTool | EraseTool | FlipTool

  /** A sidebar button: its class (`classList[1]`), its `data-color`, its
      `data-shape` and the `data-max` of its counter (0 when there is no cap). */
  datatype Button = Button(cls: string, color: string, shape: string, max: int)

  datatype EventKind = Click | MouseOver

  /** What the event's target is: a grid cell, or something else inside the
      grid element (the grid itself). */
  datatype Target = OnCell(index: nat) | Elsewhere

  /** `colorCounters`, keyed by button class, and the text shown by each
      button's counter element, in sidebar order. */
  datatype Counters = Counters(counts: map<string, int>, texts: seq<string>)

  /** The part of the page that mouse events change. */
  datatype Editing = Editing(cells: seq<Cell>, counters: Counters)

  /** The buttons the configuration can produce: `classList.add('sidebar-button', cls)`
      and `classList.add(shape)` accept the tokens, and `classList[1]` is the
      button's own class. */
  predicate ButtonsOk(buttons: seq<Button>) {
    forall k :: 0 <= k < |buttons| ==>
      ValidToken(buttons[k].cls) && buttons[k].cls != "sidebar-button" && ValidToken(buttons[k].shape)
  }

  /** Every button's class has a counter and every button a counter text. */
  predicate CountersOk(buttons: seq<Button>, ctr: Counters) {
    (forall k :: 0 <= k < |buttons| ==> buttons[k].cls in ctr.counts) && |ctr.texts| == |buttons|
  }

  predicate CellsOk(cells: seq<Cell>) {
    forall i :: 0 <= i < |cells| ==> Valid(cells[i])
  }

  /** Replacing one cell by a well-formed one keeps the grid well formed. */
  lemma CellsOkUpdate(cells: seq<Cell>, i: nat, c: Cell)
    requires CellsOk(cells) && i < |cells| && Valid(c)
    ensures CellsOk(cells[i := c])
  {
  }

  predicate StateOk(buttons: seq<Button>, st: Editing) {
    ButtonsOk(buttons) && CellsOk(st.cells) && CountersOk(buttons, st.counters)
  }

  /** No counter is below zero. */
  predicate NonNegative(ctr: Counters) {
    forall c :: c in ctr.counts ==> ctr.counts[c] >= 0
  }

  /** No capped button's counter is above its cap. */
  predicate WithinCaps(buttons: seq<Button>, ctr: Counters)
    requires CountersOk(buttons, ctr)
  {
    forall k :: 0 <= k < |buttons| && buttons[k].max > 0 ==> ctr.counts[buttons[k].cls] <= buttons[k].max
  }

  /** Each button's counter text shows its class's counter. */
  predicate TextsShowCounts(buttons: seq<Button>, ctr: Counters)
    requires CountersOk(buttons, ctr)
  {
    forall k :: 0 <= k < |buttons| ==> ctr.texts[k] == CounterText(ctr.counts[buttons[k].cls], buttons[k].max)
  }

  /** No two buttons share a class (and so a counter). */
  predicate DistinctClasses(buttons: seq<Button>) {
    forall j, k :: 0 <= j < k < |buttons| ==> buttons[j].cls != buttons[k].cls
  }

  /** `updateCounter`: `n/max` when there is a positive cap, `n` otherwise. */
  function CounterText(n: int, max: int): string {
    if max > 0 then IntToString(n) + "/" + IntToString(max) else IntToString(n)
  }

  /** What a counter text says: the count reads back from it with `parseInt`,
      it holds a `/` exactly when there is a positive cap, and the cap reads
      back from what follows the `/`. */
  lemma CounterTextReads(n: int, max: int)
    ensures var t := CounterText(n, max);
      ParseInt(t) == Some(n) && ('/' in t <==> max > 0)
      && (max > 0 ==> |IntToString(n)| < |t| && t[|IntToString(n)|] == '/'
                      && ParseInt(t[|IntToString(n)| + 1..]) == Some(max))
  {
    var count := IntToString(n);
    var t := CounterText(n, max);
    assert '/' !in count;
    if max > 0 {
      assert t == count + ("/" + IntToString(max));
      ParseIntBefore(n, "/" + IntToString(max));
      assert t[|count| + 1..] == IntToString(max) + "";
      ParseIntBefore(max, "");
      assert t[|count|] == '/';
    } else {
      assert count + "" == count;
      ParseIntBefore(n, "");
    }
  }

  /** The counter text a button is created with: `0${max ? '/' + max : ''}`. */
  function InitialCounterText(max: int): string {
    "0" + (if max != 0 then "/" + IntToString(max) else "")
  }

  /** For a cap that is not negative, the text a button is created with is the
      one `updateCounter` would show for 0. */
  lemma InitialTextIsZeroText(max: int)
    requires max >= 0
    ensures InitialCounterText(max) == CounterText(0, max)
  {
    assert IntToString(0) == "0";
  }

  /** The search in `decrementCounter`: the first button with the given `data-color`. */
  function FirstWithColor(buttons: seq<Button>, color: string): (r: Option<nat>)
    ensures r.Some? ==> r.value < |buttons| && buttons[r.value].color == color
    ensures r.Some? ==> forall j :: 0 <= j < r.value ==> buttons[j].color != color
    ensures r.None? ==> forall j :: 0 <= j < |buttons| ==> buttons[j].color != color
  {
    if buttons == [] then None
    else if buttons[0].color == color then Some(0)
    else
      match FirstWithColor(buttons[1..], color)
      case None => None
      case Some(k) => Some(k + 1)
  }

  /** `decrementCounter(color)`: the first button with that colour, if any, has
      its class's counter lowered by one, but only when it is above zero, and
      its own counter text updated. */
  function Decrement(buttons: seq<Button>, ctr: Counters, color: string): (r: Counters)
    requires CountersOk(buttons, ctr)
    ensures CountersOk(buttons, r) && r.counts.Keys == ctr.counts.Keys
    ensures FirstWithColor(buttons, color).None? ==> r == ctr
    ensures FirstWithColor(buttons, color).Some? ==>
      var k := FirstWithColor(buttons, color).value;
      var cls := buttons[k].cls;
      (forall c :: c in ctr.counts && c != cls ==> r.counts[c] == ctr.counts[c])
      && r.counts[cls] == (if ctr.counts[cls] > 0 then ctr.counts[cls] - 1 else ctr.counts[cls])
      && (forall j :: 0 <= j < |buttons| && j != k ==> r.texts[j] == ctr.texts[j])
      && (ctr.counts[cls] > 0 ==> r.texts[k] == CounterText(r.counts[cls], buttons[k].max))
      && (ctr.counts[cls] <= 0 ==> r == ctr)
    ensures NonNegative(ctr) ==> NonNegative(r)
  {
    match FirstWithColor(buttons, color)
    case None => ctr
    case Some(k) =>
      var cls := buttons[k].cls;
      if ctr.counts[cls] > 0 then
        var n := ctr.counts[cls] - 1;
        Counters(ctr.counts[cls := n], ctr.texts[k := CounterText(n, buttons[k].max)])
      else ctr
  }

  /** `incrementCounter(button, cls, max)` for the selected button `k`. */
  function Increment(buttons: seq<Button>, ctr: Counters, k: nat): (r: Counters)
    requires CountersOk(buttons, ctr) && k < |buttons|
    ensures CountersOk(buttons, r) && r.counts.Keys == ctr.counts.Keys
    ensures r.counts[buttons[k].cls] == ctr.counts[buttons[k].cls] + 1
    ensures forall c :: c in ctr.counts && c != buttons[k].cls ==> r.counts[c] == ctr.counts[c]
    ensures r.texts[k] == CounterText(r.counts[buttons[k].cls], buttons[k].max)
    ensures forall j :: 0 <= j < |buttons| && j != k ==> r.texts[j] == ctr.texts[j]
    ensures NonNegative(ctr) ==> NonNegative(r)
  {
    var cls := buttons[k].cls;
    var n := ctr.counts[cls] + 1;
    Counters(ctr.counts[cls := n], ctr.texts[k := CounterText(n, buttons[k].max)])
  }

  /** The paint steps: `resetCell`, the brush colour, `applyShape` with the
      brush shape, then the brush class. */
  function Paint(c: Cell, b: Button): (r: Cell)
  {
    ShapeThenClass(Reset(c).(color := b.color), b.shape, b.cls)
  }

  /** `applyShape` on a cell whose list is just `cell` leaves `cell, shape`. */
  lemma ShapeOnBareCell(c: Cell, shape: string)
    requires c.classes == ["cell"] && shape != "" && shape != "cell"
    ensures ApplyShape(c, shape).classes == ["cell", shape]
  {
    var cleared := RemoveAll(c.classes, ["circle", "triangle", "square"]);
    assert cleared == ["cell"] by {
      OnlyToken(cleared, "cell");
    }
  }

  /** What a painted cell looks like: the class list is `cell`, the shape, the
      brush class (the shape only once when the brush class names it too). */
  lemma PaintedCell(c: Cell, b: Button)
    requires Valid(c) && ValidToken(b.shape) && ValidToken(b.cls) && b.shape != "cell" && b.cls != "cell"
    ensures Paint(c, b).color == b.color && Paint(c, b).rotation == c.rotation
    ensures Paint(c, b).classes == if b.cls == b.shape then ["cell", b.shape] else ["cell", b.shape, b.cls]
  {
    var blank := Reset(c).(color := b.color);
    ShapeOnBareCell(blank, b.shape);
    BrushClassAfterShape(b.shape, b.cls);
  }

  lemma BrushClassAfterShape(shape: string, cls: string)
    requires cls != "cell"
    ensures Add(["cell", shape], cls) == if cls == shape then ["cell", shape] else ["cell", shape, cls]
  {
  }

  /** Painting keeps a cell well formed. */
  lemma PaintKeepsValid(c: Cell, b: Button)
    requires Valid(c) && ValidToken(b.shape) && ValidToken(b.cls)
    ensures Valid(Paint(c, b))
  {
  }

  /** Lowering a counter cannot take it above its cap. */
  lemma DecrementKeepsCaps(buttons: seq<Button>, ctr: Counters, color: string)
    requires CountersOk(buttons, ctr) && WithinCaps(buttons, ctr)
    ensures WithinCaps(buttons, Decrement(buttons, ctr, color))
  {
  }

  /** With one counter per button, `decrementCounter` keeps every text in step. */
  lemma DecrementKeepsTexts(buttons: seq<Button>, ctr: Counters, color: string)
    requires CountersOk(buttons, ctr) && DistinctClasses(buttons) && TextsShowCounts(buttons, ctr)
    ensures TextsShowCounts(buttons, Decrement(buttons, ctr, color))
  {
    var r := Decrement(buttons, ctr, color);
    match FirstWithColor(buttons, color)
    case None =>
    case Some(k) =>
      forall j | 0 <= j < |buttons|
        ensures r.texts[j] == CounterText(r.counts[buttons[j].cls], buttons[j].max)
      {
        if j != k {
          assert buttons[j].cls != buttons[k].cls by {
            if j < k { assert buttons[j].cls != buttons[k].cls; } else { assert buttons[k].cls != buttons[j].cls; }
          }
        }
      }
  }

  /** Raising the selected button's counter while it is below its cap (or
      uncapped) keeps every capped counter within its cap. */
  lemma IncrementKeepsCaps(buttons: seq<Button>, ctr: Counters, k: nat)
    requires CountersOk(buttons, ctr) && k < |buttons| && DistinctClasses(buttons) && WithinCaps(buttons, ctr)
    requires buttons[k].max == 0 || ctr.counts[buttons[k].cls] < buttons[k].max
    ensures WithinCaps(buttons, Increment(buttons, ctr, k))
  {
    var r := Increment(buttons, ctr, k);
    forall j | 0 <= j < |buttons| && buttons[j].max > 0
      ensures r.counts[buttons[j].cls] <= buttons[j].max
    {
      if j != k {
        assert buttons[j].cls != buttons[k].cls by {
          if j < k { assert buttons[j].cls != buttons[k].cls; } else { assert buttons[k].cls != buttons[j].cls; }
        }
      }
    }
  }

  /** With one counter per button, `incrementCounter` keeps every text in step. */
  lemma IncrementKeepsTexts(buttons: seq<Button>, ctr: Counters, k: nat)
    requires CountersOk(buttons, ctr) && k < |buttons| && DistinctClasses(buttons) && TextsShowCounts(buttons, ctr)
    ensures TextsShowCounts(buttons, Increment(buttons, ctr, k))
  {
    var r := Increment(buttons, ctr, k);
    forall j | 0 <= j < |buttons|
      ensures r.texts[j] == CounterText(r.counts[buttons[j].cls], buttons[j].max)
    {
      if j != k {
        assert buttons[j].cls != buttons[k].cls by {
          if j < k { assert buttons[j].cls != buttons[k].cls; } else { assert buttons[k].cls != buttons[j].cls; }
        }
      }
    }
  }

  /** The erase branch: a painted cell goes back to just `cell` with no colour
      (its rotation stays) and the counter of its colour is decremented; an
      unpainted cell is left alone. */
  function Erase(buttons: seq<Button>, st: Editing, i: nat): (r: Editing)
    requires StateOk(buttons, st) && i < |st.cells|
    ensures StateOk(buttons, r) && r.counters.counts.Keys == st.counters.counts.Keys
    ensures st.cells[i].color == "" ==> r == st
    ensures st.cells[i].color != "" ==>
      r.cells == st.cells[i := Cell(["cell"], "", st.cells[i].rotation)]
      && r.counters == Decrement(buttons, st.counters, st.cells[i].color)
  {
    var cell := st.cells[i];
    if cell.color != "" then Editing(st.cells[i := Reset(cell)], Decrement(buttons, st.counters, cell.color))
    else st
  }

  /** The counters once the colour being painted over has been given back. */
  function Released(buttons: seq<Button>, ctr: Counters, color: string): (r: Counters)
    requires CountersOk(buttons, ctr)
    ensures CountersOk(buttons, r) && r.counts.Keys == ctr.counts.Keys
    ensures color == "" ==> r == ctr
  {
    if color != "" then Decrement(buttons, ctr, color) else ctr
  }

  /** The counts after `incrementCounter`, as one map. */
  lemma IncrementCounts(buttons: seq<Button>, ctr: Counters, k: nat)
    requires CountersOk(buttons, ctr) && k < |buttons|
    ensures Increment(buttons, ctr, k).counts == ctr.counts[buttons[k].cls := ctr.counts[buttons[k].cls] + 1]
  {
  }

  /** Whether the brush may paint: it has no cap or its counter is below it. */
  predicate BelowCap(b: Button, ctr: Counters)
    requires b.cls in ctr.counts
  {
    b.max == 0 || ctr.counts[b.cls] < b.max
  }

  /** The brush `k` paints cell `i` when it is below its cap, and its counter goes up. */
  function Place(buttons: seq<Button>, st: Editing, i: nat, k: nat): (r: Editing)
    requires StateOk(buttons, st) && i < |st.cells| && k < |buttons|
    ensures StateOk(buttons, r) && r.counters.counts.Keys == st.counters.counts.Keys
    ensures |r.cells| == |st.cells| && forall j :: 0 <= j < |st.cells| && j != i ==> r.cells[j] == st.cells[j]
    ensures r.cells[i].rotation == st.cells[i].rotation
    ensures !BelowCap(buttons[k], st.counters) ==> r == st
  {
    var b := buttons[k];
    if BelowCap(b, st.counters) then
      assert ValidToken(b.shape) && ValidToken(b.cls);
      PaintKeepsValid(st.cells[i], b);
      var cells := st.cells[i := Paint(st.cells[i], b)];
      CellsOkUpdate(st.cells, i, Paint(st.cells[i], b));
      Editing(cells, Increment(buttons, st.counters, k))
    else st
  }

  /** The paint branch with brush `k`: nothing happens when the cell already has
      the brush colour; otherwise the cell's colour is given back, then the brush
      is placed. */
  function PaintWith(buttons: seq<Button>, st: Editing, i: nat, k: nat): (r: Editing)
    requires StateOk(buttons, st) && i < |st.cells| && k < |buttons|
    ensures StateOk(buttons, r) && r.counters.counts.Keys == st.counters.counts.Keys
    ensures |r.cells| == |st.cells| && forall j :: 0 <= j < |st.cells| && j != i ==> r.cells[j] == st.cells[j]
    ensures r.cells[i].rotation == st.cells[i].rotation
  {
    var cell := st.cells[i];
    if cell.color == buttons[k].color then st
    else Place(buttons, Editing(st.cells, Released(buttons, st.counters, cell.color)), i, k)
  }

  /** The flip branch. */
  function Flip(st: Editing, i: nat): (r: Editing)
    requires CellsOk(st.cells) && i < |st.cells| && RightAngled(st.cells[i])
    ensures CellsOk(r.cells) && r.counters == st.counters
    ensures r.cells == st.cells[i := Rotate(st.cells[i])]
  {
    Editing(st.cells[i := Rotate(st.cells[i])], st.counters)
  }

  /** The flip is modelled for rotations that are whole quarter turns (see
      `Cells.Rotate`); the other branches do not read the rotation. */
  predicate FlipModelled(tool: Tool, st: Editing, i: nat)
    requires i < |st.cells|
  {
    tool == FlipTool && "spike" in st.cells[i].classes ==> RightAngled(st.cells[i])
  }

  /** `handleMouseEvent`: what one `click` or `mouseover` does. */
  function Handle(buttons: seq<Button>, tool: Tool, selected: Option<nat>, mouseDown: bool,
                  st: Editing, kind: EventKind, target: Target): (r: Editing)
    requires StateOk(buttons, st)
    requires selected.Some? ==> selected.value < |buttons|
    requires target.OnCell? ==> target.index < |st.cells| && FlipModelled(tool, st, target.index)
    ensures StateOk(buttons, r) && r.counters.counts.Keys == st.counters.counts.Keys
    ensures !Acts(mouseDown, kind, target) ==> r == st
    ensures |r.cells| == |st.cells| && forall j :: 0 <= j < |st.cells| && target != OnCell(j) ==> r.cells[j] == st.cells[j]
  {
    if !Acts(mouseDown, kind, target) then st
    else
      var i := target.index;
      if tool == EraseTool then Erase(buttons, st, i)
      else if tool == PaintTool && selected.Some? then PaintWith(buttons, st, i, selected.value)
      else if "spike" in st.cells[i].classes && tool == FlipTool then Flip(st, i)
      else st
  }

  /** The gate is open: the target is a cell and the mouse is down or the event is a click. */
  predicate Acts(mouseDown: bool, kind: EventKind, target: Target) {
    target.OnCell? && (mouseDown || kind == Click)
  }

  /** Painting with a brush whose colour is already the cell's changes nothing. */
  lemma RepaintSameColour(buttons: seq<Button>, k: nat, mouseDown: bool, st: Editing, kind: EventKind, i: nat)
    requires StateOk(buttons, st) && k < |buttons| && i < |st.cells|
    requires st.cells[i].color == buttons[k].color
    ensures Handle(buttons, PaintTool, Some(k), mouseDown, st, kind, OnCell(i)) == st
  {
  }

  /** Painting over a different colour: the old colour's counter is decremented
      first; then, below the cap (or with no cap), the cell becomes
      `cell, shape, class` in the brush colour and the brush class's counter goes
      up by one; at the cap the cell keeps its colour and classes, but the old
      colour's counter stays decremented. */
  lemma PaintOverOtherColour(buttons: seq<Button>, k: nat, st: Editing, kind: EventKind, i: nat)
    requires StateOk(buttons, st) && k < |buttons| && i < |st.cells|
    requires st.cells[i].color != buttons[k].color
    requires buttons[k].shape != "cell" && buttons[k].cls != "cell" && buttons[k].cls != buttons[k].shape
    ensures var b := buttons[k];
      var ctr := Released(buttons, st.counters, st.cells[i].color);
      var r := Handle(buttons, PaintTool, Some(k), true, st, kind, OnCell(i));
      if BelowCap(b, ctr) then
        r.cells[i] == Cell(["cell", b.shape, b.cls], b.color, st.cells[i].rotation)
        && r.counters.counts == ctr.counts[b.cls := ctr.counts[b.cls] + 1]
      else
        r.cells == st.cells && r.counters == ctr
  {
    var ctr := Released(buttons, st.counters, st.cells[i].color);
    var r := Handle(buttons, PaintTool, Some(k), true, st, kind, OnCell(i));
    assert r == Place(buttons, Editing(st.cells, ctr), i, k) by {
      assert r == PaintWith(buttons, st, i, k);
    }
    if BelowCap(buttons[k], ctr) {
      PlaceBelowCap(buttons, Editing(st.cells, ctr), i, k);
      PlaceCounts(buttons, Editing(st.cells, ctr), i, k);
    }
  }

  /** Below the cap `Place` makes the cell `cell, shape, class` in the brush
      colour (at the cap it changes nothing, as its own contract says). */
  lemma PlaceBelowCap(buttons: seq<Button>, st: Editing, i: nat, k: nat)
    requires StateOk(buttons, st) && k < |buttons| && i < |st.cells|
    requires buttons[k].shape != "cell" && buttons[k].cls != "cell" && buttons[k].cls != buttons[k].shape
    requires BelowCap(buttons[k], st.counters)
    ensures var b := buttons[k];
      Place(buttons, st, i, k).cells[i] == Cell(["cell", b.shape, b.cls], b.color, st.cells[i].rotation)
  {
    var b := buttons[k];
    assert Place(buttons, st, i, k).cells[i] == Paint(st.cells[i], b);
    assert ValidToken(b.shape) && ValidToken(b.cls);
    PaintedCell(st.cells[i], b);
  }

  /** Below the cap `Place` adds one to the brush class's counter and leaves
      the other counters alone. */
  lemma PlaceCounts(buttons: seq<Button>, st: Editing, i: nat, k: nat)
    requires StateOk(buttons, st) && k < |buttons| && i < |st.cells|
    requires BelowCap(buttons[k], st.counters)
    ensures Place(buttons, st, i, k).counters.counts
      == st.counters.counts[buttons[k].cls := st.counters.counts[buttons[k].cls] + 1]
  {
    assert Place(buttons, st, i, k).counters == Increment(buttons, st.counters, k);
    IncrementCounts(buttons, st.counters, k);
  }

  /** Erasing through the handler: see `Erase`. */
  lemma EraseCell(buttons: seq<Button>, selected: Option<nat>, st: Editing, kind: EventKind, i: nat)
    requires StateOk(buttons, st) && i < |st.cells|
    requires selected.Some? ==> selected.value < |buttons|
    ensures var r := Handle(buttons, EraseTool, selected, true, st, kind, OnCell(i));
      if st.cells[i].color == "" then r == st
      else
        r.cells[i] == Cell(["cell"], "", st.cells[i].rotation)
        && r.counters == Decrement(buttons, st.counters, st.cells[i].color)
  {
  }

  /** Flipping is the only way an event changes a cell's rotation: the rotation
      of the target changes exactly when the gate is open, the tool is the flip
      tool and the cell has `spike`; the cell is then rotated a quarter turn. */
  lemma OnlyFlipRotates(buttons: seq<Button>, tool: Tool, selected: Option<nat>, mouseDown: bool,
                        st: Editing, kind: EventKind, i: nat)
    requires StateOk(buttons, st) && i < |st.cells| && FlipModelled(tool, st, i)
    requires selected.Some? ==> selected.value < |buttons|
    ensures var r := Handle(buttons, tool, selected, mouseDown, st, kind, OnCell(i));
      (r.cells[i].rotation != st.cells[i].rotation <==>
        (mouseDown || kind == Click) && tool == FlipTool && "spike" in st.cells[i].classes)
      && ((mouseDown || kind == Click) && tool == FlipTool && "spike" in st.cells[i].classes ==>
        r.cells[i] == Rotate(st.cells[i]) && r.counters == st.counters)
  {
    var r := Handle(buttons, tool, selected, mouseDown, st, kind, OnCell(i));
    if mouseDown || kind == Click {
      if tool == EraseTool {
        assert r == Erase(buttons, st, i);
      } else if tool == PaintTool && selected.Some? {
        assert r == PaintWith(buttons, st, i, selected.value);
      } else if "spike" in st.cells[i].classes && tool == FlipTool {
        assert r == Flip(st, i);
        RotateMoves(st.cells[i]);
      }
    }
  }

  /** No event drives a counter below zero. */
  lemma HandleKeepsNonNegative(buttons: seq<Button>, tool: Tool, selected: Option<nat>, mouseDown: bool,
                               st: Editing, kind: EventKind, target: Target)
    requires StateOk(buttons, st) && NonNegative(st.counters)
    requires selected.Some? ==> selected.value < |buttons|
    requires target.OnCell? ==> target.index < |st.cells| && FlipModelled(tool, st, target.index)
    ensures NonNegative(Handle(buttons, tool, selected, mouseDown, st, kind, target).counters)
  {
  }

  /** With one counter per button, no event takes a capped counter above its cap. */
  lemma HandleKeepsCaps(buttons: seq<Button>, tool: Tool, selected: Option<nat>, mouseDown: bool,
                        st: Editing, kind: EventKind, target: Target)
    requires StateOk(buttons, st) && DistinctClasses(buttons) && WithinCaps(buttons, st.counters)
    requires selected.Some? ==> selected.value < |buttons|
    requires target.OnCell? ==> target.index < |st.cells| && FlipModelled(tool, st, target.index)
    ensures WithinCaps(buttons, Handle(buttons, tool, selected, mouseDown, st, kind, target).counters)
  {
    if Acts(mouseDown, kind, target) {
      var i := target.index;
      var cell := st.cells[i];
      if tool == EraseTool {
        DecrementKeepsCaps(buttons, st.counters, cell.color);
      } else if tool == PaintTool && selected.Some? {
        var k := selected.value;
        var ctr := Released(buttons, st.counters, cell.color);
        DecrementKeepsCaps(buttons, st.counters, cell.color);
        if cell.color != buttons[k].color && BelowCap(buttons[k], ctr) {
          IncrementKeepsCaps(buttons, ctr, k);
        }
      }
    }
  }

  /** With one counter per button, every counter text keeps showing its counter. */
  lemma HandleKeepsTexts(buttons: seq<Button>, tool: Tool, selected: Option<nat>, mouseDown: bool,
                         st: Editing, kind: EventKind, target: Target)
    requires StateOk(buttons, st) && DistinctClasses(buttons) && TextsShowCounts(buttons, st.counters)
    requires selected.Some? ==> selected.value < |buttons|
    requires target.OnCell? ==> target.index < |st.cells| && FlipModelled(tool, st, target.index)
    ensures TextsShowCounts(buttons, Handle(buttons, tool, selected, mouseDown, st, kind, target).counters)
  {
    if Acts(mouseDown, kind, target) {
      var i := target.index;
      var cell := st.cells[i];
      if tool == EraseTool {
        DecrementKeepsTexts(buttons, st.counters, cell.color);
      } else if tool == PaintTool && selected.Some? {
        var k := selected.value;
        var ctr := Released(buttons, st.counters, cell.color);
        DecrementKeepsTexts(buttons, st.counters, cell.color);
        if cell.color != buttons[k].color && BelowCap(buttons[k], ctr) {
          IncrementKeepsTexts(buttons, ctr, k);
        }
      }
    }
  }

  /** A grid as the page builds it: 900 cells with the class `cell` only. */
  function FreshGrid(): (g: seq<Cell>)
    ensures |g| == GridSize && CellsOk(g)
  {
    seq(GridSize, _ => Fresh())
  }

  /** Loading a saved grid onto the page as it starts: every cell is fresh, so
      `resetCellClasses` as written clears it, the load completes, and every cell
      gets back the saved tokens, colour and rotation. */
  lemma LoadOntoFreshGrid(cs: seq<Cell>)
    requires |cs| == GridSize && forall j :: 0 <= j < |cs| ==> RoundTrip.Savable(cs[j])
    ensures var r := Load.LoadText(FreshGrid(), Save.SaveText(cs));
      r.ok && |r.cells| == GridSize
      && forall j :: 0 <= j < GridSize ==>
        (forall x :: x in r.cells[j].classes <==> x in cs[j].classes)
        && r.cells[j].color == cs[j].color
        && r.cells[j].rotation == Some(CurrentRotation(cs[j]))
  {
    var g := FreshGrid();
    assert forall j :: 0 <= j < |g| ==> AtMostOneExtra(g[j]) by {
      forall j | 0 <= j < |g|
        ensures AtMostOneExtra(g[j])
      {
        assert g[j] == Fresh();
      }
    }
    RoundTrip.SaveThenLoad(g, cs);
  }

  /** `colorCounters` as the configuration leaves it: 0 for every button class. */
  function ZeroCounts(buttons: seq<Button>): (m: map<string, int>)
    ensures forall k :: 0 <= k < |buttons| ==> buttons[k].cls in m
    ensures forall c :: c in m ==> m[c] == 0
  {
    if buttons == [] then map[]
    else ZeroCounts(buttons[..|buttons| - 1])[buttons[|buttons| - 1].cls := 0]
  }

  /** The counter texts the buttons are created with, in sidebar order. */
  function InitialTexts(buttons: seq<Button>): (t: seq<string>)
    ensures |t| == |buttons|
    ensures forall k :: 0 <= k < |buttons| ==> t[k] == InitialCounterText(buttons[k].max)
  {
    if buttons == [] then []
    else InitialTexts(buttons[..|buttons| - 1]) + [InitialCounterText(buttons[|buttons| - 1].max)]
  }

  /** The page right after the configuration is read (script.js:5-9, 125-133). */
  function Initial(buttons: seq<Button>): Editing {
    Editing(FreshGrid(), Counters(ZeroCounts(buttons), InitialTexts(buttons)))
  }

  /** The initial page is well formed, no counter is negative or above its cap,
      and, when no cap is negative, every counter text shows its counter. */
  lemma InitialOk(buttons: seq<Button>)
    requires ButtonsOk(buttons)
    ensures var st := Initial(buttons);
      StateOk(buttons, st) && NonNegative(st.counters) && WithinCaps(buttons, st.counters)
      && ((forall k :: 0 <= k < |buttons| ==> buttons[k].max >= 0) ==> TextsShowCounts(buttons, st.counters))
  {
    var ctr := Initial(buttons).counters;
    if forall k :: 0 <= k < |buttons| ==> buttons[k].max >= 0 {
      forall k | 0 <= k < |buttons|
        ensures ctr.texts[k] == CounterText(ctr.counts[buttons[k].cls], buttons[k].max)
      {
        InitialTextIsZeroText(buttons[k].max);
      }
    }
  }

  /** The grid loop (script.js:5-9): 900 fresh cells. */
  method NewGrid() returns (grid: array<Cell>)
    ensures fresh(grid) && grid[..] == FreshGrid()
  {
    grid := new Cell[GridSize];
    for i := 0 to GridSize
      invariant forall j :: 0 <= j < i ==> grid[j] == Fresh()
    {
      grid[i] := Fresh();
    }
    assert grid[..] == FreshGrid();
  }

  /** The counters loop (script.js:125-133): a zero count and its text per button. */
  method NewCounters(buttons: seq<Button>) returns (counts: map<string, int>, texts: seq<string>)
    ensures counts == ZeroCounts(buttons) && texts == InitialTexts(buttons)
  {
    counts, texts := map[], [];
    for k := 0 to |buttons|
      invariant counts == ZeroCounts(buttons[..k]) && texts == InitialTexts(buttons[..k])
    {
      assert buttons[..k + 1][..k] == buttons[..k];
      counts := counts[buttons[k].cls := 0];
      texts := texts + [InitialCounterText(buttons[k].max)];
    }
    assert buttons[..|buttons|] == buttons;
  }

  /** The editor page: the grid's cells, the selected tool and sidebar button,
      whether the mouse is down, and the counters. */
  class Editor {
    const buttons: seq<Button>
    const cells: array<Cell>
    var tool: Tool
    var selected: Option<nat>
    var mouseDown: bool
    var counts: map<string, int>
    var texts: seq<string>

    /** The page is well formed, no counter is negative, and, with one counter
        per button, no capped counter is above its cap. */
    ghost predicate Valid()
      reads this, cells
    {
      cells.Length == GridSize && StateOk(buttons, State()) && (selected.Some? ==> selected.value < |buttons|)
      && NonNegative(Counters(counts, texts))
      && (DistinctClasses(buttons) ==> WithinCaps(buttons, Counters(counts, texts)))
    }

    /** The grid and the counters as one value. */
    function State(): Editing
      reads this, cells
    {
      Editing(cells[..], Counters(counts, texts))
    }

    /** Builds the grid (script.js:5-9) and the counters of the configured buttons
        (script.js:125-133). The paint tool starts selected and no brush is. */
    constructor (buttons: seq<Button>)
      requires ButtonsOk(buttons)
      ensures Valid() && fresh(cells)
      ensures this.buttons == buttons && State() == Initial(buttons)
      ensures tool == PaintTool && selected == None && !mouseDown
    {
      var grid := NewGrid();
      var counts, texts := NewCounters(buttons);
      this.buttons := buttons;
      cells := grid;
      tool := PaintTool;
      selected := None;
      mouseDown := false;
      this.counts := counts;
      this.texts := texts;
      new;
      InitialOk(buttons);
    }

    /** A click on a tool button selects that tool and only it. */
    method SelectTool(t: Tool)
      requires Valid()
      modifies this
      ensures Valid() && tool == t
      ensures selected == old(selected) && mouseDown == old(mouseDown) && State() == old(State())
    {
      tool := t;
    }

    /** A click on sidebar button `k` makes it the brush and only it. */
    method SelectBrush(k: nat)
      requires Valid() && k < |buttons|
      modifies this
      ensures Valid() && selected == Some(k)
      ensures tool == old(tool) && mouseDown == old(mouseDown) && State() == old(State())
    {
      selected := Some(k);
    }

    /** The document's `mousedown` and `mouseup` listeners. */
    method SetMouseDown(down: bool)
      requires Valid()
      modifies this
      ensures Valid() && mouseDown == down
      ensures tool == old(tool) && selected == old(selected) && State() == old(State())
    {
      mouseDown := down;
    }

    /** `updateCounter(button, cls, max)` for button `k`. */
    method UpdateCounter(k: nat)
      requires Valid() && k < |buttons|
      modifies this
      ensures Valid() && texts == old(texts)[k := CounterText(counts[buttons[k].cls], buttons[k].max)]
      ensures counts == old(counts) && tool == old(tool) && selected == old(selected) && mouseDown == old(mouseDown)
    {
      var cls := buttons[k].cls;
      texts := texts[k := CounterText(counts[cls], buttons[k].max)];
    }

    /** `incrementCounter(button, cls, max)` for button `k`. */
    method IncrementCounter(k: nat)
      requires Valid() && k < |buttons| && BelowCap(buttons[k], Counters(counts, texts))
      modifies this
      ensures Valid() && Counters(counts, texts) == Increment(buttons, old(Counters(counts, texts)), k)
      ensures tool == old(tool) && selected == old(selected) && mouseDown == old(mouseDown)
    {
      var cls := buttons[k].cls;
      ghost var after := Increment(buttons, Counters(counts, texts), k);
      if DistinctClasses(buttons) {
        IncrementKeepsCaps(buttons, Counters(counts, texts), k);
      }
      counts := counts[cls := counts[cls] + 1];
      assert counts == after.counts;
      UpdateCounter(k);
    }

    /** `decrementCounter(color)`. */
    method DecrementCounter(color: string)
      requires Valid()
      modifies this
      ensures Valid() && Counters(counts, texts) == Decrement(buttons, old(Counters(counts, texts)), color)
      ensures tool == old(tool) && selected == old(selected) && mouseDown == old(mouseDown)
    {
      ghost var after := Decrement(buttons, Counters(counts, texts), color);
      if DistinctClasses(buttons) {
        DecrementKeepsCaps(buttons, Counters(counts, texts), color);
      }
      var button := FirstWithColor(buttons, color);
      if button.Some? {
        var k := button.value;
        var cls := buttons[k].cls;
        if counts[cls] > 0 {
          counts := counts[cls := counts[cls] - 1];
          assert counts == after.counts;
          UpdateCounter(k);
        }
      }
    }

    /** The erase branch of `handleMouseEvent` on cell `i`. */
    method EraseAt(i: nat)
      requires Valid() && i < cells.Length
      modifies this, cells
      ensures Valid() && tool == old(tool) && selected == old(selected) && mouseDown == old(mouseDown)
      ensures State() == Erase(buttons, old(State()), i)
    {
      var color := cells[i].color;
      if color != "" {
        DecrementCounter(color);
        ResetCell(cells, i);
      }
    }

    /** The paint steps on cell `i`: `resetCell`, the brush colour, `applyShape`,
        then the brush class. */
    method PaintCell(i: nat, b: Button)
      requires i < cells.Length
      modifies cells
      ensures cells[..] == old(cells[..])[i := Paint(old(cells[i]), b)]
    {
      ghost var s0 := cells[..];
      ghost var before := cells[i];
      BlankCell(cells, i, b.color);
      ghost var s1 := cells[..];
      ShapeAndClass(cells, i, b.shape, b.cls);
      assert s1[i := ShapeThenClass(s1[i], b.shape, b.cls)] == s0[i := Paint(before, b)];
    }

    /** `decrementCounter` for the colour being painted over, when there is one. */
    method ReleaseColor(color: string)
      requires Valid()
      modifies this
      ensures Valid() && tool == old(tool) && selected == old(selected) && mouseDown == old(mouseDown)
      ensures Counters(counts, texts) == Released(buttons, old(Counters(counts, texts)), color)
    {
      if color != "" {
        DecrementCounter(color);
      }
    }

    /** The cap check, then the paint steps and `incrementCounter`. */
    method PlaceAt(i: nat, k: nat)
      requires Valid() && i < cells.Length && k < |buttons|
      modifies this, cells
      ensures Valid() && tool == old(tool) && selected == old(selected) && mouseDown == old(mouseDown)
      ensures State() == Place(buttons, old(State()), i, k)
    {
      var b := buttons[k];
      if b.max == 0 || counts[b.cls] < b.max {
        ghost var before := cells[i];
        ghost var ctr := Counters(counts, texts);
        assert ValidToken(b.shape) && ValidToken(b.cls);
        PaintKeepsValid(before, b);
        PaintCell(i, b);
        assert Counters(counts, texts) == ctr;
        assert CellsOk(cells[..]) by {
          assert cells[..] == old(cells[..])[i := Paint(before, b)];
        }
        assert Valid();
        IncrementCounter(k);
      }
    }

    /** The paint branch of `handleMouseEvent` on cell `i` with brush `k`. */
    method PaintAt(i: nat, k: nat)
      requires Valid() && i < cells.Length && k < |buttons|
      modifies this, cells
      ensures Valid() && tool == old(tool) && selected == old(selected) && mouseDown == old(mouseDown)
      ensures State() == PaintWith(buttons, old(State()), i, k)
    {
      var currentColor := cells[i].color;
      if currentColor != buttons[k].color {
        ReleaseColor(currentColor);
        PlaceAt(i, k);
      }
    }

    /** `handleMouseEvent(event)`: the gate, then the branch of the selected tool. */
    method HandleMouseEvent(kind: EventKind, target: Target)
      requires Valid()
      requires target.OnCell? ==> target.index < cells.Length && FlipModelled(tool, State(), target.index)
      modifies this, cells
      ensures Valid() && tool == old(tool) && selected == old(selected) && mouseDown == old(mouseDown)
      ensures State() == Handle(buttons, tool, selected, mouseDown, old(State()), kind, target)
    {
      if target.OnCell? && (mouseDown || kind == Click) {
        var i := target.index;
        if tool == EraseTool {
          EraseAt(i);
        } else if tool == PaintTool && selected.Some? {
          PaintAt(i, selected.value);
        } else if "spike" in cells[i].classes && tool == FlipTool {
          RotateSpikeShape(cells, i);
        }
      }
    }

    /** The save button: the text of `grid-data.txt`. Nothing on the page changes. */
    method SaveFile() returns (fileContent: string)
      requires Valid()
      ensures fileContent == Save.SaveText(cells[..])
    {
      fileContent := Save.SaveGrid(cells);
    }

    /** The file reader's `onload`: the file's text is loaded onto the grid. The
        counters, tool, brush and mouse state are not touched. */
    method LoadFile(content: string) returns (completed: bool)
      requires Valid()
      modifies cells
      ensures Valid() && cells[..] == Load.LoadText(old(cells[..]), content).cells
      ensures completed == Load.LoadText(old(cells[..]), content).ok
      ensures counts == old(counts) && texts == old(texts)
      ensures tool == old(tool) && selected == old(selected) && mouseDown == old(mouseDown)
    {
      completed := Load.LoadGridFromContent(cells, content);
    }

    /** The build button: the level description, or `None` when the grid has no
        player spawn or no end (the alert). */
    method BuildLevel() returns (level: Option<Export.Level>)
      requires Valid()
      ensures level == Export.ExportLevel(cells[..])
    {
      level := Export.Build(cells);
    }
  }
}
