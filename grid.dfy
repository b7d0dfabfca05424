/** The cell mutators of script.js performed in place on the grid's array of
    cells, step by step as the source does them. Each is proved to leave the
    array exactly as the matching function of module Cells says, with every
    other cell untouched. */
module Grid {
  import opened Wrappers
  import opened JsText
  import opened ClassList
  import opened Cells

  /** The tokens of `cs[..k]` other than `cell`, grown by one position. */
  lemma OthersStep(cs: seq<string>, k: nat)
    requires k < |cs|
    ensures Others(cs[..k + 1]) == Others(cs[..k]) + (if cs[k] == "cell" then [] else [cs[k]])
  {
    assert cs[..k + 1][..k] == cs[..k];
  }

  /** Removing the tokens of `ts + [t]` is removing those of `ts`, then `t`. */
  lemma RemoveAllStep(cs: seq<string>, ts: seq<string>, t: string)
    ensures RemoveAll(cs, ts + [t]) == Remove(RemoveAll(cs, ts), t)
  {
    assert (ts + [t])[..|ts|] == ts;
  }

  /** One turn of the removal loop over the copied list. */
  lemma RemoveOthersStep(snapshot: seq<string>, k: nat, classes: seq<string>)
    requires k < |snapshot| && classes == RemoveAll(snapshot, Others(snapshot[..k]))
    ensures RemoveAll(snapshot, Others(snapshot[..k + 1]))
      == if snapshot[k] != "cell" then Remove(classes, snapshot[k]) else classes
  {
    OthersStep(snapshot, k);
    var done := Others(snapshot[..k]);
    if snapshot[k] != "cell" {
      RemoveAllStep(snapshot, done, snapshot[k]);
    } else {
      assert done + [] == done;
      assert Others(snapshot[..k + 1]) == done;
    }
  }

  /** A walk whose index has run past the end has nothing left to do. */
  lemma LiveWalkDone(cs: seq<string>, j: nat)
    requires j >= |cs|
    ensures LiveWalk(cs, j) == cs
  {
  }

  /** The loop over a snapshot of the class list (`Array.from(cell.classList)`):
      each token other than `cell` is removed. */
  method RemoveOthers(snapshot: seq<string>) returns (classes: seq<string>)
    ensures classes == RemoveAll(snapshot, Others(snapshot))
  {
    classes := snapshot;
    var k := 0;
    while k < |snapshot|
      invariant 0 <= k <= |snapshot|
      invariant classes == RemoveAll(snapshot, Others(snapshot[..k]))
    {
      RemoveOthersStep(snapshot, k, classes);
      if snapshot[k] != "cell" {
        classes := Remove(classes, snapshot[k]);
      }
      k := k + 1;
    }
    assert snapshot[..k] == snapshot;
  }

  /** `shapeClasses.forEach(shape => cell.classList.remove(shape))`. */
  method RemoveShapes(start: seq<string>) returns (classes: seq<string>)
    ensures classes == RemoveAll(start, ShapeTokens)
  {
    classes := start;
    var k := 0;
    while k < |ShapeTokens|
      invariant 0 <= k <= |ShapeTokens|
      invariant classes == RemoveAll(start, ShapeTokens[..k])
    {
      RemoveAllStep(start, ShapeTokens[..k], ShapeTokens[k]);
      assert ShapeTokens[..k + 1] == ShapeTokens[..k] + [ShapeTokens[k]];
      classes := Remove(classes, ShapeTokens[k]);
      k := k + 1;
    }
    assert ShapeTokens[..k] == ShapeTokens;
  }

  /** `resetCell(cells[i])`: the colour is cleared, then each token of a snapshot
      of the class list other than `cell` is removed from the list. */
  method ResetCell(cells: array<Cell>, i: nat)
    requires i < cells.Length
    modifies cells
    ensures cells[..] == old(cells[..])[i := Reset(old(cells[i]))]
  {
    var c := cells[i];
    var classes := RemoveOthers(c.classes);
    var reset := c.(classes := classes, color := "");
    assert reset == Reset(c);
    assert cells[..] == old(cells[..]);
    cells[i] := reset;
  }

  /** `applyShape(cells[i], shape)`. */
  method ApplyShapeAt(cells: array<Cell>, i: nat, shape: string)
    requires i < cells.Length
    modifies cells
    ensures cells[..] == old(cells[..])[i := ApplyShape(old(cells[i]), shape)]
  {
    var c := cells[i];
    var classes := RemoveAll(c.classes, ["circle", "triangle", "square"]);
    if shape != "" {
      classes := Add(classes, shape);
    }
    var shaped := c.(classes := classes);
    assert shaped == ApplyShape(c, shape);
    assert cells[..] == old(cells[..]);
    cells[i] := shaped;
  }

  /** The loop at the top of `rotateSpikeShape`: `class-1`, `class-2` and
      `class-3` are removed in turn. */
  method RemoveQuarterClasses(classes: seq<string>) returns (r: seq<string>)
    ensures r == RemoveAll(classes, QuarterClasses)
  {
    r := classes;
    var k := 1;
    while k <= 3
      invariant 1 <= k <= 4
      invariant r == RemoveAll(classes, QuarterClasses[..k - 1])
    {
      var name := "class-" + IntToString(k);
      assert QuarterClasses[..k] == QuarterClasses[..k - 1] + [name] by {
        QuarterName(k);
      }
      RemoveAllStep(classes, QuarterClasses[..k - 1], name);
      r := Remove(r, name);
      k := k + 1;
    }
    assert QuarterClasses[..3] == QuarterClasses;
  }

  /** The `k`-th name the loop builds is the `k`-th quarter class. */
  lemma QuarterName(k: int)
    requires 1 <= k <= 3
    ensures QuarterClasses[..k] == QuarterClasses[..k - 1] + ["class-" + IntToString(k)]
  {
    ClassNames();
  }

  /** `rotateSpikeShape(cells[i])`: the rotation advances a quarter turn, the loop
      removes `class-1` to `class-3`, the state class is added and `rotated` is
      set or cleared. */
  method RotateSpikeShape(cells: array<Cell>, i: nat)
    requires i < cells.Length && RightAngled(cells[i])
    modifies cells
    ensures cells[..] == old(cells[..])[i := Rotate(old(cells[i]))]
  {
    var c := cells[i];
    var currentRotation := CurrentRotation(c);
    var newRotation := NextRotation(currentRotation);
    var classes := RemoveQuarterClasses(c.classes);
    classes := Add(classes, StateToken(currentRotation));
    if newRotation != 0 {
      classes := Add(classes, "rotated");
    } else {
      classes := Remove(classes, "rotated");
    }
    var rotated := c.(classes := classes, rotation := Some(newRotation));
    assert rotated == Rotate(c);
    assert cells[..] == old(cells[..]);
    cells[i] := rotated;
  }

  /** `resetCellShape(cells[i])`. */
  method ResetCellShape(cells: array<Cell>, i: nat)
    requires i < cells.Length
    modifies cells
    ensures cells[..] == old(cells[..])[i := ClearShape(old(cells[i]))]
  {
    var c := cells[i];
    var cleared := c.(classes := RemoveAll(c.classes, ["square", "circle", "triangle"]));
    assert cleared == ClearShape(c);
    assert cells[..] == old(cells[..]);
    cells[i] := cleared;
  }

  /** `resetCellClasses(cells[i])` as written: the three shape tokens are
      removed one by one, then `forEach` walks the live class list by index,
      removing what it visits. */
  method ResetCellClasses(cells: array<Cell>, i: nat)
    requires i < cells.Length
    modifies cells
    ensures cells[..] == old(cells[..])[i := ResetClassesLive(old(cells[i]))]
  {
    var c := cells[i];
    var classes := RemoveShapes(c.classes);
    ghost var start := classes;
    var j := 0;
    while j < |classes|
      invariant LiveWalk(classes, j) == LiveWalk(start, 0)
      decreases |classes| - j
    {
      if classes[j] != "cell" {
        classes := Remove(classes, classes[j]);
      }
      j := j + 1;
    }
    LiveWalkDone(classes, j);
    var reset := c.(classes := classes);
    assert reset == ResetClassesLive(c);
    assert cells[..] == old(cells[..]);
    cells[i] := reset;
  }

  /** `resetCellClasses(cells[i])` as intended: the shape tokens are removed, then
      every token other than `cell` of a snapshot of the list. */
  method ClearCellClasses(cells: array<Cell>, i: nat)
    requires i < cells.Length
    modifies cells
    ensures cells[..] == old(cells[..])[i := ClearClasses(old(cells[i]))]
  {
    var c := cells[i];
    var classes := RemoveShapes(c.classes);
    classes := RemoveOthers(classes);
    var cleared := c.(classes := classes);
    assert cleared == ClearClasses(c);
    assert cells[..] == old(cells[..]);
    cells[i] := cleared;
  }

  /** `resetCell(cells[i])` followed by `cells[i].style.backgroundColor = color`. */
  method BlankCell(cells: array<Cell>, i: nat, color: string)
    requires i < cells.Length
    modifies cells
    ensures cells[..] == old(cells[..])[i := Reset(old(cells[i])).(color := color)]
  {
    ResetCell(cells, i);
    var blank := cells[i].(color := color);
    assert cells[..] == old(cells[..])[i := Reset(old(cells[i]))];
    cells[i] := blank;
  }

  /** `applyShape(cells[i], shape)` followed by `cells[i].classList.add(cls)`. */
  method ShapeAndClass(cells: array<Cell>, i: nat, shape: string, cls: string)
    requires i < cells.Length
    modifies cells
    ensures cells[..] == old(cells[..])[i := ShapeThenClass(old(cells[i]), shape, cls)]
  {
    ApplyShapeAt(cells, i, shape);
    var marked := cells[i].(classes := Add(cells[i].classes, cls));
    assert cells[..] == old(cells[..])[i := ApplyShape(old(cells[i]), shape)];
    cells[i] := marked;
  }
}
