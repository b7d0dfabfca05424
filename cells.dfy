/** The state of one grid cell and the three ways the editor changes it:
    `resetCell`, `applyShape` and `rotateSpikeShape` (script.js). The functions
    here say what each does to a cell value; the methods in module Grid
    perform the same steps on the grid's array in place. */
module Cells {
  import opened Wrappers
  import opened JsText
  import opened ClassList

  /** One grid cell: its class list, its `style.backgroundColor` (`""` when
      unpainted) and its `dataset.rotation` (`None` until first set; a set
      rotation of 0 is a different state). */
  datatype Cell = Cell(classes: seq<string>, color: string, rotation: Option<int>)

  /** The grid has 900 cells, 30 to a row. */
  const GridSize: nat := 900
  const Columns: nat := 30

  /** The shape tokens, in the order `resetCellClasses` and `resetCellShape` remove them. */
  const ShapeTokens: seq<string> := ["square", "circle", "triangle"]

  /** The classes the rotation loop clears, `class-${i}` for i = 1, 2, 3. */
  const QuarterClasses: seq<string> := ["class-1", "class-2", "class-3"]

  /** Every cell is created with the single class `cell`; nothing ever removes
      that token and a token list holds each token once. */
  predicate Valid(c: Cell) {
    c.classes != [] && c.classes[0] == "cell" && NoDup(c.classes)
  }

  /** A cell as the page creates it. */
  function Fresh(): (c: Cell)
    ensures Valid(c) && AtMostOneExtra(c)
  {
    Cell(["cell"], "", None)
  }

  /** `resetCell`: the colour is cleared and every token of the list other than
      `cell` is removed; the rotation is left alone. */
  function Reset(c: Cell): (r: Cell)
    ensures r.color == "" && r.rotation == c.rotation
    ensures Valid(c) ==> r.classes == ["cell"]
  {
    var cs := RemoveAll(c.classes, Others(c.classes));
    assert Valid(c) ==> cs == ["cell"] by {
      if Valid(c) {
        OnlyToken(cs, "cell");
      }
    }
    c.(classes := cs, color := "")
  }

  /** `applyShape`: every shape token goes, then `shape` is added when it is non-empty. */
  function ApplyShape(c: Cell, shape: string): (r: Cell)
    ensures r.color == c.color && r.rotation == c.rotation
    ensures forall x :: x in r.classes <==>
      (x in c.classes && x !in ShapeTokens) || (x == shape && shape != "")
    ensures Valid(c) ==> Valid(r)
  {
    var cs := RemoveAll(c.classes, ["circle", "triangle", "square"]);
    c.(classes := if shape != "" then Add(cs, shape) else cs)
  }

  /** `applyShape(c, shape)`, then `cls` added to the class list. */
  function ShapeThenClass(c: Cell, shape: string, cls: string): Cell {
    var shaped := ApplyShape(c, shape);
    shaped.(classes := Add(shaped.classes, cls))
  }

  /** `resetCellShape`: the shape tokens are removed, nothing else changes. */
  function ClearShape(c: Cell): (r: Cell)
    ensures r.color == c.color && r.rotation == c.rotation
    ensures forall x :: x in r.classes <==> x in c.classes && x !in ShapeTokens
    ensures Valid(c) ==> Valid(r)
  {
    c.(classes := RemoveAll(c.classes, ShapeTokens))
  }

  /** `resetCellClasses`: the shape tokens are removed, then `classList.forEach`
      removes each visited token other than `cell` from the live list. */
  function ResetClassesLive(c: Cell): (r: Cell)
    ensures r.color == c.color && r.rotation == c.rotation
    ensures forall x :: x in r.classes ==> x in c.classes && x !in ShapeTokens
    ensures Valid(c) ==> Valid(r)
  {
    var cs := RemoveAll(c.classes, ShapeTokens);
    LiveWalkKeeps(cs, 0);
    c.(classes := LiveWalk(cs, 0))
  }

  /** A class list `cell, enemy, rotated`: the walk removes `enemy`, `rotated`
      slides into position 1, which has already been visited, and survives. */
  lemma ResetClassesLiveSkips()
    ensures ResetClassesLive(Cell(["cell", "enemy", "rotated"], "", None)).classes == ["cell", "rotated"]
  {
    SampleHasNoShape();
    SampleWalk();
  }

  /** `cell, enemy, rotated` holds no shape token. */
  lemma SampleHasNoShape()
    ensures RemoveAll(["cell", "enemy", "rotated"], ShapeTokens) == ["cell", "enemy", "rotated"]
  {
    var cs := ["cell", "enemy", "rotated"];
    assert "square"[0] !in "cer" && "triangle"[0] !in "cer" && "circle"[1] != "cell"[1];
    assert ShapeTokens[0] !in cs && ShapeTokens[1] !in cs && ShapeTokens[2] !in cs;
    RemoveAllAbsent(cs, ShapeTokens);
  }

  /** The live walk over `cell, enemy, rotated`. */
  lemma SampleWalk()
    ensures LiveWalk(["cell", "enemy", "rotated"], 0) == ["cell", "rotated"]
  {
    var cs := ["cell", "enemy", "rotated"];
    assert NoDup(cs) by {
      assert "cell"[0] != "enemy"[0] && "cell"[0] != "rotated"[0] && "enemy"[0] != "rotated"[0];
    }
    assert ["cell"] + ["enemy", "rotated"] == cs;
    LiveWalkOfCellList(["enemy", "rotated"]);
  }

  /** What `resetCellClasses` is for: the shape tokens go, then every token but
      `cell`, so a well-formed cell is left with `cell` alone; colour and
      rotation stay. */
  function ClearClasses(c: Cell): (r: Cell)
    ensures r.color == c.color && r.rotation == c.rotation
    ensures Valid(c) ==> r.classes == ["cell"]
  {
    var cs := RemoveAll(c.classes, ShapeTokens);
    var cleared := RemoveAll(cs, Others(cs));
    assert Valid(c) ==> cleared == ["cell"] by {
      if Valid(c) {
        OnlyToken(cleared, "cell");
      }
    }
    c.(classes := cleared)
  }

  /** A well-formed cell with at most one token besides `cell` and the shapes:
      one that `resetCellClasses` as written leaves with `cell` alone. A fresh
      cell is one. */
  predicate AtMostOneExtra(c: Cell) {
    Valid(c) && |RemoveAll(c.classes, ShapeTokens)| <= 2
  }

  /** With at most one token besides `cell` once the shapes are gone, the live
      walk has nothing to skip: `resetCellClasses` as written and as intended
      agree, on a fresh cell in particular. */
  lemma LiveResetAgrees(c: Cell)
    requires AtMostOneExtra(c)
    ensures ResetClassesLive(c) == ClearClasses(c)
    ensures ResetClassesLive(c).classes == ["cell"]
  {
    var cs := RemoveAll(c.classes, ShapeTokens);
    assert cs == ["cell"] + cs[1..];
    LiveWalkOfCellList(cs[1..]);
  }

  /** `cell.dataset.rotation ? parseInt(cell.dataset.rotation, 10) : 0`: a
      missing rotation counts as 0. */
  function CurrentRotation(c: Cell): int {
    match c.rotation
    case None => 0
    case Some(r) => r
  }

  /** The rotation is a whole number of quarter turns (or unset). */
  predicate RightAngled(c: Cell) {
    CurrentRotation(c) % 90 == 0
  }

  /** `(currentRotation + 90) % 360` with JavaScript's `%`. */
  function NextRotation(current: int): (r: int)
    requires current % 90 == 0
    ensures r % 90 == 0 && -360 < r < 360
    ensures 0 <= current ==> 0 <= r < 360
    ensures 0 <= current < 360 ==> r == (current + 90) % 360
  {
    QuarterTurns(current + 90);
    JsRem(current + 90, 360)
  }

  lemma NegatedQuarter(a: int)
    requires a % 90 == 0
    ensures (-a) % 90 == 0
  {
    var k := a / 90;
    assert -a == 90 * (-k);
  }

  /** A whole number of quarter turns stays one after JavaScript's `% 360`. */
  lemma QuarterTurns(a: int)
    requires a % 90 == 0
    ensures JsRem(a, 360) % 90 == 0
  {
    if a < 0 {
      NegatedQuarter(a);
      var b := -a;
      var m := b / 90;
      var q := b / 360;
      assert b == 90 * m;
      assert b == 360 * q + b % 360;
      assert -(b % 360) == 90 * (4 * q - m);
    }
  }

  /** The class token for the quarter turn being entered:
      `class-${(currentRotation / 90 + 1) % 4 + 1}`. */
  function StateToken(current: int): (t: string)
    requires current % 90 == 0
    ensures |t| > 6 && t[..6] == "class-"
  {
    "class-" + IntToString(JsRem(current / 90 + 1, 4) + 1)
  }

  /** `rotateSpikeShape`: a quarter turn clockwise. */
  function Rotate(c: Cell): (r: Cell)
    requires RightAngled(c)
    ensures r.color == c.color
    ensures r.rotation == Some(NextRotation(CurrentRotation(c))) && RightAngled(r)
    ensures Valid(c) ==> Valid(r)
  {
    var current := CurrentRotation(c);
    var next := NextRotation(current);
    var cleared := RemoveAll(c.classes, QuarterClasses);
    var token := StateToken(current);
    assert token != "rotated" by {
      assert token[0] == 'c';
    }
    var marked := Add(cleared, token);
    c.(classes := if next != 0 then Add(marked, "rotated") else Remove(marked, "rotated"),
       rotation := Some(next))
  }

  /** What a quarter turn does to the class list: the state token is present, it
      is the only one of `class-1` to `class-3` left, `rotated` is there exactly
      when the new rotation is not 0, and every other token is as it was. */
  lemma RotateTokens(c: Cell)
    requires RightAngled(c)
    ensures StateToken(CurrentRotation(c)) in Rotate(c).classes
    ensures forall x :: x in ["class-1", "class-2", "class-3"] && x in Rotate(c).classes ==>
              x == StateToken(CurrentRotation(c))
    ensures "rotated" in Rotate(c).classes <==> NextRotation(CurrentRotation(c)) != 0
    ensures forall x :: x !in ["class-1", "class-2", "class-3", "rotated", StateToken(CurrentRotation(c))] ==>
              (x in Rotate(c).classes <==> x in c.classes)
  {
    var token := StateToken(CurrentRotation(c));
    var next := NextRotation(CurrentRotation(c));
    assert token != "rotated" by {
      assert token[0] == 'c';
    }
    var marked := Add(RemoveAll(c.classes, QuarterClasses), token);
    var r := Rotate(c).classes;
    assert r == if next != 0 then Add(marked, "rotated") else Remove(marked, "rotated");
    forall x
      ensures x in r <==> if x == "rotated" then next != 0 else x == token || (x in c.classes && x !in QuarterClasses)
    {
    }
  }

  /** `class-4` is never taken away: the loop at the top of `rotateSpikeShape`
      clears only `class-1` to `class-3`. */
  lemma Class4IsSticky(c: Cell)
    requires RightAngled(c) && "class-4" in c.classes
    ensures "class-4" in Rotate(c).classes
  {
    assert "class-4"[6] != "class-1"[6] && "class-4"[6] != "class-2"[6] && "class-4"[6] != "class-3"[6];
    var cleared := RemoveAll(c.classes, QuarterClasses);
    assert "class-4" in cleared;
    var marked := Add(cleared, StateToken(CurrentRotation(c)));
    assert "class-4" in marked;
    assert "class-4"[0] != "rotated"[0];
  }

  /** The names the rotation loop builds with `class-${i}`. */
  lemma ClassNames()
    ensures "class-" + IntToString(1) == "class-1"
    ensures "class-" + IntToString(2) == "class-2"
    ensures "class-" + IntToString(3) == "class-3"
    ensures "class-" + IntToString(4) == "class-4"
  {
    assert NatToString(1) == "1" && NatToString(2) == "2";
    assert NatToString(3) == "3" && NatToString(4) == "4";
  }

  /** A quarter turn never lands where it started. */
  lemma NextRotationMoves(x: int)
    requires x % 90 == 0
    ensures NextRotation(x) != x
  {
    if x + 90 >= 0 {
      var q := (x + 90) / 360;
      assert x + 90 == 360 * q + (x + 90) % 360;
    } else {
      var q := (-x - 90) / 360;
      assert -x - 90 == 360 * q + (-x - 90) % 360;
    }
  }

  /** A quarter turn always changes the stored rotation. */
  lemma RotateMoves(c: Cell)
    requires RightAngled(c)
    ensures Rotate(c).rotation != c.rotation
  {
    NextRotationMoves(CurrentRotation(c));
  }

  /** The token each quarter turn adds: from 0 it is `class-2`, from 90 `class-3`,
      from 180 `class-4` and from 270 `class-1`. */
  lemma StateTokenCycle()
    ensures StateToken(0) == "class-2" && StateToken(90) == "class-3"
    ensures StateToken(180) == "class-4" && StateToken(270) == "class-1"
  {
    ClassNames();
    assert JsRem(0 / 90 + 1, 4) + 1 == 2 && JsRem(90 / 90 + 1, 4) + 1 == 3;
    assert JsRem(180 / 90 + 1, 4) + 1 == 4 && JsRem(270 / 90 + 1, 4) + 1 == 1;
  }

  /** The quarter turn from each of the four right-angled rotations in 0..270. */
  lemma NextRotationCycle()
    ensures NextRotation(0) == 90 && NextRotation(90) == 180
    ensures NextRotation(180) == 270 && NextRotation(270) == 0
  {
  }

  /** Four quarter turns bring a rotation in 0..270 back to where it was, and the
      `rotated` marker is present exactly when that rotation is not 0. */
  lemma FourRotationsRestore(c: Cell)
    requires Valid(c) && CurrentRotation(c) in {0, 90, 180, 270}
    ensures Rotate(Rotate(Rotate(Rotate(c)))).rotation == Some(CurrentRotation(c))
    ensures "rotated" in Rotate(Rotate(Rotate(Rotate(c)))).classes <==> CurrentRotation(c) != 0
  {
    var r := CurrentRotation(c);
    NextRotationCycle();
    var c1 := Rotate(c);
    assert CurrentRotation(c1) == NextRotation(r);
    var c2 := Rotate(c1);
    assert CurrentRotation(c2) == NextRotation(NextRotation(r));
    var c3 := Rotate(c2);
    assert CurrentRotation(c3) == NextRotation(NextRotation(NextRotation(r)));
    assert NextRotation(CurrentRotation(c3)) == r;
    RotateTokens(c3);
  }

  /** A full turn from an unrotated cell: the rotation is 0 again and `rotated` is
      gone, but because the loop clears only `class-1` to `class-3`, the cell ends
      with both `class-4` (from the third turn) and `class-1` (from the fourth). */
  lemma FullTurnKeepsClass4(c: Cell)
    requires Valid(c) && CurrentRotation(c) == 0
    ensures var c4 := Rotate(Rotate(Rotate(Rotate(c))));
      c4.rotation == Some(0) && "rotated" !in c4.classes
      && "class-1" in c4.classes && "class-4" in c4.classes
      && "class-2" !in c4.classes && "class-3" !in c4.classes
  {
    var c1 := Rotate(c);
    NextRotationCycle();
    assert CurrentRotation(c1) == NextRotation(0) == 90;
    var c2 := Rotate(c1);
    assert CurrentRotation(c2) == NextRotation(90) == 180;
    var c3 := Rotate(c2);
    assert CurrentRotation(c3) == NextRotation(180) == 270;
    StateTokenCycle();
    assert StateToken(CurrentRotation(c2)) == "class-4";
    RotateTokens(c2);
    assert "class-4" in c3.classes;
    Class4IsSticky(c3);
    var c4 := Rotate(c3);
    assert c4.rotation == Some(NextRotation(270)) == Some(0);
    assert StateToken(CurrentRotation(c3)) == "class-1";
    RotateTokens(c3);
    assert "class-2" != "class-1" && "class-3" != "class-1" by {
      assert "class-2"[6] != "class-1"[6] && "class-3"[6] != "class-1"[6];
    }
  }
}
