/** Saving the grid (script.js:319-348) and loading the text back
    (script.js:370-414): for cells whose tokens and colour survive the text
    format, the load gives every cell its classes, colour and rotation back. */
module RoundTrip {
  import opened Wrappers
  import opened JsText
  import opened ClassList
  import opened Cells
  import opened Save
  import opened Load

  /** A class token the text format carries: not `none`, no colon and no
      whitespace (which `split(', ')`, `split(':')` and `trim` would cut at). */
  predicate PlainToken(t: string) {
    t != [] && t != "none" && ':' !in t && forall k :: 0 <= k < |t| ==> !IsWhitespace(t[k])
  }

  /** A colour the text format carries. */
  predicate PlainColor(s: string) {
    s != "none" && ':' !in s && '\n' !in s && Trimmed(s)
  }

  /** At most one of the three shape tokens: the saved record names only the first. */
  predicate OneShape(cs: seq<string>) {
    !("square" in cs && "circle" in cs) && !("square" in cs && "triangle" in cs)
    && !("circle" in cs && "triangle" in cs)
  }

  /** A cell that the save writes out in full. */
  predicate Savable(c: Cell) {
    Valid(c) && PlainColor(c.color) && OneShape(c.classes)
    && forall t :: t in c.classes && t != "cell" ==> PlainToken(t)
  }

  /** The cell a loaded record leaves: the saved classes, with the shape token
      (if any) moved to the end; the colour; the rotation, written out. */
  function Reloaded(c: Cell): Cell {
    var shaped := ClearShape(c).classes;
    var shape := ShapeField(c);
    Cell(if shape == "none" then shaped else Add(shaped, shape), c.color, Some(CurrentRotation(c)))
  }

  /** The reloaded cell has the same tokens, the same colour and the rotation
      the saved cell showed. */
  lemma ReloadedMatches(c: Cell)
    requires Valid(c) && OneShape(c.classes)
    ensures Valid(Reloaded(c))
    ensures forall x :: x in Reloaded(c).classes <==> x in c.classes
    ensures Reloaded(c).color == c.color && Reloaded(c).rotation == Some(CurrentRotation(c))
  {
    var shape := ShapeField(c);
    assert shape != "none" ==> shape in c.classes;
    forall x | x in ShapeTokens && x in c.classes
      ensures x == shape
    {
    }
  }

  /** A list that starts with `cell` and holds it once is `cell` and the others. */
  lemma CellAndOthers(cs: seq<string>)
    requires cs != [] && cs[0] == "cell" && NoDup(cs)
    ensures cs == ["cell"] + Others(cs)
  {
    assert cs == ["cell"] + cs[1..];
    assert "cell" !in cs[1..] by {
      forall k | 1 <= k < |cs|
        ensures cs[k] != "cell"
      {
        assert cs[0] != cs[k];
      }
    }
    OthersOfCellList(cs[1..]);
  }

  /** Adding tokens that are all new appends them in order. */
  lemma {:induction false} AddNewTokens(p: seq<string>, xs: seq<string>)
    requires NoDup(p + xs)
    requires forall k :: 0 <= k < |xs| ==> PlainToken(xs[k])
    ensures AddTokens(p, xs) == (p + xs, true)
    decreases |xs|
  {
    if xs == [] {
      assert p + xs == p;
    } else {
      assert xs[0] !in p by {
        assert (p + xs)[|p|] == xs[0];
        forall k | 0 <= k < |p|
          ensures p[k] != xs[0]
        {
          assert (p + xs)[k] == p[k];
        }
      }
      assert ValidToken(xs[0]) by {
        forall k | 0 <= k < |xs[0]|
          ensures !IsAsciiWhitespace(xs[0][k])
        {
          assert !IsWhitespace(xs[0][k]);
        }
      }
      assert (p + [xs[0]]) + xs[1..] == p + xs;
      AddNewTokens(p + [xs[0]], xs[1..]);
    }
  }

  /** What a plain token does not contain. */
  lemma PlainTokenFacts(t: string)
    requires PlainToken(t)
    ensures ValidToken(t) && ' ' !in t && '\n' !in t && !IsWhitespace(t[0]) && !IsWhitespace(t[|t| - 1])
  {
    forall k | 0 <= k < |t|
      ensures t[k] != ' ' && t[k] != '\n' && !IsAsciiWhitespace(t[k])
    {
      assert !IsWhitespace(t[k]);
    }
  }

  /** The tokens a savable cell saves, other than `cell`, are plain. */
  lemma OthersPlain(c: Cell)
    requires Savable(c)
    ensures forall k :: 0 <= k < |Others(c.classes)| ==> PlainToken(Others(c.classes)[k])
  {
    var parts := Others(c.classes);
    forall k | 0 <= k < |parts|
      ensures PlainToken(parts[k])
    {
      assert parts[k] in parts;
    }
  }

  /** The tokens a savable cell saves hold no space and no line feed. */
  lemma OthersUncut(c: Cell)
    requires Savable(c)
    ensures forall k :: 0 <= k < |Others(c.classes)| ==> ' ' !in Others(c.classes)[k] && '\n' !in Others(c.classes)[k]
  {
    var parts := Others(c.classes);
    OthersPlain(c);
    forall k | 0 <= k < |parts|
      ensures ' ' !in parts[k] && '\n' !in parts[k]
    {
      PlainTokenFacts(parts[k]);
    }
  }

  /** The `class:` value of a savable cell: non-empty, trimmed, no colon, no line feed. */
  lemma ClassFieldPlain(c: Cell)
    requires Savable(c)
    ensures ClassField(c) != [] && Trimmed(ClassField(c)) && ':' !in ClassField(c) && '\n' !in ClassField(c)
  {
    var parts := Others(c.classes);
    if parts != [] {
      OthersPlain(c);
      OthersUncut(c);
      JoinEnds(parts, ", ");
      JoinAvoids(parts, ", ", ':');
      JoinAvoids(parts, ", ", '\n');
      PlainTokenFacts(parts[0]);
      PlainTokenFacts(parts[|parts| - 1]);
    }
  }

  /** Splitting a savable cell's `class:` value at `, ` and adding the pieces to
      a bare list gives the saved list. */
  lemma ClassTokensLoad(saved: Cell)
    requires Savable(saved)
    ensures AddTokens(["cell"], Split(ClassField(saved), ", ")) == (saved.classes, true)
  {
    var parts := Others(saved.classes);
    CellAndOthers(saved.classes);
    if parts == [] {
      assert ClassField(saved) == "none";
      assert ' ' !in "none";
      SplitWhole("none", ", ");
      assert ["none"][1..] == [];
      assert AddTokens(["cell"], ["none"]) == AddTokens(["cell"], []) == (["cell"], true);
      assert saved.classes == ["cell"];
    } else {
      assert ClassField(saved) == Join(parts, ", ") by {
        OthersPlain(saved);
        JoinEnds(parts, ", ");
      }
      OthersUncut(saved);
      SplitOfJoin(parts, ", ");
      OthersPlain(saved);
      AddNewTokens(["cell"], parts);
    }
  }

  /** The `class:` line on a well-formed cell sets exactly the saved tokens. */
  lemma ClassProperty(c: Cell, saved: Cell)
    requires AtMostOneExtra(c) && Savable(saved)
    ensures Property(c, "class", Some(ClassField(saved))) == (Cell(saved.classes, c.color, c.rotation), true)
  {
    LiveResetAgrees(c);
    ClassTokensLoad(saved);
  }

  /** As written, the `class:` line can leave stale tokens behind: on a painted,
      rotated spike `cell square spike class-2 rotated` the reset skips `class-2`,
      so loading the record of an empty cell (`class: none`) keeps it. */
  lemma StaleClassAfterLoad()
    ensures var c := Cell(["cell", "square", "spike", "class-2", "rotated"], "", Some(90));
      Property(c, "class", Some(ClassField(Fresh()))) == (c.(classes := ["cell", "class-2"]), true)
  {
    var c := Cell(["cell", "square", "spike", "class-2", "rotated"], "", Some(90));
    SpikeReset();
    FreshClassField();
    assert Split("none", ", ") == ["none"] by {
      assert ' ' !in "none";
      SplitWhole("none", ", ");
    }
    NoneAddsNothing(["cell", "class-2"]);
  }

  /** The saved list `none` adds no token. */
  lemma NoneAddsNothing(cs: seq<string>)
    ensures AddTokens(cs, ["none"]) == (cs, true)
  {
    assert ["none"][1..] == [];
  }

  /** The reset as written on the painted, rotated spike keeps `class-2`. */
  lemma SpikeReset()
    ensures var c := Cell(["cell", "square", "spike", "class-2", "rotated"], "", Some(90));
      ResetClassesLive(c) == c.(classes := ["cell", "class-2"])
  {
    SpikeShapeGone();
    SpikeWalk();
  }

  /** An empty cell saves its classes as `none`. */
  lemma FreshClassField()
    ensures ClassField(Fresh()) == "none"
  {
    OthersOfCellList([]);
  }


  /** The shape tokens of the painted spike: `square` only. */
  lemma SpikeShapeGone()
    ensures RemoveAll(["cell", "square", "spike", "class-2", "rotated"], ShapeTokens)
      == ["cell", "spike", "class-2", "rotated"]
  {
    var cs := ["cell", "square", "spike", "class-2", "rotated"];
    var rest := ["cell", "spike", "class-2", "rotated"];
    SpikeSquareGone();
    SpikeHasNoRoundShape();
    assert RemoveAll(cs, ShapeTokens[..1]) == rest by {
      assert ShapeTokens[..1] == ["square"];
    }
    assert RemoveAll(cs, ShapeTokens[..2]) == rest by {
      assert ShapeTokens[..2][..1] == ShapeTokens[..1];
    }
  }

  lemma SpikeSquareGone()
    ensures Remove(["cell", "square", "spike", "class-2", "rotated"], "square") == ["cell", "spike", "class-2", "rotated"]
  {
    assert "spike"[1] != "square"[1] && "class-2"[0] != "square"[0] && "rotated"[0] != "square"[0];
    assert "cell"[0] != "square"[0];
  }

  lemma SpikeHasNoRoundShape()
    ensures "circle" !in ["cell", "spike", "class-2", "rotated"]
    ensures "triangle" !in ["cell", "spike", "class-2", "rotated"]
  {
    assert "circle"[1] != "cell"[1] && "circle"[0] !in "sr" && "circle"[5] != "class-2"[5];
    assert "triangle"[0] !in "csr";
  }

  /** The live walk over the spike's other tokens skips `class-2`. */
  lemma SpikeWalk()
    ensures LiveWalk(["cell", "spike", "class-2", "rotated"], 0) == ["cell", "class-2"]
  {
    var rest := ["spike", "class-2", "rotated"];
    assert NoDup(["cell"] + rest) by {
      assert "cell"[0] !in "sr" && "cell"[1] != "class-2"[1];
      assert "spike"[0] != "class-2"[0] && "spike"[0] != "rotated"[0] && "class-2"[0] != "rotated"[0];
    }
    LiveWalkOfCellList(rest);
    assert ["cell"] + rest == ["cell", "spike", "class-2", "rotated"];
  }

  /** The `color:` line sets the saved colour. */
  lemma ColorProperty(c: Cell, saved: Cell)
    requires Savable(saved)
    ensures Property(c, "color", Some(ColorField(saved))) == (c.(color := saved.color), true)
  {
  }

  /** The `shape:` line, on a cell holding the saved tokens, gives the reloaded tokens. */
  lemma ShapeProperty(c: Cell, saved: Cell)
    requires c.classes == saved.classes
    ensures Property(c, "shape", Some(ShapeField(saved))) == (c.(classes := Reloaded(saved).classes), true)
  {
    var shape := ShapeField(saved);
    if shape != "none" {
      assert ValidToken(shape) by {
        assert shape == "square" || shape == "circle" || shape == "triangle";
      }
    }
  }

  /** The `dir:` line sets the rotation the saved cell showed. */
  lemma DirProperty(c: Cell, saved: Cell)
    ensures Property(c, "dir", Some(DirField(saved))) == (c.(rotation := Some(CurrentRotation(saved))), true)
  {
    match saved.rotation
    case None =>
    case Some(r) =>
      var s := IntToString(r);
      assert s[0] != "none"[0];
      ParseIntOfIntToString(r);
  }

  /** The four keys a record writes. */
  predicate RecordKey(key: string) {
    key == "class" || key == "color" || key == "shape" || key == "dir"
  }

  /** A record's `key: value` line, with a plain value, is left alone by the
      trim and is no header. */
  lemma PlainLine(key: string, value: string)
    requires RecordKey(key) && value != [] && Trimmed(value)
    ensures Trim(key + ": " + value) == key + ": " + value
    ensures HeaderIndex(key + ": " + value) == None
  {
    var line := key + ": " + value;
    assert line[0] == key[0] && line[|line| - 1] == value[|value| - 1];
    assert key[0] == 'c' || key[0] == 's' || key[0] == 'd';
    assert Trimmed(line);
    assert line[0] != 'C';
  }

  /** The record keys hold no colon and no surrounding whitespace. */
  lemma RecordKeyPlain(key: string)
    requires RecordKey(key)
    ensures Trimmed(key) && ':' !in key
  {
    assert key[0] == 'c' || key[0] == 's' || key[0] == 'd';
    assert key[|key| - 1] == 's' || key[|key| - 1] == 'r' || key[|key| - 1] == 'e';
  }

  /** A `key: value` line splits at its one colon into the key and the value. */
  lemma SplitLine(key: string, value: string)
    requires Trimmed(key) && ':' !in key && Trimmed(value) && ':' !in value
    ensures KeyValue(key + ": " + value) == (key, Some(value))
  {
    var line := key + ": " + value;
    assert line == key + ":" + (" " + value);
    SplitAfterPiece(key, ":", " " + value);
    assert ':' !in " " + value;
    SplitWhole(" " + value, ":");
    TrimAfterSpace(value);
  }

  /** A `key: value` line with a plain key and value reaches `Property` unchanged. */
  lemma PropertyLine(ld: Loader, key: string, value: string)
    requires ld.ok && 0 <= ld.index < |ld.cells|
    requires RecordKey(key) && value != [] && Trimmed(value) && ':' !in value
    ensures var res := Property(ld.cells[ld.index], key, Some(value));
      Step(ld, key + ": " + value) == Loader(ld.cells[ld.index := res.0], ld.index, res.1)
  {
    var line := key + ": " + value;
    PlainLine(key, value);
    assert |line| > 0;
    assert Step(ld, line) == Apply(ld, line);
    RecordKeyPlain(key);
    SplitLine(key, value);
  }

  /** A header line selects the cell it numbers. */
  lemma HeaderLine(ld: Loader, j: nat)
    ensures Step(ld, "C" + NatToString(j + 1) + ":") == ld.(index := j)
  {
    var line := "C" + NatToString(j + 1) + ":";
    assert Trimmed(line);
    HeaderSelects(ld, line, j + 1);
  }

  lemma {:induction false} RunFrom(ld: Loader, lines: seq<string>, k: nat)
    requires k < |lines| && ld.ok
    ensures Run(ld, lines[k..]) == Run(Step(ld, lines[k]), lines[k + 1..])
  {
    assert lines[k..][1..] == lines[k + 1..];
  }

  /** The `color:` value of a savable cell is plain. */
  lemma ColorFieldPlain(c: Cell)
    requires Savable(c)
    ensures ColorField(c) != [] && Trimmed(ColorField(c)) && ':' !in ColorField(c) && '\n' !in ColorField(c)
  {
  }

  /** The `shape:` value is one of four words. */
  lemma ShapeFieldPlain(c: Cell)
    ensures ShapeField(c) != [] && Trimmed(ShapeField(c)) && ':' !in ShapeField(c) && '\n' !in ShapeField(c)
  {
    var s := ShapeField(c);
    assert s == "none" || s == "square" || s == "circle" || s == "triangle";
  }

  /** The `dir:` value is `none` or a number. */
  lemma DirFieldPlain(c: Cell)
    ensures DirField(c) != [] && Trimmed(DirField(c)) && ':' !in DirField(c) && '\n' !in DirField(c)
  {
    match c.rotation
    case None =>
    case Some(r) =>
      var d := IntToString(r);
      forall k | 0 <= k < |d|
        ensures d[k] != ':' && d[k] != '\n'
      {
        assert d[k] == '-' || IsDigit(d[k]);
      }
      assert d[0] == '-' || IsDigit(d[0]);
  }

  /** The header of record `i` has no line feed. */
  lemma HeaderPlain(i: nat)
    ensures '\n' !in "C" + NatToString(i + 1) + ":"
  {
    var digits := NatToString(i + 1);
    forall k | 0 <= k < |digits|
      ensures digits[k] != '\n'
    {
      assert IsDigit(digits[k]);
    }
  }

  /** The `class:` line on a well-formed selected cell. */
  lemma ClassLine(ld: Loader, saved: Cell)
    requires ld.ok && 0 <= ld.index < |ld.cells| && AtMostOneExtra(ld.cells[ld.index]) && Savable(saved)
    ensures var c := ld.cells[ld.index];
      Step(ld, "class: " + ClassField(saved)) == ld.(cells := ld.cells[ld.index := Cell(saved.classes, c.color, c.rotation)])
  {
    ClassFieldPlain(saved);
    assert "class: " + ClassField(saved) == "class" + ": " + ClassField(saved) by {
      assert "class" + ": " == "class: ";
    }
    PropertyLine(ld, "class", ClassField(saved));
    ClassProperty(ld.cells[ld.index], saved);
  }

  /** The `color:` line on the selected cell. */
  lemma ColorLine(ld: Loader, saved: Cell)
    requires ld.ok && 0 <= ld.index < |ld.cells| && Savable(saved)
    ensures Step(ld, "color: " + ColorField(saved)) == ld.(cells := ld.cells[ld.index := ld.cells[ld.index].(color := saved.color)])
  {
    ColorFieldPlain(saved);
    assert "color: " + ColorField(saved) == "color" + ": " + ColorField(saved) by {
      assert "color" + ": " == "color: ";
    }
    PropertyLine(ld, "color", ColorField(saved));
    ColorProperty(ld.cells[ld.index], saved);
  }

  /** The `shape:` line on a selected cell holding the saved tokens. */
  lemma ShapeLine(ld: Loader, saved: Cell)
    requires ld.ok && 0 <= ld.index < |ld.cells| && ld.cells[ld.index].classes == saved.classes
    ensures Step(ld, "shape: " + ShapeField(saved)) == ld.(cells := ld.cells[ld.index := ld.cells[ld.index].(classes := Reloaded(saved).classes)])
  {
    ShapeFieldPlain(saved);
    assert "shape: " + ShapeField(saved) == "shape" + ": " + ShapeField(saved) by {
      assert "shape" + ": " == "shape: ";
    }
    PropertyLine(ld, "shape", ShapeField(saved));
    ShapeProperty(ld.cells[ld.index], saved);
  }

  /** The `dir:` line on the selected cell. */
  lemma DirLine(ld: Loader, saved: Cell)
    requires ld.ok && 0 <= ld.index < |ld.cells|
    ensures Step(ld, "dir: " + DirField(saved)) == ld.(cells := ld.cells[ld.index := ld.cells[ld.index].(rotation := Some(CurrentRotation(saved)))])
  {
    DirFieldPlain(saved);
    assert "dir: " + DirField(saved) == "dir" + ": " + DirField(saved) by {
      assert "dir" + ": " == "dir: ";
    }
    PropertyLine(ld, "dir", DirField(saved));
    DirProperty(ld.cells[ld.index], saved);
  }

  /** The loader after the `class:` line of `saved`'s record on cell `j`. */
  function AfterClass(ld: Loader, j: nat, saved: Cell): Loader
    requires j < |ld.cells|
  {
    Loader(ld.cells[j := Cell(saved.classes, ld.cells[j].color, ld.cells[j].rotation)], j, true)
  }

  /** The loader after the `shape:` line of `saved`'s record on cell `j`. */
  function AfterShape(ld: Loader, j: nat, saved: Cell): Loader
    requires j < |ld.cells|
  {
    Loader(ld.cells[j := Cell(Reloaded(saved).classes, saved.color, ld.cells[j].rotation)], j, true)
  }

  /** The header and `class:` lines of a record. */
  lemma {:induction false} RecordHead(ld: Loader, j: nat, saved: Cell)
    requires ld.ok && j < |ld.cells| && AtMostOneExtra(ld.cells[j]) && Savable(saved)
    ensures Run(ld, RecordLines(j, saved)) == Run(AfterClass(ld, j, saved), RecordLines(j, saved)[2..])
  {
    var lines := RecordLines(j, saved);
    var ld1 := ld.(index := j);
    assert Run(ld, lines) == Run(ld1, lines[1..]) by {
      RunFrom(ld, lines, 0);
      HeaderLine(ld, j);
    }
    assert Step(ld1, lines[1]) == AfterClass(ld, j, saved) by {
      ClassLine(ld1, saved);
    }
    RunFrom(ld1, lines, 1);
  }

  /** The loader after the `color:` line of `saved`'s record on cell `j`. */
  function AfterColor(ld: Loader, j: nat, saved: Cell): Loader
    requires j < |ld.cells|
  {
    Loader(ld.cells[j := Cell(saved.classes, saved.color, ld.cells[j].rotation)], j, true)
  }

  /** The `color:` line of a record. */
  lemma {:induction false} RecordColor(ld: Loader, j: nat, saved: Cell)
    requires ld.ok && j < |ld.cells| && Savable(saved)
    ensures Run(AfterClass(ld, j, saved), RecordLines(j, saved)[2..])
      == Run(AfterColor(ld, j, saved), RecordLines(j, saved)[3..])
  {
    var lines := RecordLines(j, saved);
    var ld2 := AfterClass(ld, j, saved);
    assert Step(ld2, lines[2]) == AfterColor(ld, j, saved) by {
      ColorLine(ld2, saved);
      assert ld2.cells[j := ld2.cells[j].(color := saved.color)] == AfterColor(ld, j, saved).cells;
    }
    RunFrom(ld2, lines, 2);
  }

  /** The `shape:` line of a record. */
  lemma {:induction false} RecordShape(ld: Loader, j: nat, saved: Cell)
    requires ld.ok && j < |ld.cells|
    ensures Run(AfterColor(ld, j, saved), RecordLines(j, saved)[3..])
      == Run(AfterShape(ld, j, saved), RecordLines(j, saved)[4..])
  {
    var lines := RecordLines(j, saved);
    var ld3 := AfterColor(ld, j, saved);
    assert Step(ld3, lines[3]) == AfterShape(ld, j, saved) by {
      ShapeLine(ld3, saved);
      assert ld3.cells[j := ld3.cells[j].(classes := Reloaded(saved).classes)] == AfterShape(ld, j, saved).cells;
    }
    RunFrom(ld3, lines, 3);
  }

  /** The `dir:` line and the blank line that ends a record. */
  lemma {:induction false} RecordTail(ld: Loader, j: nat, saved: Cell)
    requires ld.ok && j < |ld.cells|
    ensures Run(AfterShape(ld, j, saved), RecordLines(j, saved)[4..]) == Loader(ld.cells[j := Reloaded(saved)], j, true)
  {
    var lines := RecordLines(j, saved);
    var ld4 := AfterShape(ld, j, saved);
    var ld5 := Loader(ld.cells[j := Reloaded(saved)], j, true);
    assert Run(ld4, lines[4..]) == Run(ld5, lines[5..]) by {
      RunFrom(ld4, lines, 4);
      DirLine(ld4, saved);
      assert ld4.cells[j := ld4.cells[j].(rotation := Some(CurrentRotation(saved)))] == ld5.cells;
    }
    RunFrom(ld5, lines, 5);
    BlankLine(ld5, lines[5]);
    assert lines[6..] == [];
  }

  /** One record, read on a well-formed cell, leaves the reloaded cell there
      and selects it. */
  lemma RecordLoads(ld: Loader, j: nat, saved: Cell)
    requires ld.ok && j < |ld.cells| && AtMostOneExtra(ld.cells[j]) && Savable(saved)
    ensures Run(ld, RecordLines(j, saved)) == Loader(ld.cells[j := Reloaded(saved)], j, true)
  {
    RecordHead(ld, j, saved);
    RecordColor(ld, j, saved);
    RecordShape(ld, j, saved);
    RecordTail(ld, j, saved);
  }

  /** No line of a record of a savable cell holds a line feed. */
  lemma RecordPlain(i: nat, c: Cell)
    requires Savable(c)
    ensures forall k :: 0 <= k < 6 ==> '\n' !in RecordLines(i, c)[k]
  {
    var ls := RecordLines(i, c);
    forall k | 0 <= k < 6
      ensures '\n' !in ls[k]
    {
      if k == 0 {
        HeaderPlain(i);
      } else if k == 1 {
        ClassFieldPlain(c);
        NoFeed("class: ", ClassField(c));
      } else if k == 2 {
        ColorFieldPlain(c);
        NoFeed("color: ", ColorField(c));
      } else if k == 3 {
        ShapeFieldPlain(c);
        NoFeed("shape: ", ShapeField(c));
      } else if k == 4 {
        DirFieldPlain(c);
        NoFeed("dir: ", DirField(c));
      }
    }
  }

  lemma NoFeed(key: string, value: string)
    requires '\n' !in key && '\n' !in value
    ensures '\n' !in key + value
  {
  }

  /** No line of a savable grid's text holds a line feed. */
  lemma {:induction false} LinesPlain(cs: seq<Cell>)
    requires forall j :: 0 <= j < |cs| ==> Savable(cs[j])
    ensures forall k :: 0 <= k < |Lines(cs)| ==> '\n' !in Lines(cs)[k]
  {
    if cs != [] {
      var init := cs[..|cs| - 1];
      LinesPlain(init);
      var rec := RecordLines(|cs| - 1, cs[|cs| - 1]);
      RecordPlain(|cs| - 1, cs[|cs| - 1]);
      var all := Lines(init) + rec;
      assert Lines(cs) == all;
      forall k | 0 <= k < |all|
        ensures '\n' !in all[k]
      {
        if k < |Lines(init)| {
          assert all[k] == Lines(init)[k];
        } else {
          assert all[k] == rec[k - |Lines(init)|];
        }
      }
    }
  }

  /** The save's text splits at line feeds into its lines and one empty piece. */
  lemma SaveTextLines(cs: seq<Cell>)
    requires forall j :: 0 <= j < |cs| ==> Savable(cs[j])
    ensures Split(SaveText(cs), "\n") == Lines(cs) + [""]
  {
    LinesPlain(cs);
    SplitUnlines(Lines(cs));
  }

  /** The loader after the records of the first `k` cells of `cs`, read onto `g`:
      those cells reloaded, the rest untouched, cell `k - 1` selected. */
  predicate LoadedUpTo(r: Loader, g: seq<Cell>, cs: seq<Cell>, k: nat)
    requires |g| == |cs| && k <= |cs|
  {
    r.ok && r.index == k - 1 && |r.cells| == |g|
    && (forall j :: 0 <= j < k ==> r.cells[j] == Reloaded(cs[j]))
    && (forall j :: k <= j < |g| ==> r.cells[j] == g[j])
  }

  /** Reloading cell `k` extends the loaded prefix by one. */
  lemma LoadedNext(cells: seq<Cell>, g: seq<Cell>, cs: seq<Cell>, k: nat)
    requires |g| == |cs| && k < |cs|
    requires LoadedUpTo(Loader(cells, k - 1, true), g, cs, k)
    ensures LoadedUpTo(Loader(cells[k := Reloaded(cs[k])], k, true), g, cs, k + 1)
  {
  }

  /** One more record, read after the first `k - 1`, reloads cell `k - 1`. */
  lemma PrefixStep(start: Loader, cs: seq<Cell>, k: nat, before: Loader)
    requires 1 <= k <= |cs| && before == Run(start, Lines(cs[..k - 1]))
    requires before.ok && k - 1 < |before.cells|
    requires AtMostOneExtra(before.cells[k - 1]) && Savable(cs[k - 1])
    ensures Run(start, Lines(cs[..k])) == Loader(before.cells[k - 1 := Reloaded(cs[k - 1])], k - 1, true)
  {
    var prefix := cs[..k];
    assert prefix[..k - 1] == cs[..k - 1];
    assert Lines(prefix) == Lines(cs[..k - 1]) + RecordLines(k - 1, cs[k - 1]);
    RunAppend(start, Lines(cs[..k - 1]), RecordLines(k - 1, cs[k - 1]));
    RecordLoads(before, k - 1, cs[k - 1]);
  }

  /** The records of the first `k` cells, read from the start, reload those
      cells and leave the rest alone. */
  lemma {:induction false} PrefixLoads(g: seq<Cell>, cs: seq<Cell>, k: nat)
    requires |g| == |cs| && k <= |cs|
    requires forall j :: 0 <= j < |g| ==> AtMostOneExtra(g[j])
    requires forall j :: 0 <= j < |cs| ==> Savable(cs[j])
    ensures LoadedUpTo(Run(Loader(g, -1, true), Lines(cs[..k])), g, cs, k)
  {
    var start := Loader(g, -1, true);
    if k == 0 {
      assert Lines(cs[..0]) == [];
    } else {
      PrefixLoads(g, cs, k - 1);
      var before := Run(start, Lines(cs[..k - 1]));
      assert AtMostOneExtra(before.cells[k - 1]) && Savable(cs[k - 1]);
      PrefixStep(start, cs, k, before);
      LoadedNext(before.cells, g, cs, k - 1);
    }
  }

  /** A text whose line feeds end the lines `lines` loads as those lines: the
      empty piece after the last line feed changes nothing. */
  lemma LoadLines(g: seq<Cell>, content: string, lines: seq<string>)
    requires Split(content, "\n") == lines + [""]
    ensures LoadText(g, content) == Run(Loader(g, -1, true), lines)
  {
    var start := Loader(g, -1, true);
    assert LoadText(g, content) == Run(start, lines + [""]);
    BlankTail(start, lines);
  }

  /** The empty piece after the last line feed changes nothing. */
  lemma BlankTail(ld: Loader, lines: seq<string>)
    ensures Run(ld, lines + [""]) == Run(ld, lines)
  {
    var r := Run(ld, lines);
    RunAppend(ld, lines, [""]);
    assert Run(r, [""]) == r by {
      BlankLine(r, "");
    }
  }

  /** Loading a savable grid's text runs its records. */
  lemma LoadRecords(g: seq<Cell>, cs: seq<Cell>)
    requires forall j :: 0 <= j < |cs| ==> Savable(cs[j])
    ensures LoadText(g, SaveText(cs)) == Run(Loader(g, -1, true), Lines(cs))
  {
    SaveTextLines(cs);
    LoadLines(g, SaveText(cs), Lines(cs));
  }

  /** Save, then load onto any well-formed grid of the same size: the load goes
      through, and every cell has the saved cell's tokens, colour and rotation. */
  lemma SaveThenLoad(g: seq<Cell>, cs: seq<Cell>)
    requires |g| == |cs|
    requires forall j :: 0 <= j < |g| ==> AtMostOneExtra(g[j])
    requires forall j :: 0 <= j < |cs| ==> Savable(cs[j])
    ensures var r := LoadText(g, SaveText(cs));
      r.ok && |r.cells| == |cs|
      && forall j :: 0 <= j < |cs| ==>
        (forall x :: x in r.cells[j].classes <==> x in cs[j].classes)
        && r.cells[j].color == cs[j].color
        && r.cells[j].rotation == Some(CurrentRotation(cs[j]))
  {
    var r := LoadText(g, SaveText(cs));
    assert LoadedUpTo(r, g, cs, |cs|) by {
      LoadRecords(g, cs);
      assert cs[..|cs|] == cs;
      PrefixLoads(g, cs, |cs|);
    }
    forall j | 0 <= j < |cs|
      ensures (forall x :: x in Reloaded(cs[j]).classes <==> x in cs[j].classes)
      ensures Reloaded(cs[j]).color == cs[j].color && Reloaded(cs[j]).rotation == Some(CurrentRotation(cs[j]))
    {
      ReloadedMatches(cs[j]);
    }
  }
}
