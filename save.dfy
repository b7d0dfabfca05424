/** The save button (script.js:319-348): every cell becomes a six-line record
    of the text file `grid-data.txt`. */
module Save {
  import opened JsText
  import opened ClassList
  import opened Cells

  /** `Array.from(cell.classList).filter(c => c !== 'cell').join(', ') || 'none'`. */
  function ClassField(c: Cell): string {
    var joined := Join(Others(c.classes), ", ");
    if joined == "" then "none" else joined
  }

  /** `cell.style.backgroundColor || 'none'`. */
  function ColorField(c: Cell): string {
    if c.color == "" then "none" else c.color
  }

  /** The first of `square`, `circle`, `triangle` the cell has, or `none`. */
  function ShapeField(c: Cell): (s: string)
    ensures s == "none" || (s in ShapeTokens && s in c.classes)
    ensures s == "none" <==> forall t :: t in ShapeTokens ==> t !in c.classes
    ensures forall k :: 0 <= k < |ShapeTokens| && s == ShapeTokens[k] ==>
      forall j :: 0 <= j < k ==> ShapeTokens[j] !in c.classes
  {
    if "square" in c.classes then "square"
    else if "circle" in c.classes then "circle"
    else if "triangle" in c.classes then "triangle"
    else "none"
  }

  /** `cell.dataset.rotation || 'none'`. */
  function DirField(c: Cell): string {
    match c.rotation
    case None => "none"
    case Some(r) => IntToString(r)
  }

  /** The record of cell `i` (counted from 0; the header counts from 1), line by line. */
  function RecordLines(i: nat, c: Cell): (ls: seq<string>)
    ensures |ls| == 6
  {
    ["C" + NatToString(i + 1) + ":", "class: " + ClassField(c), "color: " + ColorField(c),
     "shape: " + ShapeField(c), "dir: " + DirField(c), ""]
  }

  /** The lines of the records of `cs`, in grid order. */
  function Lines(cs: seq<Cell>): (ls: seq<string>)
    ensures |ls| == 6 * |cs|
  {
    if cs == [] then [] else Lines(cs[..|cs| - 1]) + RecordLines(|cs| - 1, cs[|cs| - 1])
  }

  /** `fileContent` after the `forEach` over `cs`: every line of every record,
      each followed by a line feed. */
  function SaveText(cs: seq<Cell>): string {
    Unlines(Lines(cs))
  }

  /** The save handler's loop over the cells. */
  method SaveGrid(cells: array<Cell>) returns (fileContent: string)
    ensures fileContent == SaveText(cells[..])
  {
    fileContent := "";
    for index := 0 to cells.Length
      invariant fileContent == SaveText(cells[..index])
    {
      var cellNumber, cellClass, color, shape, dir := Fields(index, cells[index]);
      fileContent := AppendRecord(fileContent, Lines(cells[..index]), cellNumber, cellClass, color, shape, dir);
      assert cells[..index + 1][..index] == cells[..index];
    }
    assert cells[..cells.Length] == cells[..];
  }

  /** The five values the `forEach` callback computes for the cell at `index`. */
  method Fields(index: nat, cell: Cell) returns (cellNumber: string, cellClass: string, color: string, shape: string, dir: string)
    ensures cellNumber == "C" + NatToString(index + 1) && cellClass == ClassField(cell)
    ensures color == ColorField(cell) && shape == ShapeField(cell) && dir == DirField(cell)
  {
    cellNumber := "C" + NatToString(index + 1);
    cellClass := Join(Others(cell.classes), ", ");
    if cellClass == "" {
      cellClass := "none";
    }
    color := if cell.color == "" then "none" else cell.color;
    shape := "none";
    if "square" in cell.classes {
      shape := "square";
    } else if "circle" in cell.classes {
      shape := "circle";
    } else if "triangle" in cell.classes {
      shape := "triangle";
    }
    dir := DirField(cell);
  }

  /** The six `fileContent +=` of one record, on a text holding the lines `ls`. */
  method AppendRecord(fileContent: string, ghost ls: seq<string>,
                      cellNumber: string, cellClass: string, color: string, shape: string, dir: string)
    returns (r: string)
    requires fileContent == Unlines(ls)
    ensures r == Unlines(ls + [cellNumber + ":", "class: " + cellClass, "color: " + color,
                               "shape: " + shape, "dir: " + dir, ""])
  {
    ghost var done := ls;
    r := AppendLine(fileContent, done, cellNumber + ":");
    done := done + [cellNumber + ":"];
    r := AppendLine(r, done, "class: " + cellClass);
    done := done + ["class: " + cellClass];
    r := AppendLine(r, done, "color: " + color);
    done := done + ["color: " + color];
    r := AppendLine(r, done, "shape: " + shape);
    done := done + ["shape: " + shape];
    r := AppendLine(r, done, "dir: " + dir);
    done := done + ["dir: " + dir];
    r := AppendLine(r, done, "");
    done := done + [""];
    assert done == ls + [cellNumber + ":", "class: " + cellClass, "color: " + color, "shape: " + shape, "dir: " + dir, ""];
  }

  /** `fileContent += line + '\n'` on a text holding the lines `ls`. */
  method AppendLine(fileContent: string, ghost ls: seq<string>, line: string) returns (r: string)
    requires fileContent == Unlines(ls)
    ensures r == Unlines(ls + [line])
  {
    r := fileContent + (line + "\n");
    UnlinesAppend(ls, [line]);
  }
}
