/** `loadGridFromContent` (script.js:370-414): the text of a saved grid is read
    line by line; a `C<n>:` header selects cell n, and each `key: value` line
    after it sets one property of that cell. An exception thrown on a line ends
    the whole load, leaving the cells as far as it got. */
module Load {
  import opened Wrappers
  import opened JsText
  import opened ClassList
  import opened Cells
  import opened Grid

  /** The loader's state: the cells, `currentIndex`, and whether no line has
      thrown yet. */
  datatype Loader = Loader(cells: seq<Cell>, index: int, ok: bool)

  /** `line.match(/^C(\d+):$/)`, then `parseInt(match[1], 10) - 1`. */
  function HeaderIndex(line: string): (r: Option<int>)
    ensures r.Some? ==> r.value >= -1
  {
    if |line| >= 3 && line[0] == 'C' && line[|line| - 1] == ':' && AllDigits(line[1..|line| - 1])
    then Some(DigitsValue(line[1..|line| - 1]) - 1)
    else None
  }

  /** `const [key, value] = line.split(':').map(part => part.trim())`; the
      value is `None` (undefined) when the line has no colon. */
  function KeyValue(line: string): (string, Option<string>) {
    var parts := Split(line, ":");
    (Trim(parts[0]), if |parts| > 1 then Some(Trim(parts[1])) else None)
  }

  /** Every piece is `none`, which is skipped, or a token `classList.add` accepts. */
  predicate AllAddable(pieces: seq<string>) {
    forall k :: 0 <= k < |pieces| ==> pieces[k] == "none" || ValidToken(pieces[k])
  }

  /** `value.split(', ').forEach(cls => { if (cls !== 'none') cell.classList.add(cls); })`:
      `add` throws on an empty token or one with whitespace, which ends the load
      with the tokens before it added. */
  function AddTokens(cs: seq<string>, pieces: seq<string>): (r: (seq<string>, bool))
    ensures cs <= r.0
    ensures forall x :: x in cs ==> x in r.0
    ensures forall x :: x in r.0 ==> x in cs || (x in pieces && x != "none")
    ensures r.1 <==> AllAddable(pieces)
    ensures r.1 ==> forall k :: 0 <= k < |pieces| && pieces[k] != "none" ==> pieces[k] in r.0
    ensures cs != [] && cs[0] == "cell" && NoDup(cs) ==> r.0 != [] && r.0[0] == "cell" && NoDup(r.0)
    decreases |pieces|
  {
    if pieces == [] then (cs, true)
    else
      assert forall k :: 1 <= k < |pieces| ==> pieces[k] == pieces[1..][k - 1];
      if pieces[0] == "none" then AddTokens(cs, pieces[1..])
      else if !ValidToken(pieces[0]) then (cs, false)
      else AddTokens(Add(cs, pieces[0]), pieces[1..])
  }

  /** `case 'class'`: `resetCellClasses` as written, then `value.split(', ')`,
      which throws on a missing value, and the tokens added. On a cell with at
      most one token besides `cell` and the shapes the reset leaves `cell`
      alone, and the line sets exactly `cell` and the listed tokens. */
  function SetClasses(c: Cell, value: Option<string>): (r: (Cell, bool))
    ensures r.0.color == c.color && r.0.rotation == c.rotation
    ensures Valid(c) ==> Valid(r.0)
    ensures value.None? ==> r == (ResetClassesLive(c), false)
    ensures value.Some? ==> ResetClassesLive(c).classes <= r.0.classes
    ensures value.Some? ==> forall x :: x in r.0.classes ==>
      x in ResetClassesLive(c).classes || (x in Split(value.value, ", ") && x != "none")
    ensures value.Some? ==> (r.1 <==> AllAddable(Split(value.value, ", ")))
    ensures value.Some? && r.1 ==> forall k :: 0 <= k < |Split(value.value, ", ")| && Split(value.value, ", ")[k] != "none" ==>
      Split(value.value, ", ")[k] in r.0.classes
  {
    var cleared := ResetClassesLive(c);
    match value
    case None => (cleared, false)
    case Some(v) =>
      var added := AddTokens(cleared.classes, Split(v, ", "));
      (cleared.(classes := added.0), added.1)
  }

  /** `case 'color'`: `none` clears the colour; a missing value is no colour and
      the style keeps what it had. */
  function SetColor(c: Cell, value: Option<string>): (r: Cell)
    ensures r.classes == c.classes && r.rotation == c.rotation
    ensures value == Some("none") ==> r.color == ""
    ensures value.Some? && value.value != "none" ==> r.color == value.value
    ensures value.None? ==> r == c
  {
    match value
    case None => c
    case Some(v) => c.(color := if v == "none" then "" else v)
  }

  /** The shape a `shape:` line adds: its value, or `undefined` when it has none. */
  function ShapeValue(value: Option<string>): string {
    if value.None? then "undefined" else value.value
  }

  /** `case 'shape'`: `resetCellShape`, then the shape added unless it is `none`;
      a missing value adds the token `undefined`, and one `add` refuses throws. */
  function SetShape(c: Cell, value: Option<string>): (r: (Cell, bool))
    ensures r.0.color == c.color && r.0.rotation == c.rotation
    ensures Valid(c) ==> Valid(r.0)
    ensures forall x :: x in ShapeTokens && x in r.0.classes ==> Some(x) == value
    ensures r.1 <==> ShapeValue(value) == "none" || ValidToken(ShapeValue(value))
    ensures forall x :: x in r.0.classes <==>
      (x in c.classes && x !in ShapeTokens) || (r.1 && x == ShapeValue(value) && x != "none")
  {
    var cleared := ClearShape(c);
    var shape := ShapeValue(value);
    if shape == "none" then (cleared, true)
    else if ValidToken(shape) then (cleared.(classes := Add(cleared.classes, shape)), true)
    else (cleared, false)
  }

  /** `case 'dir'`: `none` reads as 0, anything else through `parseInt(value, 10)`;
      a value that is no number ends the load. */
  function SetDir(c: Cell, value: Option<string>): (r: (Cell, bool))
    ensures r.0.classes == c.classes && r.0.color == c.color
    ensures value == Some("none") ==> r == (c.(rotation := Some(0)), true)
    ensures value.Some? && value.value != "none" && ParseInt(value.value).Some? ==>
      r == (c.(rotation := ParseInt(value.value)), true)
    ensures value.None? || (value.value != "none" && ParseInt(value.value).None?) ==> r == (c, false)
  {
    var rotation := if value == Some("none") then Some(0) else if value.None? then None else ParseInt(value.value);
    match rotation
    case None => (c, false)
    case Some(n) => (c.(rotation := Some(n)), true)
  }

  /** One `key: value` line applied to a cell: the new cell and whether the
      line went through without an exception. */
  function Property(c: Cell, key: string, value: Option<string>): (r: (Cell, bool))
    ensures Valid(c) ==> Valid(r.0)
    ensures key != "class" && key != "color" && key != "shape" && key != "dir" ==> r == (c, true)
  {
    if key == "class" then SetClasses(c, value)
    else if key == "color" then (SetColor(c, value), true)
    else if key == "shape" then SetShape(c, value)
    else if key == "dir" then SetDir(c, value)
    else (c, true)
  }

  /** A `key: value` line on the cell `ld.index`, when that is a cell of the grid. */
  function Apply(ld: Loader, line: string): (r: Loader)
    ensures |r.cells| == |ld.cells| && r.index == ld.index
    ensures forall j :: 0 <= j < |ld.cells| && j != ld.index ==> r.cells[j] == ld.cells[j]
    ensures (forall j :: 0 <= j < |ld.cells| ==> Valid(ld.cells[j])) ==> forall j :: 0 <= j < |r.cells| ==> Valid(r.cells[j])
    ensures !r.ok ==> !ld.ok || 0 <= ld.index < |ld.cells|
    ensures !(0 <= ld.index < |ld.cells|) ==> r == ld
  {
    if 0 <= ld.index < |ld.cells| then
      var kv := KeyValue(line);
      var res := Property(ld.cells[ld.index], kv.0, kv.1);
      Loader(ld.cells[ld.index := res.0], ld.index, res.1)
    else ld
  }

  /** The `forEach` callback for one line of the file. */
  function Step(ld: Loader, raw: string): (r: Loader)
    ensures |r.cells| == |ld.cells|
    ensures forall j :: 0 <= j < |ld.cells| && j != ld.index ==> r.cells[j] == ld.cells[j]
    ensures (forall j :: 0 <= j < |ld.cells| ==> Valid(ld.cells[j])) ==> forall j :: 0 <= j < |r.cells| ==> Valid(r.cells[j])
    ensures ld.ok && !r.ok ==> 0 <= ld.index < |ld.cells| && r.index == ld.index
  {
    var line := Trim(raw);
    if line == "" then ld
    else match HeaderIndex(line)
      case Some(n) => ld.(index := n)
      case None => Apply(ld, line)
  }

  /** The lines from the first on, until one throws. */
  function Run(ld: Loader, lines: seq<string>): (r: Loader)
    ensures |r.cells| == |ld.cells|
    ensures (forall j :: 0 <= j < |ld.cells| ==> Valid(ld.cells[j])) ==> forall j :: 0 <= j < |r.cells| ==> Valid(r.cells[j])
    ensures !ld.ok ==> r == ld
    decreases |lines|
  {
    if lines == [] || !ld.ok then ld else Run(Step(ld, lines[0]), lines[1..])
  }

  /** `loadGridFromContent(content)` on the cells `cells`. */
  function LoadText(cells: seq<Cell>, content: string): Loader {
    Run(Loader(cells, -1, true), Split(content, "\n"))
  }

  /** Running two stretches of lines is running the first, then the second. */
  lemma {:induction false} RunAppend(ld: Loader, a: seq<string>, b: seq<string>)
    ensures Run(ld, a + b) == Run(Run(ld, a), b)
    decreases |a|
  {
    if a != [] && ld.ok {
      assert (a + b)[1..] == a[1..] + b;
      RunAppend(Step(ld, a[0]), a[1..], b);
    } else if a == [] {
      assert a + b == b;
    }
  }

  /** A line the trim leaves empty changes nothing. */
  lemma BlankLine(ld: Loader, raw: string)
    requires Trim(raw) == ""
    ensures Step(ld, raw) == ld
  {
  }

  /** A line that is no header changes nothing before the first header or
      while the header named no cell of the grid. */
  lemma OutsideGrid(ld: Loader, raw: string)
    requires HeaderIndex(Trim(raw)).None? && !(0 <= ld.index < |ld.cells|)
    ensures Step(ld, raw) == ld
  {
  }

  /** A header `C<n>:` selects cell n - 1, whatever was selected before. */
  lemma HeaderSelects(ld: Loader, raw: string, n: nat)
    requires Trim(raw) == "C" + NatToString(n) + ":"
    ensures Step(ld, raw) == ld.(index := n - 1)
  {
    HeaderOf(n);
  }

  /** The header `C<n>:` reads as index n - 1. */
  lemma HeaderOf(n: nat)
    ensures HeaderIndex("C" + NatToString(n) + ":") == Some(n - 1)
  {
    var line := "C" + NatToString(n) + ":";
    assert line[1..|line| - 1] == NatToString(n);
  }

  /** The class line on cell `i`: `resetCellClasses`, then the tokens. */
  method LoadClasses(cells: array<Cell>, i: nat, value: Option<string>) returns (ok: bool)
    requires i < cells.Length
    modifies cells
    ensures cells[..] == old(cells[..])[i := SetClasses(old(cells[i]), value).0]
    ensures ok == SetClasses(old(cells[i]), value).1
  {
    ResetCellClasses(cells, i);
    if value.None? {
      return false;
    }
    var classes;
    classes, ok := AddClasses(cells[i].classes, Split(value.value, ", "));
    var loaded := cells[i].(classes := classes);
    assert cells[..] == old(cells[..])[i := ResetClassesLive(old(cells[i]))];
    cells[i] := loaded;
  }

  /** `classes.forEach(cls => { if (cls !== 'none') cell.classList.add(cls) })`
      on the token list `start`; `ok` is false once an `add` throws. */
  method AddClasses(start: seq<string>, pieces: seq<string>) returns (classes: seq<string>, ok: bool)
    ensures (classes, ok) == AddTokens(start, pieces)
  {
    classes := start;
    ok := true;
    var k := 0;
    while k < |pieces| && ok
      invariant 0 <= k <= |pieces|
      invariant ok ==> AddTokens(classes, pieces[k..]) == AddTokens(start, pieces)
      invariant !ok ==> (classes, false) == AddTokens(start, pieces)
    {
      assert pieces[k..][1..] == pieces[k + 1..];
      var cls := pieces[k];
      if cls != "none" {
        if ValidToken(cls) {
          classes := Add(classes, cls);
        } else {
          ok := false;
        }
      }
      k := k + 1;
    }
  }

  /** The shape line on cell `i`: `resetCellShape`, then the shape. */
  method LoadShape(cells: array<Cell>, i: nat, value: Option<string>) returns (ok: bool)
    requires i < cells.Length
    modifies cells
    ensures cells[..] == old(cells[..])[i := SetShape(old(cells[i]), value).0]
    ensures ok == SetShape(old(cells[i]), value).1
  {
    ghost var before := cells[i];
    ResetCellShape(cells, i);
    var c := cells[i];
    var shape := ShapeValue(value);
    ok := true;
    if shape != "none" {
      if ValidToken(shape) {
        c := c.(classes := Add(c.classes, shape));
      } else {
        ok := false;
      }
    }
    assert (c, ok) == SetShape(before, value);
    ghost var cleared := cells[..];
    assert cleared == old(cells[..])[i := ClearShape(before)];
    cells[i] := c;
    assert cells[..] == cleared[i := c];
  }

  /** The `switch (key)` on cell `i`. */
  method LoadProperty(cells: array<Cell>, i: nat, key: string, value: Option<string>) returns (ok: bool)
    requires i < cells.Length
    modifies cells
    ensures cells[..] == old(cells[..])[i := Property(old(cells[i]), key, value).0]
    ensures ok == Property(old(cells[i]), key, value).1
  {
    ok := true;
    if key == "class" {
      ok := LoadClasses(cells, i, value);
    } else if key == "color" {
      if value.Some? {
        var c := cells[i].(color := if value.value == "none" then "" else value.value);
        cells[i] := c;
      }
      assert cells[i] == SetColor(old(cells[i]), value);
    } else if key == "shape" {
      ok := LoadShape(cells, i, value);
    } else if key == "dir" {
      var rotation := if value == Some("none") then Some(0) else if value.None? then None else ParseInt(value.value);
      if rotation.None? {
        return false;
      }
      var c := cells[i].(rotation := Some(rotation.value));
      cells[i] := c;
    }
  }

  /** The callback for one line, on the cells in place. */
  method LoadLine(cells: array<Cell>, currentIndex: int, raw: string) returns (index: int, ok: bool)
    modifies cells
    ensures Loader(cells[..], index, ok) == Step(Loader(old(cells[..]), currentIndex, true), raw)
  {
    index, ok := currentIndex, true;
    var line := Trim(raw);
    if line == "" {
      return;
    }
    var cellMatch := HeaderIndex(line);
    if cellMatch.Some? {
      index := cellMatch.value;
      return;
    }
    index, ok := ApplyLine(cells, currentIndex, line);
  }

  /** A `key: value` line on the cell `currentIndex`, in place. */
  method ApplyLine(cells: array<Cell>, currentIndex: int, line: string) returns (index: int, ok: bool)
    modifies cells
    ensures Loader(cells[..], index, ok) == Apply(Loader(old(cells[..]), currentIndex, true), line)
  {
    index, ok := currentIndex, true;
    if 0 <= currentIndex < cells.Length {
      var kv := KeyValue(line);
      ok := LoadProperty(cells, currentIndex as nat, kv.0, kv.1);
    }
  }

  /** `loadGridFromContent(content)`: the lines in order, until one throws. The
      result says whether every line went through. */
  method LoadGridFromContent(cells: array<Cell>, content: string) returns (completed: bool)
    modifies cells
    ensures cells[..] == LoadText(old(cells[..]), content).cells
    ensures completed == LoadText(old(cells[..]), content).ok
  {
    var lines := Split(content, "\n");
    var currentIndex := -1;
    completed := true;
    var k := 0;
    while k < |lines| && completed
      invariant 0 <= k <= |lines|
      invariant Run(Loader(cells[..], currentIndex, completed), lines[k..]) == LoadText(old(cells[..]), content)
    {
      assert lines[k..][1..] == lines[k + 1..];
      currentIndex, completed := LoadLine(cells, currentIndex, lines[k]);
      k := k + 1;
    }
  }
}
