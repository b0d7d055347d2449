/** From the canvas to rows of text: each cell at its place, and no more than blanks left away. */
module Printing {
  import opened Canvas
  import opened Texts

  /** The box-drawing character for the stubs in a cell. */
  function Glyph(sides: set<Side>): (r: char) {
    var up, right, down, left := Up in sides, Right in sides, Down in sides, Left in sides;
    if up && down && left && right then '\U{253c}'
    else if up && down && right then '\U{251c}'
    else if up && down && left then '\U{2524}'
    else if left && right && down then '\U{252c}'
    else if left && right && up then '\U{2534}'
    else if right && down then '\U{250c}'
    else if left && down then '\U{2510}'
    else if right && up then '\U{2514}'
    else if left && up then '\U{2518}'
    else if up || down then '\U{2502}'
    else if left || right then '\U{2500}'
    else ' '
  }

  lemma GlyphIsBlank(sides: set<Side>)
    ensures Space(Glyph(sides)) <==> sides == {}
  {
    assert forall side | side in sides :: side == Up || side == Right || side == Down || side == Left;
    assert sides == {} <==> Up !in sides && Right !in sides && Down !in sides && Left !in sides;
  }

  /** The arms of each light line character of the Unicode block Box Drawing. */
  function ArmsOf(ch: char): (arms: set<Side>) {
    match ch
    case '\U{2500}' => {Left, Right}
    case '\U{2502}' => {Up, Down}
    case '\U{250c}' => {Down, Right}
    case '\U{2510}' => {Down, Left}
    case '\U{2514}' => {Up, Right}
    case '\U{2518}' => {Up, Left}
    case '\U{251c}' => {Up, Down, Right}
    case '\U{2524}' => {Up, Down, Left}
    case '\U{252c}' => {Down, Left, Right}
    case '\U{2534}' => {Up, Left, Right}
    case '\U{253c}' => {Up, Down, Left, Right}
    case _ => {}
  }

  /** A single stub is shown as a straight line along its axis, two or more as they are. */
  function Straight(sides: set<Side>): (arms: set<Side>) {
    if sides == {Up} || sides == {Down} then {Up, Down}
    else if sides == {Left} || sides == {Right} then {Left, Right}
    else sides
  }

  lemma SidesByMember(s: set<Side>, t: set<Side>)
    requires Up in s <==> Up in t
    requires Right in s <==> Right in t
    requires Down in s <==> Down in t
    requires Left in s <==> Left in t
    ensures s == t
  {
    forall side: Side
      ensures side in s <==> side in t
    {
      match side
      case Up =>
      case Right =>
      case Down =>
      case Left =>
    }
  }

  /** The character has the arms that the cell has stubs. */
  lemma GlyphArms(sides: set<Side>)
    ensures ArmsOf(Glyph(sides)) == Straight(sides)
  {
    var up, right, down, left := Up in sides, Right in sides, Down in sides, Left in sides;
    var same := (if up then {Up} else {}) + (if right then {Right} else {})
                + (if down then {Down} else {}) + (if left then {Left} else {});
    SidesByMember(sides, same);
    SidesByMember(ArmsOf(Glyph(same)), Straight(same));
  }

  /** What a cell shows: its character, else its line, else nothing. */
  function CellChar(lines: Lines, text: map<Cell, char>, c: Cell): (r: char) {
    if c in text then text[c] else Glyph(SidesAt(lines, c))
  }

  function RightStrip(s: string): (r: string) {
    if s != "" && Space(s[|s| - 1]) then RightStrip(s[..|s| - 1]) else s
  }

  lemma {:induction false} RightStripMeans(s: string)
    ensures RightStrip(s) <= s && (forall i | |RightStrip(s)| <= i < |s| :: Space(s[i]))
    ensures RightStrip(s) != "" ==> !Space(RightStrip(s)[|RightStrip(s)| - 1])
  {
    if s != "" && Space(s[|s| - 1]) {
      RightStripMeans(s[..|s| - 1]);
    }
  }

  function DropEmpty(rows: seq<string>): (r: seq<string>) {
    if rows != [] && rows[|rows| - 1] == "" then DropEmpty(rows[..|rows| - 1]) else rows
  }

  lemma {:induction false} DropEmptyMeans(rows: seq<string>)
    ensures DropEmpty(rows) <= rows && (forall y | |DropEmpty(rows)| <= y < |rows| :: rows[y] == "")
    ensures DropEmpty(rows) != [] ==> DropEmpty(rows)[|DropEmpty(rows)| - 1] != ""
  {
    if rows != [] && rows[|rows| - 1] == "" {
      DropEmptyMeans(rows[..|rows| - 1]);
    }
  }

  /** Row `y` shows the cells from column `start` on. */
  ghost predicate RowShows(row: string, lines: Lines, text: map<Cell, char>, start: int, y: nat) {
    forall i {:trigger row[i]} | 0 <= i < |row| :: row[i] == CellChar(lines, text, Cell(start + i, y))
  }

  /** Whatever can be seen of a cell is in its row. */
  ghost predicate InRow(row: string, lines: Lines, text: map<Cell, char>, start: int, c: Cell) {
    !Space(CellChar(lines, text, c)) ==> 0 <= c.x - start < |row|
  }

  ghost predicate RowPrints(row: string, lines: Lines, text: map<Cell, char>, start: int, y: nat) {
    && RowShows(row, lines, text, start, y)
    && (forall c: Cell {:trigger InRow(row, lines, text, start, c)} | c.y == y :: InRow(row, lines, text, start, c))
    && (row != "" ==> !Space(row[|row| - 1]))
  }

  /**
   The rows show every cell at its place, from column `start` on and from row zero downwards, and there is
   nothing above. What they leave away is blank, and they end neither in blanks nor in empty rows.
   */
  ghost predicate Prints(rows: seq<string>, lines: Lines, text: map<Cell, char>, start: int) {
    && (forall y: nat {:trigger RowAt(rows, y)} :: RowPrints(RowAt(rows, y), lines, text, start, y))
    && (rows != [] ==> rows[|rows| - 1] != "")
    && (forall c {:trigger Occupied(lines, text, c)} | Occupied(lines, text, c) :: c.y >= 0)
  }

  function RowAt(rows: seq<string>, y: nat): (r: string) {
    if y < |rows| then rows[y] else ""
  }

  ghost predicate Occupied(lines: Lines, text: map<Cell, char>, c: Cell) {
    c in lines || c in text
  }

  /** No cell is occupied left of `start`, or below row `last`, or further right than its row's maximum. */
  ghost predicate Bounds(cells: set<Cell>, start: int, last: int, most: map<int, int>) {
    forall c: Cell | c in cells :: start <= c.x && c.y <= last && c.y in most && c.x <= most[c.y]
  }

  method Measure(cells: set<Cell>) returns (start: int, last: int, most: map<int, int>)
    ensures Bounds(cells, start, last, most) && start <= 0
    ensures last >= 0 ==> exists c :: c in cells && c.y == last
    ensures last < 0 ==> last == -1
  {
    start, last, most := 0, -1, map[];
    var todo := cells;
    while todo != {}
      invariant todo <= cells && Bounds(cells - todo, start, last, most) && start <= 0 && last >= -1
      invariant last >= 0 ==> exists c :: c in cells && c.y == last
      decreases |todo|
    {
      var c :| c in todo;
      start, last := Smaller(start, c.x), Larger(last, c.y);
      most := most[c.y := if c.y in most then Larger(most[c.y], c.x) else c.x];
      todo := todo - {c};
    }
    assert cells - todo == cells;
  }

  /** One row: its cells up to the last occupied one, without trailing blanks. */
  method PrintRow(lines: Lines, text: map<Cell, char>, start: int, y: nat, end: int) returns (row: string)
    requires end >= start - 1
    requires forall c | Occupied(lines, text, c) && c.y == y :: start <= c.x <= end
    ensures RowPrints(row, lines, text, start, y)
  {
    var whole: string := "";
    for x := start to end + 1
      invariant |whole| == x - start && RowShows(whole, lines, text, start, y)
    {
      whole := whole + [CellChar(lines, text, Cell(x, y))];
    }
    RightStripMeans(whole);
    row := RightStrip(whole);
    forall c: Cell | c.y == y
      ensures InRow(row, lines, text, start, c)
    {
      Unoccupied(lines, text, c);
      if Occupied(lines, text, c) && c.x - start >= |row| {
        assert whole[c.x - start] == CellChar(lines, text, Cell(start + (c.x - start), y));
      }
    }
  }

  lemma Unoccupied(lines: Lines, text: map<Cell, char>, c: Cell)
    ensures !Occupied(lines, text, c) ==> Space(CellChar(lines, text, c))
  {
    GlyphIsBlank({});
  }

  lemma EmptyRow(lines: Lines, text: map<Cell, char>, start: int, y: nat)
    requires forall c | Occupied(lines, text, c) :: c.y != y
    ensures RowPrints("", lines, text, start, y)
  {
    forall c: Cell | c.y == y
      ensures InRow("", lines, text, start, c)
    {
      Unoccupied(lines, text, c);
    }
  }

  /** All rows from zero on. */
  method Print(lines: Lines, text: map<Cell, char>) returns (rows: seq<string>, start: int)
    requires forall c | Occupied(lines, text, c) :: c.y >= 0
    ensures Prints(rows, lines, text, start) && start <= 0
  {
    var last, most;
    start, last, most := Measure(lines.Keys + text.Keys);
    var all: seq<string> := [];
    for y := 0 to last + 1
      invariant |all| == y
      invariant forall k: nat {:trigger all[k]} | k < y :: RowPrints(all[k], lines, text, start, k)
    {
      var row := PrintRow(lines, text, start, y, if y in most then Larger(most[y], start - 1) else start - 1);
      all := all + [row];
    }
    DropEmptyMeans(all);
    rows := DropEmpty(all);
    forall y: nat
      ensures RowPrints(RowAt(rows, y), lines, text, start, y)
    {
      if y > last {
        EmptyRow(lines, text, start, y);
      } else {
        assert RowAt(rows, y) == all[y];
      }
    }
  }

  /** A visible character of the canvas is read at its place. */
  lemma ReadBack(rows: seq<string>, lines: Lines, text: map<Cell, char>, start: int, c: Cell)
    requires Prints(rows, lines, text, start) && !Space(CellChar(lines, text, c))
    ensures 0 <= c.y < |rows| && 0 <= c.x - start < |rows[c.y]| && rows[c.y][c.x - start] == CellChar(lines, text, c)
  {
    Unoccupied(lines, text, c);
    var y: nat := c.y;
    assert RowPrints(RowAt(rows, y), lines, text, start, y);
    assert InRow(RowAt(rows, y), lines, text, start, c);
    assert RowAt(rows, y)[c.x - start] == CellChar(lines, text, Cell(start + (c.x - start), y));
  }
}
