/** The sparse canvas: line stubs and characters by cell. */
module Canvas {
  datatype Side = Up | Right | Down | Left

  datatype Cell = Cell(x: int, y: int)

  type Lines = map<Cell, set<Side>>

  function SidesAt(lines: Lines, c: Cell): (r: set<Side>) {
    if c in lines then lines[c] else {}
  }

  function Smaller(x: int, y: int): (r: int) {
    if x < y then x else y
  }

  function Larger(x: int, y: int): (r: int) {
    if x < y then y else x
  }

  /** The stubs that a run between two columns leaves in a cell: none at all if the columns are one. */
  function AcrossSides(y: int, start: int, end: int, c: Cell): (r: set<Side>) {
    var lo, hi := Smaller(start, end), Larger(start, end);
    (if c.y == y && lo <= c.x < hi then {Right} else {}) + (if c.y == y && lo < c.x <= hi then {Left} else {})
  }

  function DownSides(x: int, start: int, end: int, c: Cell): (r: set<Side>) {
    var lo, hi := Smaller(start, end), Larger(start, end);
    (if c.x == x && lo <= c.y < hi then {Down} else {}) + (if c.x == x && lo < c.y <= hi then {Up} else {})
  }

  /** The k-th character of a text that begins at a cell is in its place. */
  predicate CharAt(text: map<Cell, char>, x: int, y: int, value: string, k: int)
    requires 0 <= k < |value|
  {
    Cell(x + k, y) in text && text[Cell(x + k, y)] == value[k]
  }

  /** The first `n` characters of a text were written from a cell on to the right, and nothing else changed. */
  predicate WrittenUpTo(before: map<Cell, char>, after: map<Cell, char>, x: int, y: int, value: string, n: nat)
    requires n <= |value|
  {
    && (forall k {:trigger CharAt(after, x, y, value, k)} | 0 <= k < n :: CharAt(after, x, y, value, k))
    && (forall c | c in before && !(c.y == y && x <= c.x < x + n) :: c in after && after[c] == before[c])
    && (forall c | c in after :: c in before || (c.y == y && x <= c.x < x + n))
  }

  predicate Written(before: map<Cell, char>, after: map<Cell, char>, x: int, y: int, value: string) {
    WrittenUpTo(before, after, x, y, value, |value|)
  }

  lemma WriteNext(before: map<Cell, char>, now: map<Cell, char>, x: int, y: int, value: string, n: nat)
    requires n < |value| && WrittenUpTo(before, now, x, y, value, n)
    ensures WrittenUpTo(before, now[Cell(x + n, y) := value[n]], x, y, value, n + 1)
  {
    var after, next := now[Cell(x + n, y) := value[n]], n + 1;
    forall k | 0 <= k < next
      ensures CharAt(after, x, y, value, k)
    {
      assert k < n ==> CharAt(now, x, y, value, k);
    }
  }

  /** A text and the cell it begins at. */
  datatype Writing = Writing(x: int, y: int, text: string) {
    predicate On(c: Cell) {
      c.y == y && x <= c.x < x + |text|
    }

    /** The two share no cell. */
    predicate Clear(other: Writing) {
      y != other.y || Larger(x, other.x) >= Smaller(x + |text|, other.x + |other.text|)
    }

    predicate Shown(cells: map<Cell, char>) {
      forall k {:trigger CharAt(cells, x, y, text, k)} | 0 <= k < |text| :: CharAt(cells, x, y, text, k)
    }
  }

  /** All of these writings can be read, and there is no other character. */
  ghost predicate Lettered(writings: set<Writing>, cells: map<Cell, char>) {
    && (forall w {:trigger w.Shown(cells)} | w in writings :: w.Shown(cells))
    && (forall c {:trigger Lettering(writings, c)} | c in cells :: Lettering(writings, c))
  }

  ghost predicate Lettering(writings: set<Writing>, c: Cell) {
    exists w {:trigger w.On(c)} :: w in writings && w.On(c)
  }

  lemma WritingStays(before: map<Cell, char>, after: map<Cell, char>, v: Writing, w: Writing)
    requires v.Shown(before) && Written(before, after, w.x, w.y, w.text) && (v == w || v.Clear(w))
    ensures v.Shown(after)
  {
    forall k | 0 <= k < |v.text|
      ensures CharAt(after, v.x, v.y, v.text, k)
    {
      assert CharAt(before, v.x, v.y, v.text, k);
    }
  }

  lemma OneMoreWriting(writings: set<Writing>, before: map<Cell, char>, after: map<Cell, char>, w: Writing)
    requires Lettered(writings, before) && Written(before, after, w.x, w.y, w.text)
    requires forall v | v in writings :: v == w || v.Clear(w)
    ensures Lettered(writings + {w}, after)
  {
    forall v | v in writings
      ensures v.Shown(after)
    {
      assert v.Shown(before);
      WritingStays(before, after, v, w);
    }
    assert w.Shown(after);
    forall c | c in after
      ensures Lettering(writings + {w}, c)
    {
      if !w.On(c) {
        assert Lettering(writings, c);
        var v :| v in writings && v.On(c);
        assert v in writings + {w};
      } else {
        assert w in writings + {w};
      }
    }
  }

  /** Stubs are mutual: what points at a neighbour is pointed at by it. So every line is drawn at both its ends. */
  ghost predicate Mutual(lines: Lines) {
    forall c {:trigger MutualAt(lines, c)} :: MutualAt(lines, c)
  }

  ghost predicate MutualAt(lines: Lines, c: Cell) {
    && (Right in SidesAt(lines, c) <==> Left in SidesAt(lines, Cell(c.x + 1, c.y)))
    && (Down in SidesAt(lines, c) <==> Up in SidesAt(lines, Cell(c.x, c.y + 1)))
  }

  /** Adding a stub to each of two neighbours, towards each other, keeps stubs mutual. */
  lemma JoinKeepsMutual(before: Lines, after: Lines, first: Cell, second: Cell, across: bool)
    requires Mutual(before)
    requires second == if across then Cell(first.x + 1, first.y) else Cell(first.x, first.y + 1)
    requires forall c :: SidesAt(after, c) == SidesAt(before, c)
                         + (if c == first then {if across then Right else Down} else {})
                         + (if c == second then {if across then Left else Up} else {})
    ensures Mutual(after)
  {
    forall c: Cell
      ensures MutualAt(after, c)
    {
      assert MutualAt(before, c);
    }
  }

  class Canvas {
    var lines: Lines
    var text: map<Cell, char>

    constructor ()
      ensures Valid() && lines == map[] && text == map[]
    {
      lines, text := map[], map[];
    }

    /** A cell is in the table only with a stub, and stubs are mutual. Hence every cell has a glyph. */
    ghost predicate Valid()
      reads this
    {
      (forall c | c in lines :: lines[c] != {}) && Mutual(lines)
    }

    /** Joins two neighbouring cells, the second to the right of or below the first; refuses any other pair. */
    method Connect(first: Cell, second: Cell) returns (ok: bool)
      requires Valid()
      modifies this`lines
      ensures Valid()
      ensures ok <==>
                (second.x == first.x + 1 && second.y == first.y) || (second.x == first.x && second.y == first.y + 1)
      ensures !ok ==> lines == old(lines)
      ensures ok ==> forall c :: SidesAt(lines, c) == SidesAt(old(lines), c)
                                 + (if second.y == first.y then AcrossSides(first.y, first.x, second.x, c)
                                   else DownSides(first.x, first.y, second.y, c))
    {
      var from, to: Side;
      if second.x == first.x + 1 && second.y == first.y {
        from, to := Right, Left;
      } else if second.x == first.x && second.y == first.y + 1 {
        from, to := Down, Up;
      } else {
        return false;
      }
      ghost var before := lines;
      lines := lines[first := SidesAt(lines, first) + {from}];
      lines := lines[second := SidesAt(lines, second) + {to}];
      JoinKeepsMutual(before, lines, first, second, second.y == first.y);
      ok := true;
    }

    method AddHorizontal(y: int, start: int, end: int)
      requires Valid()
      modifies this`lines
      ensures Valid()
      ensures forall c :: SidesAt(lines, c) == SidesAt(old(lines), c) + AcrossSides(y, start, end, c)
    {
      var lo, hi := Smaller(start, end), Larger(start, end);
      for x := lo to hi
        invariant Valid()
        invariant forall c :: SidesAt(lines, c) == SidesAt(old(lines), c) + AcrossSides(y, lo, x, c)
      {
        var ok := Connect(Cell(x, y), Cell(x + 1, y));
      }
    }

    method AddVertical(x: int, start: int, end: int)
      requires Valid()
      modifies this`lines
      ensures Valid()
      ensures forall c :: SidesAt(lines, c) == SidesAt(old(lines), c) + DownSides(x, start, end, c)
    {
      var lo, hi := Smaller(start, end), Larger(start, end);
      for y := lo to hi
        invariant Valid()
        invariant forall c :: SidesAt(lines, c) == SidesAt(old(lines), c) + DownSides(x, lo, y, c)
      {
        var ok := Connect(Cell(x, y), Cell(x, y + 1));
      }
    }

    method AddText(x: int, y: int, value: string)
      modifies this`text
      ensures Written(old(text), text, x, y, value)
    {
      for k := 0 to |value|
        invariant WrittenUpTo(old(text), text, x, y, value, k)
      {
        WriteNext(old(text), text, x, y, value, k);
        text := text[Cell(x + k, y) := value[k]];
      }
    }
  }
}
