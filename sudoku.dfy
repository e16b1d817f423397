/**
 * The Sudoku board of `SudokuGame` (src/components/Sudoku.tsx): a fixed
 * starter puzzle, cell entry through `parseInt` with a 1..9 range check, a
 * reset to the starter puzzle, and the CSS class list of each cell.
 *
 * The grid is a 9x9 array. As in the source, the board starts out as the very
 * starter array, every accepted entry writes into a fresh copy, and a reset
 * points the board back at the starter array, which nothing ever writes.
 */
module Sudoku {
  import opened Common

  /** A cell: empty (`null`) or a number. */
  type Cell = Option<int>

  /** The starter row `ns`, where 0 stands for an empty cell. */
  function Row(ns: seq<int>): seq<Cell>
  {
    seq(|ns|, i requires 0 <= i < |ns| => if ns[i] == 0 then None else Some(ns[i]))
  }

  /** `starterGrid`. */
  const Starter: seq<seq<Cell>> := [
    Row([1, 0, 0, 8, 7, 0, 6, 0, 2]),
    Row([0, 8, 0, 5, 0, 2, 3, 4, 7]),
    Row([2, 3, 6, 0, 4, 9, 0, 5, 1]),
    Row([0, 0, 0, 8, 0, 0, 7, 0, 2]),
    Row([9, 0, 2, 0, 0, 0, 0, 6, 0]),
    Row([4, 6, 0, 9, 0, 5, 0, 0, 0]),
    Row([0, 9, 0, 0, 0, 0, 0, 1, 0]),
    Row([8, 0, 5, 6, 0, 0, 4, 1, 3]),
    Row([0, 0, 2, 5, 0, 8, 0, 0, 0])
  ]

  predicate IsGrid(g: seq<seq<Cell>>)
  {
    |g| == 9 && forall r :: 0 <= r < 9 ==> |g[r]| == 9
  }

  /** Every cell is empty or holds a number from 1 to 9. */
  predicate CellsInRange(g: seq<seq<Cell>>)
    requires IsGrid(g)
  {
    forall r, c :: 0 <= r < 9 && 0 <= c < 9 && g[r][c].Some? ==> 1 <= g[r][c].value <= 9
  }

  /** The starter puzzle is a 9x9 grid of empty cells and numbers 1 to 9. */
  lemma StarterIsGrid()
    ensures IsGrid(Starter) && CellsInRange(Starter)
  {
  }

  // ---------------------------------------------------------------------------
  // `parseInt(value)` with no radix, as ECMAScript defines it: leading white
  // space is skipped, then an optional sign, then an optional `0x`/`0X` that
  // switches to base 16, then the longest run of digits of the base. No digit
  // at all gives NaN, modelled as None.
  // ---------------------------------------------------------------------------

  /** `s` without its leading white space. */
  function TrimStart(s: string): (r: string)
    ensures |r| <= |s| && r == s[|s| - |r|..]
    ensures IsBlank(s[..|s| - |r|])
    ensures r == [] || !IsJsWhiteSpace(r[0])
  {
    if s != [] && IsJsWhiteSpace(s[0]) then
      var r := TrimStart(s[1..]);
      assert s[..|s| - |r|] == [s[0]] + s[1..][..|s| - 1 - |r|];
      r
    else s
  }

  /** The value of digit `c` in base `radix` (10 or 16), if it is one. */
  function DigitValue(c: char, radix: nat): (r: Option<nat>)
    ensures r.Some? ==> r.value < radix
  {
    if '0' <= c <= '9' && (c as int) - ('0' as int) < radix then Some((c as int) - ('0' as int))
    else if radix == 16 && 'a' <= c <= 'f' then Some((c as int) - ('a' as int) + 10)
    else if radix == 16 && 'A' <= c <= 'F' then Some((c as int) - ('A' as int) + 10)
    else None
  }

  /** The length of the longest prefix of `s` made of digits of base `radix`. */
  function DigitRun(s: string, radix: nat): (n: nat)
    ensures n <= |s|
    ensures forall i :: 0 <= i < n ==> DigitValue(s[i], radix).Some?
    ensures n < |s| ==> DigitValue(s[n], radix).None?
  {
    if s != [] && DigitValue(s[0], radix).Some? then 1 + DigitRun(s[1..], radix) else 0
  }

  /** The number the digits `ds` spell in base `radix`, most significant first. */
  function DigitsValue(ds: string, radix: nat): nat
    requires forall i :: 0 <= i < |ds| ==> DigitValue(ds[i], radix).Some?
  {
    if ds == [] then 0
    else DigitsValue(ds[..|ds| - 1], radix) * radix + DigitValue(ds[|ds| - 1], radix).value
  }

  /** `parseInt(s)`; None is NaN. */
  function ParseInt(s: string): Option<int>
  {
    ParseTrimmed(TrimStart(s))
  }

  /** `parseInt` once the leading white space is gone. */
  function ParseTrimmed(t: string): Option<int>
  {
    var negative := |t| > 0 && t[0] == '-';
    var u := if |t| > 0 && (t[0] == '-' || t[0] == '+') then t[1..] else t;
    var hex := |u| >= 2 && u[0] == '0' && (u[1] == 'x' || u[1] == 'X');
    var radix := if hex then 16 else 10;
    var w := if hex then u[2..] else u;
    var n := DigitRun(w, radix);
    if n == 0 then None
    else
      var v: int := DigitsValue(w[..n], radix);
      Some(if negative then -v else v)
  }

  /**
   * The number `handleChange` writes for `value`, or None when it returns
   * early because the input is NaN or outside 1..9.
   */
  function Accepted(value: string): (r: Option<int>)
    ensures r.Some? ==> 1 <= r.value <= 9
    ensures r.Some? <==> ParseInt(value).Some? && 1 <= ParseInt(value).value <= 9
    ensures r.Some? ==> r == ParseInt(value)
  {
    var val := ParseInt(value);
    if val.None? || val.value < 1 || val.value > 9 then None else val
  }

  /**
   * The input box holds at most one character. One character is accepted
   * exactly when it is a digit from 1 to 9, and it is then that digit.
   */
  lemma OneCharacterEntry(c: char)
    ensures Accepted([c]).Some? <==> '1' <= c <= '9'
    ensures '1' <= c <= '9' ==> Accepted([c]) == Some((c as int) - ('0' as int))
  {
    var s := [c];
    if IsJsWhiteSpace(c) {
      assert TrimStart(s[1..]) == [];
      assert TrimStart(s) == [];
    } else {
      assert TrimStart(s) == s;
      if '0' <= c <= '9' {
        assert DigitRun(s, 10) == 1;
        assert s[..1] == s;
        assert DigitsValue(s[..0], 10) == 0;
      }
    }
  }

  /** White space before an entry is skipped: " 7" is read as 7. */
  lemma LeadingWhiteSpaceIgnored(c: char, s: string)
    requires IsJsWhiteSpace(c)
    ensures ParseInt([c] + s) == ParseInt(s)
    ensures Accepted([c] + s) == Accepted(s)
  {
    assert ([c] + s)[1..] == s;
    assert TrimStart([c] + s) == TrimStart(s);
    assert ParseInt([c] + s) == ParseTrimmed(TrimStart(s));
  }

  // ---------------------------------------------------------------------------
  // `handleChange` and `resetGrid` on values
  // ---------------------------------------------------------------------------

  /** The grid after `handleChange(row, col, value)`. */
  function Change(g: seq<seq<Cell>>, row: nat, col: nat, value: string): (r: seq<seq<Cell>>)
    requires IsGrid(g) && row < 9 && col < 9
    ensures IsGrid(r)
  {
    match Accepted(value)
    case None => g
    case Some(v) => g[row := g[row][col := Some(v)]]
  }

  /**
   * A refused entry changes nothing; an accepted one sets exactly the cell
   * `[row][col]` to the number, whatever was there before (a clue of the
   * puzzle included), and every other cell keeps its value.
   */
  lemma ChangeSetsOneCell(g: seq<seq<Cell>>, row: nat, col: nat, value: string)
    requires IsGrid(g) && row < 9 && col < 9
    ensures Accepted(value).None? ==> Change(g, row, col, value) == g
    ensures Accepted(value).Some? ==> Change(g, row, col, value)[row][col] == Accepted(value)
    ensures forall r, c :: 0 <= r < 9 && 0 <= c < 9 && (r, c) != (row, col) ==>
      Change(g, row, col, value)[r][c] == g[r][c]
  {
  }

  /** No entry empties a cell or stores a number outside 1..9. */
  lemma ChangeKeepsCellsInRange(g: seq<seq<Cell>>, row: nat, col: nat, value: string)
    requires IsGrid(g) && CellsInRange(g) && row < 9 && col < 9
    ensures CellsInRange(Change(g, row, col, value))
    ensures forall r, c :: 0 <= r < 9 && 0 <= c < 9 && g[r][c].Some? ==> Change(g, row, col, value)[r][c].Some?
  {
    var h: seq<seq<Cell>> := Change(g, row, col, value);
    ChangeSetsOneCell(g, row, col, value);
    forall r: nat, c: nat | r < 9 && c < 9
      ensures h[r][c].Some? ==> 1 <= h[r][c].value <= 9
      ensures g[r][c].Some? ==> h[r][c].Some?
    {
      if (r, c) != (row, col) {
        assert h[r][c] == g[r][c];
      }
    }
  }

  /** No Sudoku rule is checked: the clue 1 in the corner can be replaced by a second 8 in its row. */
  lemma CluesCanBeOverwritten()
    ensures Starter[0][3] == Some(8)
    ensures Change(Starter, 0, 0, "8")[0][0] == Some(8)
  {
    StarterIsGrid();
    EightIsAccepted();
    ChangeSetsOneCell(Starter, 0, 0, "8");
    FirstRow();
  }

  lemma EightIsAccepted()
    ensures Accepted("8") == Some(8)
  {
    OneCharacterEntry('8');
    assert "8" == ['8'];
  }

  lemma FirstRow()
    ensures Starter[0][3] == Some(8)
  {
    var ns := [1, 0, 0, 8, 7, 0, 6, 0, 2];
    assert Starter[0] == Row(ns);
    assert Row(ns)[3] == Some(ns[3]);
  }

  /** Two grids with the same cells are the same grid. */
  lemma SameCells(g: seq<seq<Cell>>, h: seq<seq<Cell>>)
    requires IsGrid(g) && IsGrid(h)
    requires forall r, c :: 0 <= r < 9 && 0 <= c < 9 ==> g[r][c] == h[r][c]
    ensures g == h
  {
    forall r | 0 <= r < 9
      ensures g[r] == h[r]
    {
    }
  }

  /** A grid that differs from `g` only by the accepted entry at `[row][col]` is `Change(g, row, col, value)`. */
  lemma CopyIsChange(g: seq<seq<Cell>>, h: seq<seq<Cell>>, row: nat, col: nat, value: string)
    requires IsGrid(g) && IsGrid(h) && row < 9 && col < 9 && Accepted(value).Some?
    requires forall r, c :: 0 <= r < 9 && 0 <= c < 9 ==>
      h[r][c] == if r == row && c == col then Accepted(value) else g[r][c]
    ensures h == Change(g, row, col, value)
  {
    SameCells(h, Change(g, row, col, value));
  }

  // ---------------------------------------------------------------------------
  // The component's state
  // ---------------------------------------------------------------------------

  class Board {
    /** The `starterGrid` array, never written. */
    const starter: array2<Cell>
    /** The `grid` state. */
    var grid: array2<Cell>

    ghost predicate Valid()
      reads this, starter, grid
    {
      && starter.Length0 == 9 && starter.Length1 == 9
      && grid.Length0 == 9 && grid.Length1 == 9
      && Cells(starter) == Starter
    }

    /** The rows of `a`. */
    ghost function Cells(a: array2<Cell>): (g: seq<seq<Cell>>)
      requires a.Length0 == 9 && a.Length1 == 9
      reads a
      ensures IsGrid(g)
      ensures forall r, c :: 0 <= r < 9 && 0 <= c < 9 ==> g[r][c] == a[r, c]
    {
      seq(9, r requires 0 <= r < 9 reads a => seq(9, c requires 0 <= c < 9 reads a => a[r, c]))
    }

    /** The grid on screen. */
    ghost function Grid(): (g: seq<seq<Cell>>)
      requires Valid()
      reads this, starter, grid
      ensures IsGrid(g)
    {
      Cells(grid)
    }

    /** `useState(starterGrid)`: the board is the starter array itself. */
    constructor ()
      ensures Valid() && Grid() == Starter && grid == starter
    {
      StarterIsGrid();
      var s := new Cell[9, 9]((r, c) requires 0 <= r < 9 && 0 <= c < 9 => Starter[r][c]);
      starter := s;
      grid := s;
      new;
      forall r | 0 <= r < 9
        ensures Cells(starter)[r] == Starter[r]
      {
      }
    }

    /**
     * `handleChange(row, col, value)`: a refused entry returns early; an
     * accepted one copies the grid, writes the cell in the copy and makes the
     * copy the grid. The starter array is never written, so a later reset
     * brings the puzzle back.
     */
    method HandleChange(row: nat, col: nat, value: string)
      requires Valid() && row < 9 && col < 9
      modifies this
      ensures Valid() && Grid() == Change(old(Grid()), row, col, value)
      ensures Accepted(value).None? ==> grid == old(grid)
      ensures Accepted(value).Some? ==> fresh(grid)
    {
      var val := ParseInt(value);
      if val.None? || val.value < 1 || val.value > 9 {
        return;
      }
      assert Accepted(value) == val;
      ghost var before := Grid();
      var newGrid := CopyWith(grid, row, col, val);
      grid := newGrid;
      assert Cells(starter) == Starter;
      CopyIsChange(before, Grid(), row, col, value);
    }

    /** A copy of the 9x9 array `a` row by row, with cell `[row][col]` then set to `val`. */
    static method CopyWith(a: array2<Cell>, row: nat, col: nat, val: Cell) returns (b: array2<Cell>)
      requires a.Length0 == 9 && a.Length1 == 9 && row < 9 && col < 9
      ensures fresh(b) && b.Length0 == 9 && b.Length1 == 9
      ensures forall r, c :: 0 <= r < 9 && 0 <= c < 9 ==>
        b[r, c] == if r == row && c == col then val else a[r, c]
    {
      b := new Cell[9, 9]((r, c) requires 0 <= r < 9 && 0 <= c < 9 reads a => a[r, c]);
      b[row, col] := val;
    }

    /** `resetGrid`: the board is the starter array again, holding the starter puzzle. */
    method ResetGrid()
      requires Valid()
      modifies this
      ensures Valid() && grid == starter && Grid() == Starter
    {
      grid := starter;
    }
  }

  // ---------------------------------------------------------------------------
  // `getCellClass`
  // ---------------------------------------------------------------------------

  /** The three literals the source appends first: size and text, surface, thin border. */
  const Sizing: string := "w-12 h-12 text-center text-lg font-medium focus:outline-none "
  const Surface: string := "bg-white shadow-sm rounded-md "
  const ThinBorder: string := "border border-gray-300 "

  /** The classes every cell has. */
  const BaseClasses: string := Sizing + Surface + ThinBorder

  /** The border classes of cell `[row][col]` that follow the base ones. */
  function BorderTokens(row: int, col: int): seq<string>
  {
    (if col % 3 == 0 then ["border-l-2"] else [])
    + (if row % 3 == 0 then ["border-t-2"] else [])
    + (if col == 8 then ["border-r-2"] else [])
    + (if row == 8 then ["border-b-2"] else [])
  }

  /** A class string: each token followed by one space. */
  function Join(ts: seq<string>): string
  {
    if ts == [] then [] else ts[0] + " " + Join(ts[1..])
  }

  /** `s` read as a class list: the maximal runs of non-space characters, in order. */
  function Split(s: string): seq<string>
  {
    Words(s, [])
  }

  /** The words of `s`, where `cur` is the part of the first word already read. */
  function Words(s: string, cur: string): seq<string>
    decreases |s|
  {
    if s == [] then (if cur == [] then [] else [cur])
    else if s[0] == ' ' then (if cur == [] then Words(s[1..], []) else [cur] + Words(s[1..], []))
    else Words(s[1..], cur + [s[0]])
  }

  predicate IsToken(t: string)
  {
    t != [] && ' ' !in t
  }

  lemma JoinSnoc(ts: seq<string>, t: string)
    ensures Join(ts + [t]) == Join(ts) + (t + " ")
  {
    if ts == [] {
      assert ts + [t] == [t];
      assert [t][1..] == [];
    } else {
      assert (ts + [t])[1..] == ts[1..] + [t];
      JoinSnoc(ts[1..], t);
    }
  }

  /** One `classes += token + " "` step keeps the string equal to the base classes and the tokens so far. */
  lemma Append(classes: string, ts: seq<string>, t: string)
    requires classes == BaseClasses + Join(ts)
    ensures classes + t + " " == BaseClasses + Join(ts + [t])
  {
    JoinSnoc(ts, t);
  }

  /** Reading a token and the space after it yields that token as a word. */
  lemma {:induction false} WordsToken(cur: string, t: string, rest: string)
    requires ' ' !in cur && ' ' !in t && cur + t != []
    ensures Words(t + " " + rest, cur) == [cur + t] + Words(rest, [])
    decreases |t|
  {
    if t == [] {
      assert t + " " + rest == [' '] + rest;
      assert cur + t == cur;
    } else {
      assert (t + " " + rest)[1..] == t[1..] + " " + rest;
      assert (t + " " + rest)[0] == t[0];
      assert t[0] != ' ';
      assert cur + [t[0]] + t[1..] == cur + t;
      WordsToken(cur + [t[0]], t[1..], rest);
    }
  }

  /** A class string built from tokens reads back as exactly those tokens. */
  lemma {:induction false} SplitJoin(ts: seq<string>)
    requires forall i :: 0 <= i < |ts| ==> IsToken(ts[i])
    ensures Split(Join(ts)) == ts
    decreases |ts|
  {
    if ts != [] {
      assert [] + ts[0] == ts[0];
      WordsToken([], ts[0], Join(ts[1..]));
      SplitJoin(ts[1..]);
    }
  }

  /** A string that ends in a space ends its last word, so the words of what follows are separate. */
  lemma {:induction false} WordsAppend(s: string, rest: string, cur: string)
    requires s != [] && s[|s| - 1] == ' '
    ensures Words(s + rest, cur) == Words(s, cur) + Words(rest, [])
    decreases |s|
  {
    assert (s + rest)[0] == s[0];
    if |s| == 1 {
      assert (s + rest)[1..] == rest;
      assert s[1..] == [];
    } else {
      assert (s + rest)[1..] == s[1..] + rest;
      if s[0] == ' ' {
        WordsAppend(s[1..], rest, []);
      } else {
        WordsAppend(s[1..], rest, cur + [s[0]]);
      }
    }
  }

  /**
   * `getCellClass(row, col)`: the base classes, then `border-l-2` on the
   * first column of a box, `border-t-2` on its first row, `border-r-2` on the
   * last column and `border-b-2` on the last row, each appended in turn. Read
   * as a class list, the result is the base classes followed by exactly those
   * border classes.
   */
  method GetCellClass(row: int, col: int) returns (classes: string)
    ensures classes == BaseClasses + Join(BorderTokens(row, col))
    ensures Split(classes) == Split(BaseClasses) + BorderTokens(row, col)
  {
    classes := Sizing;
    classes := classes + Surface;
    classes := classes + ThinBorder;
    ghost var ts: seq<string> := [];
    assert classes == BaseClasses;
    if col % 3 == 0 {
      Append(classes, ts, "border-l-2");
      classes := classes + "border-l-2" + " ";
      ts := ts + ["border-l-2"];
    }
    if row % 3 == 0 {
      Append(classes, ts, "border-t-2");
      classes := classes + "border-t-2" + " ";
      ts := ts + ["border-t-2"];
    }
    if col == 8 {
      Append(classes, ts, "border-r-2");
      classes := classes + "border-r-2" + " ";
      ts := ts + ["border-r-2"];
    }
    if row == 8 {
      Append(classes, ts, "border-b-2");
      classes := classes + "border-b-2" + " ";
      ts := ts + ["border-b-2"];
    }
    assert ts == BorderTokens(row, col);
    BorderTokensAreTokens(row, col);
    ReadBack(ts);
  }

  /** Each border class is one word. */
  lemma BorderTokensAreTokens(row: int, col: int)
    ensures forall i :: 0 <= i < |BorderTokens(row, col)| ==> IsToken(BorderTokens(row, col)[i])
  {
    var ts := BorderTokens(row, col);
    assert IsToken("border-l-2") && IsToken("border-t-2") && IsToken("border-r-2") && IsToken("border-b-2");
    assert forall i :: 0 <= i < |ts| ==> ts[i] in ["border-l-2", "border-t-2", "border-r-2", "border-b-2"];
  }

  /** The base classes followed by a class string of tokens read back as the base words and those tokens. */
  lemma ReadBack(ts: seq<string>)
    requires forall i :: 0 <= i < |ts| ==> IsToken(ts[i])
    ensures Split(BaseClasses + Join(ts)) == Split(BaseClasses) + ts
  {
    SplitJoin(ts);
    WordsAppend(BaseClasses, Join(ts), []);
  }

  /**
   * After the base classes, cell `[row][col]` has a thick left border exactly
   * on the first column of a box, a thick top border exactly on the first row
   * of a box, a right border exactly on column 8 and a bottom border exactly
   * on row 8, each at most once.
   */
  lemma CellBorders(row: int, col: int)
    ensures "border-l-2" in BorderTokens(row, col) <==> col % 3 == 0
    ensures "border-t-2" in BorderTokens(row, col) <==> row % 3 == 0
    ensures "border-r-2" in BorderTokens(row, col) <==> col == 8
    ensures "border-b-2" in BorderTokens(row, col) <==> row == 8
    ensures forall i, j :: 0 <= i < j < |BorderTokens(row, col)| ==> BorderTokens(row, col)[i] != BorderTokens(row, col)[j]
  {
  }
}
