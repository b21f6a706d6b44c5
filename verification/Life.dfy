/** The program of exam_rank_5_training/level_2/life/life.c: a pen draws on a board,
    and the board then lives through a number of generations. */
module Life {
  type Cell = (int, int)
  type Cells = set<Cell>

  // ----- the pen -----

  /** Row, column, and whether the pen is down. */
  datatype Pen = Pen(y: int, x: int, down: bool)

  function Moved(p: Pen, c: char, h: int, w: int): Pen {
    if c == 'w' && p.y > 0 then p.(y := p.y - 1)
    else if c == 'a' && p.x > 0 then p.(x := p.x - 1)
    else if c == 's' && p.y < h - 1 then p.(y := p.y + 1)
    else if c == 'd' && p.x < w - 1 then p.(x := p.x + 1)
    else if c == 'x' then p.(down := !p.down)
    else p
  }

  /** The pen after the commands. On a board with cells it never leaves the board. */
  function After(commands: string, h: int, w: int): (p: Pen)
    ensures h > 0 && w > 0 ==> 0 <= p.y < h && 0 <= p.x < w
  {
    if commands == "" then Pen(0, 0, false)
    else Moved(After(commands[..|commands| - 1], h, w), commands[|commands| - 1], h, w)
  }

  function PenAt(commands: string, k: nat, h: int, w: int): Pen
    requires k <= |commands|
  {
    After(commands[..k], h, w)
  }

  function Spot(p: Pen): Cell { (p.y, p.x) }

  /** The cells on which the pen ever stood down behind a command. */
  function Drawn(commands: string, h: int, w: int): Cells {
    set k | 0 < k <= |commands| && PenAt(commands, k, h, w).down :: Spot(PenAt(commands, k, h, w))
  }

  lemma DrawnMore(commands: string, c: char, h: int, w: int)
    ensures var p := Moved(After(commands, h, w), c, h, w);
            && After(commands + [c], h, w) == p
            && Drawn(commands + [c], h, w) == Drawn(commands, h, w) + if p.down then {Spot(p)} else {}
  {
    var all := commands + [c];
    assert all[..|commands|] == commands && all[|commands|] == c;
    var p := After(all, h, w);
    assert p == Moved(After(commands, h, w), c, h, w);
    hide After, Moved;
    DrawnLast(all, h, w);
  }

  lemma DrawnLast(all: string, h: int, w: int)
    requires all != ""
    ensures var p := After(all, h, w);
            Drawn(all, h, w) == Drawn(all[..|all| - 1], h, w) + if p.down then {Spot(p)} else {}
  {
    var n := |all| - 1;
    assert PenAt(all, n + 1, h, w) == After(all, h, w) by { assert all[..n + 1] == all; }
    forall k: nat | k <= n ensures PenAt(all, k, h, w) == PenAt(all[..n], k, h, w) {
      assert all[..k] == all[..n][..k];
    }
    hide After, PenAt, Spot;
  }

  // ----- walking -----

  function Repeat(c: char, n: nat): string { seq(n, i => c) }

  function AtMost(a: int, b: int): int { if a <= b then a else b }
  function AtLeast(a: int, b: int): int { if a >= b then a else b }

  lemma OneMoreStep(commands: string, c: char, n: nat, h: int, w: int)
    requires n > 0
    ensures After(commands + Repeat(c, n), h, w) == Moved(After(commands + Repeat(c, n - 1), h, w), c, h, w)
  {
    var all := commands + Repeat(c, n);
    assert all[..|all| - 1] == commands + Repeat(c, n - 1) && all[|all| - 1] == c;
    hide Moved;
  }

  /** The same command n times: the pen walks n cells, up to the wall and no further; x
      lowers and lifts it; any other byte does nothing. */
  function Walked(p: Pen, c: char, n: nat, h: int, w: int): Pen {
    match c
    case 'w' => p.(y := AtLeast(p.y - n, 0))
    case 's' => p.(y := AtMost(p.y + n, h - 1))
    case 'a' => p.(x := AtLeast(p.x - n, 0))
    case 'd' => p.(x := AtMost(p.x + n, w - 1))
    case 'x' => p.(down := if n % 2 == 0 then p.down else !p.down)
    case _ => p
  }

  lemma WalkedOnce(p: Pen, c: char, n: nat, h: int, w: int)
    requires n > 0 && 0 <= p.y < h && 0 <= p.x < w
    ensures Moved(Walked(p, c, n - 1, h, w), c, h, w) == Walked(p, c, n, h, w) && Walked(p, c, 0, h, w) == p
  {
  }

  lemma {:induction false} Walks(commands: string, c: char, n: nat, h: int, w: int)
    requires h > 0 && w > 0
    ensures After(commands + Repeat(c, n), h, w) == Walked(After(commands, h, w), c, n, h, w)
    decreases n
  {
    WalkedOnce(After(commands, h, w), c, n + 1, h, w);
    hide After, Walked, Moved;
    if n == 0 {
      assert commands + Repeat(c, 0) == commands;
    } else {
      Walks(commands, c, n - 1, h, w);
      OneMoreStep(commands, c, n, h, w);
      WalkedOnce(After(commands, h, w), c, n, h, w);
    }
  }

  /** As long as the pen is up nothing is drawn. */
  lemma {:induction false} NothingDrawn(commands: string, h: int, w: int)
    requires h > 0 && w > 0 && 'x' !in commands
    ensures Drawn(commands, h, w) == {} && !After(commands, h, w).down
    decreases |commands|
  {
    if commands != "" {
      var n := |commands| - 1;
      assert commands == commands[..n] + [commands[n]];
      NothingDrawn(commands[..n], h, w);
      DrawnMore(commands[..n], commands[n], h, w);
      hide Drawn;
    }
  }

  lemma PenAtCell(y: nat, x: nat, h: int, w: int)
    requires y < h && x < w
    ensures After(Repeat('s', y) + Repeat('d', x), h, w) == Pen(y, x, false)
  {
    var down := Repeat('s', y);
    assert After("", h, w) == Pen(0, 0, false) && "" + down == down;
    hide After;
    Walks("", 's', y, h, w);
    Walks(down, 'd', x, h, w);
  }

  lemma NoPenCommand(y: nat, x: nat)
    ensures 'x' !in Repeat('s', y) + Repeat('d', x)
  {
  }

  /** Every cell of the board can be drawn, and drawn alone. */
  lemma DrawsCell(y: nat, x: nat, h: int, w: int)
    requires y < h && x < w
    ensures Drawn(Repeat('s', y) + Repeat('d', x) + "x", h, w) == {(y, x)}
  {
    hide After, Drawn, Repeat;
    var all := Repeat('s', y) + Repeat('d', x);
    PenAtCell(y, x, h, w);
    NoPenCommand(y, x);
    NothingDrawn(all, h, w);
    DrawnMore(all, 'x', h, w);
    assert ['x'] == "x";
  }

  // ----- generations -----

  predicate Adjacent(a: Cell, b: Cell) {
    a != b && -1 <= a.0 - b.0 <= 1 && -1 <= a.1 - b.1 <= 1
  }

  function Neighbours(cells: Cells, c: Cell): Cells { set d | d in cells && Adjacent(c, d) }

  predicate LivesOn(cells: Cells, c: Cell) {
    var n := |Neighbours(cells, c)|;
    n == 3 || (n == 2 && c in cells)
  }

  /** The live cells of the next generation; outside the board nothing lives. */
  function Next(cells: Cells, h: int, w: int): Cells {
    set i, j | 0 <= i < h && 0 <= j < w && LivesOn(cells, (i, j)) :: (i, j)
  }

  /** The rules, cell by cell: with fewer than two or more than three of the eight cells
      around it alive a cell is dead in the next generation, with three it is alive, with
      two it stays as it is; beyond the edge nothing lives. */
  lemma RulesOfLife(cells: Cells, i: int, j: int, h: int, w: int)
    ensures var around := {(i - 1, j - 1), (i - 1, j), (i - 1, j + 1), (i, j - 1), (i, j + 1), (i + 1, j - 1), (i + 1, j), (i + 1, j + 1)};
            var n := |cells * around|;
            && ((i, j) in Next(cells, h, w) ==> 0 <= i < h && 0 <= j < w && 2 <= n <= 3)
            && (0 <= i < h && 0 <= j < w && n == 3 ==> (i, j) in Next(cells, h, w))
            && (0 <= i < h && 0 <= j < w && n == 2 ==> ((i, j) in Next(cells, h, w) <==> (i, j) in cells))
  {
    var around := {(i - 1, j - 1), (i - 1, j), (i - 1, j + 1), (i, j - 1), (i, j + 1), (i + 1, j - 1), (i + 1, j), (i + 1, j + 1)};
    forall d: Cell ensures Adjacent((i, j), d) <==> d in around { }
    assert Neighbours(cells, (i, j)) == cells * around;
  }

  function Generations(cells: Cells, h: int, w: int, t: nat): Cells {
    if t == 0 then cells else Next(Generations(cells, h, w, t - 1), h, w)
  }

  predicate Near(a: Cell, b: Cell, t: nat) {
    a.0 - b.0 <= t && b.0 - a.0 <= t && a.1 - b.1 <= t && b.1 - a.1 <= t
  }

  /** Nothing travels faster than one cell a generation: what lives at a cell after t
      generations depends on the cells at most t away only. */
  lemma {:induction false} LightCone(a: Cells, b: Cells, h: int, w: int, t: nat, c: Cell)
    requires forall d: Cell :: Near(c, d, t) ==> (d in a <==> d in b)
    ensures c in Generations(a, h, w, t) <==> c in Generations(b, h, w, t)
  {
    if t == 0 {
      assert Near(c, c, 0);
    } else {
      var a1, b1 := Generations(a, h, w, t - 1), Generations(b, h, w, t - 1);
      forall d: Cell | Near(c, d, 1) ensures d in a1 <==> d in b1 {
        assert forall e: Cell :: Near(d, e, t - 1) ==> Near(c, e, t);
        LightCone(a, b, h, w, t - 1, d);
      }
      assert Near(c, c, 1) && forall d: Cell :: Adjacent(c, d) ==> Near(c, d, 1);
      assert Neighbours(a1, c) == Neighbours(b1, c);
    }
  }

  // ----- the board -----

  ghost predicate IsBoard(board: array2<int>)
    reads board
  {
    forall i, j :: 0 <= i < board.Length0 && 0 <= j < board.Length1 ==> board[i, j] == 0 || board[i, j] == 1
  }

  ghost function Alive(board: array2<int>): Cells
    reads board
  {
    set i, j | 0 <= i < board.Length0 && 0 <= j < board.Length1 && board[i, j] == 1 :: (i, j)
  }

  /** The neighbours at the first k of the nine offsets, row by row. */
  ghost function Seen(cells: Cells, c: Cell, k: int): Cells {
    set d | d in Neighbours(cells, c) && (d.0 - c.0 + 1) * 3 + (d.1 - c.1 + 1) < k
  }

  lemma SeenMore(cells: Cells, c: Cell, di: int, dj: int)
    requires -1 <= di <= 1 && -1 <= dj <= 1
    ensures var d, k := (c.0 + di, c.1 + dj), (di + 1) * 3 + (dj + 1);
            |Seen(cells, c, k + 1)| == |Seen(cells, c, k)| + if d != c && d in cells then 1 else 0
  {
    var d, k := (c.0 + di, c.1 + dj), (di + 1) * 3 + (dj + 1);
    if d != c && d in cells {
      assert Seen(cells, c, k + 1) == Seen(cells, c, k) + {d};
    } else {
      assert Seen(cells, c, k + 1) == Seen(cells, c, k);
    }
  }

  method CountNeighbours(board: array2<int>, i: int, j: int) returns (n: int)
    requires IsBoard(board)
    ensures n == |Neighbours(Alive(board), (i, j))|
  {
    ghost var cells := Alive(board);
    n := 0;
    for di := -1 to 2
      invariant n == |Seen(cells, (i, j), (di + 1) * 3)|
    {
      for dj := -1 to 2
        invariant n == |Seen(cells, (i, j), (di + 1) * 3 + (dj + 1))|
      {
        SeenMore(cells, (i, j), di, dj);
        if (di != 0 || dj != 0) && i + di >= 0 && i + di < board.Length0 && j + dj >= 0 && j + dj < board.Length1 {
          n := n + board[i + di, j + dj];
        }
      }
    }
    assert Seen(cells, (i, j), 9) == Neighbours(cells, (i, j));
  }

  /** Rows before i, and in row i the cells before j. */
  predicate Before(a: int, b: int, i: int, j: int) { a < i || (a == i && b < j) }

  method Step(board: array2<int>, next: array2<int>)
    requires IsBoard(board) && board != next
    requires next.Length0 == board.Length0 && next.Length1 == board.Length1
    modifies next
    ensures IsBoard(next) && Alive(next) == Next(Alive(board), board.Length0, board.Length1)
  {
    ghost var cells := Alive(board);
    for i := 0 to board.Length0
      invariant forall a, b :: 0 <= a < i && 0 <= b < board.Length1 ==>
                  next[a, b] == if LivesOn(cells, (a, b)) then 1 else 0
    {
      for j := 0 to board.Length1
        invariant forall a, b :: 0 <= a < board.Length0 && 0 <= b < board.Length1 && Before(a, b, i, j) ==>
                    next[a, b] == if LivesOn(cells, (a, b)) then 1 else 0
      {
        var n := CountNeighbours(board, i, j);
        assert board[i, j] == 1 <==> (i, j) in cells;
        next[i, j] := if (board[i, j] != 0 && (n == 2 || n == 3)) || (board[i, j] == 0 && n == 3) then 1 else 0;
      }
    }
  }

  method Copy(board: array2<int>, next: array2<int>)
    requires board != next && next.Length0 == board.Length0 && next.Length1 == board.Length1
    modifies board
    ensures forall a, b :: 0 <= a < board.Length0 && 0 <= b < board.Length1 ==> board[a, b] == next[a, b]
  {
    for i := 0 to board.Length0
      invariant forall a, b :: 0 <= a < i && 0 <= b < board.Length1 ==> board[a, b] == next[a, b]
    {
      for j := 0 to board.Length1
        invariant forall a, b :: 0 <= a < board.Length0 && 0 <= b < board.Length1 && Before(a, b, i, j) ==>
                    board[a, b] == next[a, b]
      {
        board[i, j] := next[i, j];
      }
    }
  }

  method Mark(board: array2<int>, y: int, x: int)
    requires IsBoard(board) && 0 <= y < board.Length0 && 0 <= x < board.Length1
    modifies board
    ensures IsBoard(board) && Alive(board) == old(Alive(board)) + {(y, x)}
  {
    board[y, x] := 1;
  }

  lemma SameCells(board: array2<int>, next: array2<int>)
    requires next.Length0 == board.Length0 && next.Length1 == board.Length1
    requires forall a, b :: 0 <= a < board.Length0 && 0 <= b < board.Length1 ==> board[a, b] == next[a, b]
    ensures Alive(board) == Alive(next) && (IsBoard(next) ==> IsBoard(board))
  {
  }

  method Draw(board: array2<int>, commands: string)
    requires board.Length0 > 0 && board.Length1 > 0 && IsBoard(board) && Alive(board) == {}
    modifies board
    ensures IsBoard(board) && Alive(board) == Drawn(commands, board.Length0, board.Length1)
  {
    var h, w := board.Length0, board.Length1;
    var x, y, pen := 0, 0, false;
    assert After("", h, w) == Pen(0, 0, false) && Drawn("", h, w) == {};
    hide After, Drawn, Alive, IsBoard;
    for k := 0 to |commands|
      invariant IsBoard(board)
      invariant After(commands[..k], h, w) == Pen(y, x, pen)
      invariant Alive(board) == Drawn(commands[..k], h, w)
    {
      var c := commands[k];
      DrawnMore(commands[..k], c, h, w);
      assert commands[..k] + [c] == commands[..k + 1];
      if c == 'w' && y > 0 { y := y - 1; }
      else if c == 'a' && x > 0 { x := x - 1; }
      else if c == 's' && y < h - 1 { y := y + 1; }
      else if c == 'd' && x < w - 1 { x := x + 1; }
      else if c == 'x' { pen := !pen; }
      if pen { Mark(board, y, x); }
    }
    assert commands[..|commands|] == commands;
  }

  /** The board behind the last generation: drawn by the commands, then lived through. */
  method Play(h: int, w: int, iter: int, commands: string) returns (board: array2<int>)
    requires h > 0 && w > 0
    ensures fresh(board) && board.Length0 == h && board.Length1 == w && IsBoard(board)
    ensures Alive(board) == Generations(Drawn(commands, h, w), h, w, if iter < 0 then 0 else iter)
  {
    board := new int[h, w]((i, j) => 0);
    var next := new int[h, w]((i, j) => 0);
    assert IsBoard(board) && Alive(board) == {};
    Draw(board, commands);
    hide Drawn, Alive, IsBoard, Next;
    var t := 0;
    while t < iter
      invariant 0 <= t && (iter >= 0 ==> t <= iter) && (iter < 0 ==> t == 0) && IsBoard(board)
      invariant Alive(board) == Generations(Drawn(commands, h, w), h, w, t)
    {
      Step(board, next);
      Copy(board, next);
      SameCells(board, next);
      t := t + 1;
    }
  }
}
