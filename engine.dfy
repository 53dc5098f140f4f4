/** The simulation engine of `core/engine.py`, as far as it goes: a grid of
    cell codes rebuilt by `clear`, a one-segment snake placed by `start`,
    read-only queries, a bounds-and-occupancy check, and the step and turn
    commands, which do not yet change anything observable.
    The engine numbers its cell types itself (0..3); these are unrelated to
    the ten codes of module Config. */
module CoreEngine {
  import opened PyRuntime

  // Cell codes as the engine numbers them.
  const FIELD_TYPE_NONE := 0
  const FIELD_TYPE_EATS := 1
  const FIELD_TYPE_HEAD := 2
  const FIELD_TYPE_BODY := 3

  /** Steps between two food placements. */
  const EATS_RAISE_INTERVAL := 10

  /** A grid coordinate: row counted from the top, column from the left. */
  datatype Point = Point(row: int, col: int)

  /** A coordinate offset, the direction one snake segment travels in. */
  datatype Shift = Shift(dRow: int, dCol: int)

  /** The value of every field of an engine, the grid as a list of rows. */
  datatype EngineState = EngineState(
    width: nat,
    height: nat,
    locked: bool,
    eaten: int,
    toRise: int,
    field: seq<seq<int>>,
    headRow: int,
    headCol: int,
    directPoints: map<Point, Shift>,
    snake: seq<Shift>)

  /** The grid has `height` rows of `width` cells each. */
  ghost predicate FullSize(s: EngineState)
  {
    |s.field| == s.height && forall i | 0 <= i < |s.field| :: |s.field[i]| == s.width
  }

  /** Every cell is empty, except the head's cell while the snake exists. */
  ghost predicate FieldMatchesBody(s: EngineState)
  {
    forall i, j | 0 <= i < |s.field| && 0 <= j < |s.field[i]| ::
      s.field[i][j] == if s.snake != [] && i == s.headRow && j == s.headCol then FIELD_TYPE_HEAD else FIELD_TYPE_NONE
  }

  /** What every operation keeps: no step is in progress, nothing has been
      eaten, the snake has at most its head, the grid is either not built yet
      or full-size, and it shows exactly the snake's head. */
  ghost predicate Inv(s: EngineState)
  {
    && !s.locked
    && s.eaten == 0
    && |s.snake| <= 1
    && (s.field == [] || FullSize(s))
    && FieldMatchesBody(s)
  }

  /** A grid of `height` rows of `width` empty cells. */
  function Blank(height: nat, width: nat): (g: seq<seq<int>>)
  {
    seq(height, _ => seq(width, _ => FIELD_TYPE_NONE))
  }

  /** The effect of `clear`: a fresh empty grid of the construction size, no
      snake, no turn points, nothing eaten, no step in progress. The food
      countdown and the head coordinates are left as they were. */
  ghost function ClearSpec(s: EngineState): (r: EngineState)
    ensures FullSize(r) && Inv(r)
    ensures forall i, j | 0 <= i < r.height && 0 <= j < r.width :: r.field[i][j] == FIELD_TYPE_NONE
    ensures r.snake == [] && r.directPoints == map[] && r.eaten == 0 && !r.locked
    ensures r.width == s.width && r.height == s.height
    ensures r.toRise == s.toRise && r.headRow == s.headRow && r.headCol == s.headCol
  {
    s.(locked := false, eaten := 0, snake := [], directPoints := map[], field := Blank(s.height, s.width))
  }

  /** The effect of `start`, with the exception it may raise. With a snake
      already present nothing happens. Otherwise the countdown is armed, a
      one-segment snake is created with its head at row 0, column width // 2,
      and that cell is set to HEAD; if the grid has no such cell, IndexError
      is raised after the other fields were already updated. */
  ghost function StartSpec(s: EngineState): (r: (EngineState, Result<()>))
    ensures s.snake != [] ==> r == (s, Ok(()))
    ensures s.snake == [] ==>
      |r.0.snake| == 1 && r.0.toRise == EATS_RAISE_INTERVAL && r.0.headRow == 0 && r.0.headCol == s.width / 2
    ensures s.snake == [] ==> (r.1.Ok? <==> |s.field| > 0 && s.width / 2 < |s.field[0]|)
    ensures r.1.Err? ==> r.0.field == s.field
    ensures |r.0.field| == |s.field|
    ensures forall i | 0 <= i < |s.field| :: |r.0.field[i]| == |s.field[i]|
    ensures forall i, j | 0 <= i < |s.field| && 0 <= j < |s.field[i]| ::
      r.0.field[i][j] == if s.snake == [] && r.1.Ok? && i == 0 && j == s.width / 2 then FIELD_TYPE_HEAD else s.field[i][j]
    ensures r.0.width == s.width && r.0.height == s.height && r.0.locked == s.locked
    ensures r.0.eaten == s.eaten && r.0.directPoints == s.directPoints
  {
    if s.snake != [] then
      (s, Ok(()))
    else
      var armed := s.(toRise := EATS_RAISE_INTERVAL, snake := [Shift(1, 0)], headRow := 0, headCol := s.width / 2);
      if |s.field| > 0 && s.width / 2 < |s.field[0]| then
        (armed.(field := s.field[0 := s.field[0][s.width / 2 := FIELD_TYPE_HEAD]]), Ok(()))
      else
        (armed, Err(IndexError))
  }

  /** Starting twice is starting once: the second call finds the snake and
      does nothing, whatever the first one raised. */
  lemma StartIdempotent(s: EngineState)
    ensures StartSpec(StartSpec(s).0) == (StartSpec(s).0, Ok(()))
  {
  }

  /** `start` keeps the engine invariant. */
  lemma StartPreservesInv(s: EngineState)
    requires Inv(s)
    ensures Inv(StartSpec(s).0)
  {
    var t := StartSpec(s).0;
    if s.snake == [] {
      forall i, j | 0 <= i < |t.field| && 0 <= j < |t.field[i]|
        ensures t.field[i][j] == if t.snake != [] && i == t.headRow && j == t.headCol then FIELD_TYPE_HEAD else FIELD_TYPE_NONE
      {
        assert s.field[i][j] == FIELD_TYPE_NONE;
      }
    }
  }

  /** On a valid engine without a snake, `start` raises exactly when the grid
      has not been built, or is built with no rows or no columns. */
  lemma StartRaisesOnlyWithoutGrid(s: EngineState)
    requires Inv(s) && s.snake == []
    ensures StartSpec(s).1.Err? <==> s.field == [] || s.height == 0 || s.width == 0
  {
  }

  /** The game's lifecycle, `clear` then `start`, on a grid with at least one
      cell: it succeeds, the snake has length one, the countdown is armed, and
      the grid holds HEAD at (0, width // 2) and NONE everywhere else. */
  lemma ClearThenStart(s: EngineState)
    requires s.height > 0 && s.width > 0
    ensures StartSpec(ClearSpec(s)).1 == Ok(())
    ensures var t := StartSpec(ClearSpec(s)).0;
      && FullSize(t) && Inv(t) && |t.snake| == 1 && t.toRise == EATS_RAISE_INTERVAL && t.eaten == 0
      && forall i, j | 0 <= i < s.height && 0 <= j < s.width ::
           t.field[i][j] == if i == 0 && j == s.width / 2 then FIELD_TYPE_HEAD else FIELD_TYPE_NONE
  {
    StartPreservesInv(ClearSpec(s));
  }

  /** The grid of an array, as a list of rows. */
  ghost function Rows(a: array2<int>): (g: seq<seq<int>>)
    reads a
    ensures |g| == a.Length0
    ensures forall i | 0 <= i < a.Length0 :: |g[i]| == a.Length1
    ensures forall i, j | 0 <= i < a.Length0 && 0 <= j < a.Length1 :: g[i][j] == a[i, j]
  {
    seq(a.Length0, i requires 0 <= i < a.Length0 reads a =>
      seq(a.Length1, j requires 0 <= j < a.Length1 reads a => a[i, j]))
  }

  /** The engine object. Before the first `clear` the grid is an empty list,
      modelled as a 0 x 0 array. */
  class Engine {
    const width: nat
    const height: nat
    var locked: bool
    var eaten: int
    var toRise: int
    var terrarium: array2<int>
    var headRow: int
    var headCol: int
    var directPoints: map<Point, Shift>
    var snake: seq<Shift>

    ghost function Snapshot(): EngineState
      reads this, terrarium
    {
      EngineState(width, height, locked, eaten, toRise, Rows(terrarium), headRow, headCol, directPoints, snake)
    }

    /** The grid has been built by `clear`. */
    predicate Cleared()
      reads this
    {
      terrarium.Length0 == height && terrarium.Length1 == width
    }

    ghost predicate Valid()
      reads this, terrarium
    {
      && Inv(Snapshot())
      && (Cleared() || (terrarium.Length0 == 0 && terrarium.Length1 == 0))
    }

    constructor (boxWidth: nat, boxHeight: nat)
      ensures Valid() && fresh(terrarium)
      ensures Snapshot() == EngineState(boxWidth, boxHeight, false, 0, 0, [], 0, 0, map[], [])
    {
      width := boxWidth;
      height := boxHeight;
      locked := false;
      eaten := 0;
      toRise := 0;
      terrarium := new int[0, 0];
      headRow := 0;
      headCol := 0;
      directPoints := map[];
      snake := [];
    }

    /** Places the head if there is no snake yet. */
    method Start() returns (res: Result<()>)
      requires Valid()
      modifies this, terrarium
      ensures Valid() && terrarium == old(terrarium)
      ensures (Snapshot(), res) == StartSpec(old(Snapshot()))
    {
      ghost var before := Snapshot();
      StartPreservesInv(before);
      if snake == [] {
        toRise := EATS_RAISE_INTERVAL;
        snake := [Shift(1, 0)];
        headRow := 0;
        headCol := width / 2;
        if headRow < terrarium.Length0 && headCol < terrarium.Length1 {
          terrarium[headRow, headCol] := FIELD_TYPE_HEAD;
          res := Ok(());
        } else {
          res := Err(IndexError);
        }
        ghost var after, spec := Rows(terrarium), StartSpec(before).0.field;
        forall i | 0 <= i < |after|
          ensures after[i] == spec[i]
        {
          assert forall j | 0 <= j < |after[i]| :: after[i][j] == spec[i][j];
        }
        assert Snapshot() == StartSpec(before).0;
      } else {
        res := Ok(());
      }
    }

    /** Rebuilds the grid and forgets the snake, turn points and score. */
    method Clear()
      modifies this
      ensures fresh(terrarium) && Cleared() && Valid()
      ensures Snapshot() == ClearSpec(old(Snapshot()))
    {
      locked := false;
      eaten := 0;
      snake := [];
      directPoints := map[];
      terrarium := new int[height, width]((row, col) => FIELD_TYPE_NONE);
      ghost var built, blank := Rows(terrarium), Blank(height, width);
      forall i | 0 <= i < height
        ensures built[i] == blank[i]
      {
        assert forall j | 0 <= j < width :: built[i][j] == blank[i][j];
      }
    }

    /** The code stored at row `top`, column `left`, with Python's list
        indexing: a negative index counts from the end, anything outside
        raises IndexError. */
    function Cell(top: int, left: int): (r: Result<int>)
      reads this, terrarium
      ensures r.Ok? <==> -(terrarium.Length0 as int) <= top < terrarium.Length0 && -(terrarium.Length1 as int) <= left < terrarium.Length1
      ensures 0 <= top < terrarium.Length0 && 0 <= left < terrarium.Length1 ==> r == Ok(terrarium[top, left])
      ensures r.Ok? ==> r.value == terrarium[top % terrarium.Length0, left % terrarium.Length1]
    {
      match (Index(top, terrarium.Length0), Index(left, terrarium.Length1))
      case (Some(i), Some(j)) => Ok(terrarium[i, j])
      case _ => Err(IndexError)
    }

    /** How many things the snake has eaten; nothing increments it yet. */
    function Eaten(): (n: int)
      requires Valid()
      reads this, terrarium
      ensures n == 0
    {
      eaten
    }

    /** The number of snake segments. */
    function Length(): (n: nat)
      requires Valid()
      reads this, terrarium
      ensures n <= 1
      ensures n == 0 <==> snake == []
    {
      |snake|
    }

    /** The coordinate lies on the grid. */
    predicate InBounds(c: Point)
      reads this
    {
      0 <= c.row < height && 0 <= c.col < width
    }

    /** The coordinate lies on the grid and its cell holds NONE or EATS. */
    predicate Free(c: Point)
      reads this, terrarium
    {
      InBounds(c) && c.row < terrarium.Length0 && c.col < terrarium.Length1 && terrarium[c.row, c.col] <= FIELD_TYPE_EATS
    }

    /** On a built grid the free cells are those on the grid except the head's. */
    lemma FreeIsAllButHead(c: Point)
      requires Valid() && Cleared()
      ensures Free(c) <==> InBounds(c) && !(snake != [] && c == Point(headRow, headCol))
    {
      if InBounds(c) {
        assert Rows(terrarium)[c.row][c.col] == terrarium[c.row, c.col];
      }
    }

    /** Checks that every coordinate is on the grid with its cell empty or
        holding food, scanning in order and stopping at the first that is
        not. On a grid not yet built the first on-grid coordinate raises. */
    method CheckPos(pos: seq<Point>) returns (r: Result<bool>)
      requires Valid()
      ensures Cleared() ==> r == Ok(forall k | 0 <= k < |pos| :: Free(pos[k]))
      ensures !Cleared() ==> r == if pos == [] then Ok(true) else if InBounds(pos[0]) then Err(IndexError) else Ok(false)
    {
      for k := 0 to |pos|
        invariant forall m | 0 <= m < k :: Free(pos[m])
        invariant k > 0 ==> Cleared()
      {
        var coord := pos[k];
        if coord.row < 0 || coord.row >= height || coord.col < 0 || coord.col >= width {
          return Ok(false);
        }
        if coord.row >= terrarium.Length0 || coord.col >= terrarium.Length1 {
          return Err(IndexError);
        }
        if terrarium[coord.row, coord.col] > 1 {
          return Ok(false);
        }
      }
      return Ok(true);
    }

    /** One game step; so far only the lock is taken and released. */
    method Move()
      requires Valid()
      modifies this`locked
      ensures Valid() && !locked
      ensures Snapshot() == old(Snapshot())
    {
      TryMove();
    }

    method TurnRight()
      ensures Snapshot() == old(Snapshot())
    {
      ChangeDirection(0, 1);
    }

    method TurnLeft()
      ensures Snapshot() == old(Snapshot())
    {
      ChangeDirection(0, -1);
    }

    method TurnUp()
      ensures Snapshot() == old(Snapshot())
    {
      ChangeDirection(-1, 0);
    }

    method TurnDown()
      ensures Snapshot() == old(Snapshot())
    {
      ChangeDirection(1, 0);
    }

    /** Meant to record a turn at the head; does nothing yet. */
    method ChangeDirection(top: int, left: int)
      ensures Snapshot() == old(Snapshot())
    {
    }

    /** Takes the step lock and releases it on the way out. */
    method TryMove()
      requires Valid()
      modifies this`locked
      ensures Valid() && !locked
      ensures Snapshot() == old(Snapshot())
    {
      locked := true;
      locked := false;
    }
  }
}
