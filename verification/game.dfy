/**
 The game-over state machine. A head moves one cell per tick in the tick's
 direction; the first move that leaves the grid raises an end event, the
 game-over system turns pending end events into one `GameOver` marker, and
 from then on ticks change nothing.
 */
module Game {
  import opened Components
  import opened Grid

  datatype Direction = Up | Down | Left | Right

  /** The end event; also the marker component spawned on game over. */
  datatype GameEndEvent = GameOver

  /**
   One step of the world: the head cell, whether the game is over, and how
   many `GameOver` markers exist.
   */
  datatype State = State(head: Position, over: bool, markers: nat)

  /**
   `game_over_system`: spawn one marker when at least one end event is
   pending, however many there are, and nothing otherwise.
   */
  function GameOverSystem(events: seq<GameEndEvent>, markers: nat): (m: nat)
    ensures markers <= m <= markers + 1
    ensures m == markers + 1 <==> |events| > 0
  {
    if |events| > 0 then markers + 1 else markers
  }

  /** One pending event or many: the marker count comes out the same. */
  lemma GameOverSystemIgnoresCount(e1: seq<GameEndEvent>, e2: seq<GameEndEvent>, markers: nat)
    requires |e1| > 0 && |e2| > 0
    ensures GameOverSystem(e1, markers) == GameOverSystem(e2, markers) == markers + 1
  {
  }

  /** The head's starting cell. */
  const Start := Position(3, 3)

  const Init := State(Start, false, 0)

  /** A head still in play lies on the grid, so one more step cannot overflow `i16`. */
  predicate Movable(s: State) {
    !s.over ==> InGrid(s.head)
  }

  /** The cell reached from (x, y) after `k` unit steps in direction `d`. */
  function Shift(x: int, y: int, d: Direction, k: nat): (c: (int, int)) {
    match d
    case Up => (x, y + k)
    case Down => (x, y - k)
    case Left => (x - k, y)
    case Right => (x + k, y)
  }

  /** The neighbouring cell of an on-grid cell. */
  function Advance(p: Position, d: Direction): (q: Position)
    requires InGrid(p)
    ensures (q.x as int, q.y as int) == Shift(p.x as int, p.y as int, d, 1)
  {
    match d
    case Up => p.(y := p.y + 1)
    case Down => p.(y := p.y - 1)
    case Left => p.(x := p.x - 1)
    case Right => p.(x := p.x + 1)
  }

  /**
   One tick: movement, then the game-over system. Once the game is over the
   state is frozen. On the tick that leaves the grid the head is stored at the
   off-grid cell it moved to, and exactly one marker is added.
   */
  function Tick(s: State, d: Direction): (r: State)
    requires Movable(s)
    ensures Movable(r)
    ensures s.over ==> r == s
    ensures !s.over ==> r.head == Advance(s.head, d)
    ensures !s.over ==> (r.over <==> !InGrid(r.head))
    ensures r.markers == s.markers + (if r.over && !s.over then 1 else 0)
  {
    if s.over then s
    else
      var p := Advance(s.head, d);
      var events := if InGrid(p) then [] else [GameOver];
      State(p, |events| > 0, GameOverSystem(events, s.markers))
  }

  /** Ticks in the given directions, in order. */
  function Run(s: State, ds: seq<Direction>): (r: State)
    requires Movable(s)
    ensures Movable(r)
    ensures s.markers <= r.markers
    ensures s.over ==> r == s
    decreases |ds|
  {
    if |ds| == 0 then s else Run(Tick(s, ds[0]), ds[1..])
  }

  /** `k` ticks in the same direction. */
  function Repeat(d: Direction, k: nat): (ds: seq<Direction>)
    ensures |ds| == k
    ensures forall i :: 0 <= i < k ==> ds[i] == d
  {
    if k == 0 then [] else [d] + Repeat(d, k - 1)
  }

  /** Running one more tick is one tick after the run. */
  lemma {:induction false} RunSnoc(s: State, ds: seq<Direction>, d: Direction)
    requires Movable(s)
    ensures Run(s, ds + [d]) == Tick(Run(s, ds), d)
    decreases |ds|
  {
    if |ds| == 0 {
      assert ([] + [d])[1..] == [];
    } else {
      assert (ds + [d])[1..] == ds[1..] + [d];
      RunSnoc(Tick(s, ds[0]), ds[1..], d);
    }
  }

  /** The state reachable from the start keeps exactly one marker once over, none before. */
  predicate Consistent(s: State) {
    Movable(s) && s.markers == (if s.over then 1 else 0)
  }

  /** No sequence of ticks ever produces a second marker. */
  lemma {:induction false} RunKeepsConsistent(s: State, ds: seq<Direction>)
    requires Consistent(s)
    ensures Consistent(Run(s, ds))
    decreases |ds|
  {
    if |ds| > 0 {
      RunKeepsConsistent(Tick(s, ds[0]), ds[1..]);
    }
  }

  /**
   Holding one direction from an on-grid head for `k` ticks: the game is over
   exactly when the cell `k` steps away is off the grid; otherwise the head is
   on that cell; and one marker was added exactly when the game ended.
   */
  lemma {:induction false} March(s: State, d: Direction, k: nat)
    requires !s.over && InGrid(s.head)
    ensures var r := Run(s, Repeat(d, k));
            var c := Shift(s.head.x as int, s.head.y as int, d, k);
            && (r.over <==> !InBounds(c.0, c.1))
            && (!r.over ==> (r.head.x as int, r.head.y as int) == c)
            && r.markers == s.markers + (if r.over then 1 else 0)
    decreases k
  {
    if k > 0 {
      var t := Tick(s, d);
      assert Repeat(d, k)[0] == d && Repeat(d, k)[1..] == Repeat(d, k - 1);
      assert Run(s, Repeat(d, k)) == Run(t, Repeat(d, k - 1));
      if t.over {
        assert Run(t, Repeat(d, k - 1)) == t;
      } else {
        March(t, d, k - 1);
      }
    }
  }

  /** A game that is over stays exactly as it is on any further tick. */
  lemma FrozenAfterGameOver(s: State, ds: seq<Direction>, d: Direction)
    requires Movable(s) && Run(s, ds).over
    ensures Run(s, ds + [d]) == Run(s, ds)
  {
    RunSnoc(s, ds, d);
  }

  lemma RepeatSnoc(d: Direction, k: nat)
    ensures Repeat(d, k + 1) == Repeat(d, k) + [d]
  {
  }

  /**
   Holding Up from (3,3): six ticks reach (3,9) with no marker; the seventh
   leaves the grid with exactly one marker; an eighth changes nothing.
   */
  lemma UpTrace()
    ensures Run(Init, Repeat(Up, 6)) == State(Position(3, 9), false, 0)
    ensures Run(Init, Repeat(Up, 7)) == State(Position(3, 10), true, 1)
    ensures Run(Init, Repeat(Up, 8)) == Run(Init, Repeat(Up, 7))
  {
    March(Init, Up, 6);
    RepeatSnoc(Up, 6);
    RunSnoc(Init, Repeat(Up, 6), Up);
    RepeatSnoc(Up, 7);
    FrozenAfterGameOver(Init, Repeat(Up, 7), Up);
  }

  /** Holding Left from (3,3): x = 0 is still in play; the tick to x = -1 ends the game. */
  lemma LeftTrace()
    ensures Run(Init, Repeat(Left, 3)) == State(Position(0, 3), false, 0)
    ensures Run(Init, Repeat(Left, 4)) == State(Position(-1, 3), true, 1)
  {
    March(Init, Left, 3);
    RepeatSnoc(Left, 3);
    RunSnoc(Init, Repeat(Left, 3), Left);
  }

  /** Holding Right from (3,3): the tick reaching x = 10 leaves exactly one marker. */
  lemma RightTrace()
    ensures !Run(Init, Repeat(Right, 6)).over
    ensures Run(Init, Repeat(Right, 7)) == State(Position(10, 3), true, 1)
  {
    March(Init, Right, 6);
    RepeatSnoc(Right, 6);
    RunSnoc(Init, Repeat(Right, 6), Right);
  }
}
