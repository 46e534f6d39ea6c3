/**
 Keyboard-driven movement of the snake head. Every entity tagged `SnakeHead`
 has its translation moved one unit per held key on each call: D and A move
 along x, W and S along y. Translations are kept in whole units (the source
 stores them as `f32`, which is exact for these magnitudes).
 */
module Snake {
  import opened Entities

  /** The keys the movement system inspects. */
  datatype Key = W | A | S | D

  datatype Vec3 = Vec3(x: int, y: int, z: int)

  /** An entity of the world: its translation, and whether it carries `SnakeHead`. */
  datatype Entity = Entity(snakeHead: bool, translation: Vec3)

  predicate IsHead(e: Entity) {
    e.snakeHead
  }

  /** The default transform's translation, where a spawned head starts. */
  const Origin := Vec3(0, 0, 0)

  /** The key that moves along the same axis in the opposite sense. */
  function Opposite(k: Key): (o: Key)
  {
    match k
    case W => S
    case S => W
    case A => D
    case D => A
  }

  /**
   Net unit displacement on one axis: +1 if the `plus` key is held, -1 if the
   `minus` key is held, and 0 if both or neither are.
   */
  function Axis(keys: set<Key>, plus: Key, minus: Key): (a: int)
    ensures -1 <= a <= 1
  {
    (if plus in keys then 1 else 0) - (if minus in keys then 1 else 0)
  }

  /** The displacement a set of held keys produces: it depends on the keys alone. */
  function Displacement(keys: set<Key>): (v: Vec3)
    ensures v.z == 0
  {
    Vec3(Axis(keys, D, A), Axis(keys, W, S), 0)
  }

  function Translate(t: Vec3, v: Vec3): (r: Vec3) {
    Vec3(t.x + v.x, t.y + v.y, t.z + v.z)
  }

  /**
   One call of the movement system on one head: four independent checks, in
   the source's order D, W, A, S. The contract states the net effect: a
   translation by the keys' displacement, which never touches z.
   */
  function Step(keys: set<Key>, t: Vec3): (r: Vec3)
    ensures r == Translate(t, Displacement(keys))
    ensures r.z == t.z
  {
    var t1 := if D in keys then t.(x := t.x + 1) else t;
    var t2 := if W in keys then t1.(y := t1.y + 1) else t1;
    var t3 := if A in keys then t2.(x := t2.x - 1) else t2;
    if S in keys then t3.(y := t3.y - 1) else t3
  }

  /** The keys with each one replaced by its opposite. */
  function Mirror(keys: set<Key>): (m: set<Key>)
    ensures forall k :: k in m <==> Opposite(k) in keys
  {
    set k | k in keys :: Opposite(k)
  }

  /** Holding the mirrored keys undoes a step exactly. */
  lemma StepMirrorInverse(keys: set<Key>, t: Vec3)
    ensures Step(Mirror(keys), Step(keys, t)) == t
  {
    var m := Mirror(keys);
    assert D in m <==> A in keys;
    assert A in m <==> D in keys;
    assert W in m <==> S in keys;
    assert S in m <==> W in keys;
  }

  /** The order of two calls does not matter. */
  lemma StepCommutes(k1: set<Key>, k2: set<Key>, t: Vec3)
    ensures Step(k1, Step(k2, t)) == Step(k2, Step(k1, t))
  {
  }

  /** With no key held, a head does not move. */
  lemma NoKeyNoMove(t: Vec3)
    ensures Step({}, t) == t
  {
  }

  /** Only W held: y grows by exactly one and x is unchanged. */
  lemma UpOnly(t: Vec3)
    ensures Step({W}, t).y == t.y + 1
    ensures Step({W}, t).x == t.x
  {
  }

  /** Only D held: x grows and y is unchanged. */
  lemma RightOnly(t: Vec3)
    ensures Step({D}, t).x > t.x
    ensures Step({D}, t).y == t.y
  {
  }

  /** S on one call then A on the next leaves both coordinates below the start. */
  lemma DownThenLeft(t: Vec3)
    ensures Step({A}, Step({S}, t)).x < t.x
    ensures Step({A}, Step({S}, t)).y < t.y
  {
  }

  /**
   The four checks are independent: opposite keys held together cancel on
   their axis, and W with D moves diagonally.
   */
  lemma IndependentKeys(t: Vec3)
    ensures Step({W, S}, t) == t
    ensures Step({A, D}, t) == t
    ensures Step({W, A, S, D}, t) == t
    ensures Step({W, D}, t) == Vec3(t.x + 1, t.y + 1, t.z)
  {
  }

  /** `spawn_snake`: add one entity carrying `SnakeHead` at the origin. */
  function SpawnSnake(world: seq<Entity>): (w: seq<Entity>)
    ensures |w| == |world| + 1 && w[..|world|] == world
    ensures w[|world|] == Entity(true, Origin)
    ensures Count(w, IsHead) == Count(world, IsHead) + 1
  {
    var w := world + [Entity(true, Origin)];
    CountPush(world, Entity(true, Origin), IsHead);
    w
  }

  /** Spawning into an empty world yields exactly one head. */
  lemma SpawnExactlyOneHead()
    ensures Count(SpawnSnake([]), IsHead) == 1
    ensures forall e :: e in SpawnSnake([]) ==> e.translation == Origin
  {
  }

  /**
   `snake_movement`: every head entity is translated by the same displacement,
   the one the held keys give; entities without `SnakeHead` are untouched.
   */
  method SnakeMovement(keys: set<Key>, world: seq<Entity>) returns (w: seq<Entity>)
    ensures |w| == |world|
    ensures forall i :: 0 <= i < |w| ==> w[i].snakeHead == world[i].snakeHead
    ensures forall i :: 0 <= i < |w| && !world[i].snakeHead ==> w[i] == world[i]
    ensures forall i :: 0 <= i < |w| && world[i].snakeHead ==>
              w[i].translation == Translate(world[i].translation, Displacement(keys))
    ensures Count(w, IsHead) == Count(world, IsHead)
  {
    w := [];
    var n := 0;
    while n < |world|
      invariant n <= |world| && |w| == n
      invariant forall i :: 0 <= i < n ==> w[i].snakeHead == world[i].snakeHead
      invariant forall i :: 0 <= i < n && !world[i].snakeHead ==> w[i] == world[i]
      invariant forall i :: 0 <= i < n && world[i].snakeHead ==>
                  w[i].translation == Step(keys, world[i].translation)
    {
      var e := world[n];
      if e.snakeHead {
        e := e.(translation := Step(keys, e.translation));
      }
      w := w + [e];
      n := n + 1;
    }
    CountPointwise(w, IsHead, world, IsHead);
  }
}
