/**
 Food placement: one call of the spawn system adds one entity carrying
 `Food` and a `Position` whose coordinates are two random `u16` draws reduced
 modulo the grid width and height and cast to `i16`. The draws are parameters;
 there is no check against occupied cells.
 */
module Food {
  import opened Components
  import opened Grid
  import opened Entities

  /** An entity of the world: its position, and whether it carries `Food`. */
  datatype Entity = Entity(food: bool, position: Position)

  predicate IsFood(e: Entity) {
    e.food
  }

  /**
   `(r % dim) as i16` for a grid dimension `dim`. A remainder below 0x8000
   survives the cast unchanged, so the result never wraps for dimensions up to
   0x8000 (both grid dimensions are 10).
   */
  function Reduce(r: U16, dim: U16): (c: I16)
    requires 0 < dim <= 0x8000
    ensures 0 <= c as int < dim as int
    ensures c as int == r as int % dim as int
  {
    var m := r as int % dim as int;
    assert 0 <= m < dim as int;
    AsI16Small(m as U16);
    AsI16(m as U16)
  }

  /** The cell chosen from the draws `rx` (for x) and `ry` (for y). */
  function FoodPosition(rx: U16, ry: U16): (p: Position)
    ensures InGrid(p)
    ensures 0 <= p.x as int <= GridWidth as int - 1
    ensures 0 <= p.y as int <= GridHeight as int - 1
  {
    Position(Reduce(rx, GridWidth), Reduce(ry, GridHeight))
  }

  /**
   The draws land on cell `c` exactly when `c` is on the grid and each draw is
   congruent to its coordinate: x depends only on `rx` and y only on `ry`.
   */
  lemma FoodPositionExactly(rx: U16, ry: U16, c: Position)
    ensures FoodPosition(rx, ry) == c <==>
              InGrid(c) && rx as int % GridWidth as int == c.x as int && ry as int % GridHeight as int == c.y as int
  {
  }

  /** Every grid cell is the outcome of some pair of draws. */
  lemma EveryCellReachable(c: Position)
    requires InGrid(c)
    ensures exists rx: U16, ry: U16 :: FoodPosition(rx, ry) == c
  {
    var rx := c.x as int as U16;
    var ry := c.y as int as U16;
    assert FoodPosition(rx, ry) == c;
  }

  /** `spawn_system`: add exactly one food entity, at the cell the draws give. */
  function SpawnFood(world: seq<Entity>, rx: U16, ry: U16): (w: seq<Entity>)
    ensures |w| == |world| + 1 && w[..|world|] == world
    ensures w[|world|] == Entity(true, FoodPosition(rx, ry))
    ensures InGrid(w[|world|].position)
    ensures Count(w, IsFood) == Count(world, IsFood) + 1
  {
    CountPush(world, Entity(true, FoodPosition(rx, ry)), IsFood);
    world + [Entity(true, FoodPosition(rx, ry))]
  }

  /** From an empty world: one food entity, on the grid. */
  lemma SpawnFromEmpty(rx: U16, ry: U16)
    ensures Count(SpawnFood([], rx, ry), IsFood) == 1
    ensures forall e :: e in SpawnFood([], rx, ry) ==> e.food && InGrid(e.position)
  {
  }
}
