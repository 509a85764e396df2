/** A piece of food (`food.rs`): nothing but a position. */
module Foods {
  import opened Geometry

  datatype Food = Food(position: Point)

  /** `Food::new`. */
  function New(position: Point): (r: Food)
    ensures r.position == position
  {
    Food(position)
  }

  /** `Food::position`. */
  function Position(food: Food): (r: Point)
    ensures r == food.position
    ensures New(r) == food
  {
    food.position
  }

  /** `PartialEq for Food` compares the positions, which is all a food has: full equality. */
  function Eq(a: Food, b: Food): (r: bool)
    ensures r <==> a == b
  {
    a.position == b.position
  }

  /** The derived `Clone`: a copy equal to the original. */
  function Clone(food: Food): (r: Food)
    ensures Eq(r, food)
  {
    Food(food.position)
  }
}
