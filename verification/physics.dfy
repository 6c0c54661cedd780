/**
 * The rigid body the controller pushes. The physics engine itself is not
 * modelled: a body is seen only through its position and the record of the
 * forces applied to it, in order.
 */
module Physics {
  import opened Vectors

  /** One call of `applyForce`: the force and the point passed with it. */
  datatype Application = Application(force: Vec3, point: Vec3)

  class Body {
    var position: Vec3
    var applied: seq<Application>

    constructor (position: Vec3)
      ensures this.position == position && applied == []
    {
      this.position := position;
      applied := [];
    }

    /** Record one call of `applyForce` with `force` and the point passed with
     *  it. Applying a force does not move the body; only a physics step would. */
    method ApplyForce(force: Vec3, point: Vec3)
      modifies this
      ensures position == old(position)
      ensures applied == old(applied) + [Application(force, point)]
    {
      applied := applied + [Application(force, point)];
    }
  }
}
