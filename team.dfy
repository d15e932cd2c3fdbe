/**
 * A team of a galaxy (Flattiverse.Connector/GalaxyHierarchy/Team.cs): a fixed id, a name and
 * a colour the server may change, and an `Active` flag that only ever goes from true to false.
 */
module Teams {
  import opened Wrappers

  /** What a team shows through its properties, apart from its fixed id. */
  datatype TeamView = TeamView(name: string, red: uint8, green: uint8, blue: uint8, active: bool)

  /** The two things that can happen to an existing team. */
  datatype TeamOp = UpdateOp(name: string, red: uint8, green: uint8, blue: uint8) | DeactivateOp

  /**
   * The effect of one operation: `Update` replaces the name and the colour and keeps
   * `Active`; `Deactivate` clears `Active` and keeps the rest.
   */
  function Apply(v: TeamView, op: TeamOp): (r: TeamView)
    ensures op.UpdateOp? ==> r.active == v.active && r.name == op.name && (r.red, r.green, r.blue) == (op.red, op.green, op.blue)
    ensures op.DeactivateOp? ==> !r.active && (r.name, r.red, r.green, r.blue) == (v.name, v.red, v.green, v.blue)
  {
    match op
    case UpdateOp(name, red, green, blue) => v.(name := name, red := red, green := green, blue := blue)
    case DeactivateOp => v.(active := false)
  }

  /** The operations `ops`, applied one after the other. */
  function Run(v: TeamView, ops: seq<TeamOp>): TeamView
    decreases |ops|
  {
    if ops == [] then v else Run(Apply(v, ops[0]), ops[1..])
  }

  /**
   * After any sequence of operations a team is active exactly when it was active before and
   * no `Deactivate` happened: nothing makes a team active again.
   */
  lemma {:induction false} ActiveOnlyFalls(v: TeamView, ops: seq<TeamOp>)
    ensures Run(v, ops).active <==> v.active && DeactivateOp !in ops
    decreases |ops|
  {
    if ops != [] {
      ActiveOnlyFalls(Apply(v, ops[0]), ops[1..]);
      assert ops == [ops[0]] + ops[1..];
    }
  }

  /** Deactivating twice is deactivating once. */
  lemma DeactivateIdempotent(v: TeamView)
    ensures Apply(Apply(v, DeactivateOp), DeactivateOp) == Apply(v, DeactivateOp)
  {
  }

  class Team {
    /** The id never changes after construction. */
    const id: uint8
    var name: string
    var red: uint8
    var green: uint8
    var blue: uint8
    var active: bool

    function View(): TeamView
      reads this
    {
      TeamView(name, red, green, blue, active)
    }

    /** `Team(id, name, red, green, blue)` (Team.cs:21-32): a new team is active. */
    constructor(id: uint8, name: string, red: uint8, green: uint8, blue: uint8)
      ensures this.id == id && View() == TeamView(name, red, green, blue, true)
    {
      this.id := id;
      this.name := name;
      this.red, this.green, this.blue := red, green, blue;
      active := true;
    }

    /** `Update(name, red, green, blue)` (Team.cs:34-41). */
    method Update(name: string, red: uint8, green: uint8, blue: uint8)
      modifies this`name, this`red, this`green, this`blue
      ensures View() == Apply(old(View()), UpdateOp(name, red, green, blue))
    {
      this.name := name;
      this.red, this.green, this.blue := red, green, blue;
    }

    /** `Deactivate()` (Team.cs:43-46). */
    method Deactivate()
      modifies this`active
      ensures View() == Apply(old(View()), DeactivateOp)
    {
      active := false;
    }
  }
}
