/**
 * Keyboard dispatch of the browser game (executeAction in controls.js): a
 * key names at most one command for the game's controls, and the action
 * returns what the control returned, true for a drop, or null (None) for a
 * key that means nothing. The controls object is a function parameter that
 * answers each command.
 */
module Controls {
  import opened Outcomes
  import opened Geometry
  import Pieces

  datatype Command = Turn(rot: Rotation) | MoveXY(dx: int, dy: int) | Drop

  /** Every key executeAction reacts to. */
  const BoundKeys: set<string> :=
    {"q", "e", "2", "x", "r", "t", "a", "ArrowLeft", "d", "ArrowRight", "w", "ArrowUp", "s", "ArrowDown", " "}

  /** The command a key issues, if any. */
  function CommandFor(key: string): (c: Option<Command>)
    ensures c.Some? <==> key in BoundKeys
  {
    if key == "q" then Some(Turn(Rotation(Y, CW)))
    else if key == "e" then Some(Turn(Rotation(Y, CCW)))
    else if key == "2" then Some(Turn(Rotation(X, CCW)))
    else if key == "x" then Some(Turn(Rotation(X, CW)))
    else if key == "r" then Some(Turn(Rotation(Z, CW)))
    else if key == "t" then Some(Turn(Rotation(Z, CCW)))
    else if key == "ArrowLeft" || key == "a" then Some(MoveXY(-1, 0))
    else if key == "ArrowRight" || key == "d" then Some(MoveXY(1, 0))
    else if key == "ArrowUp" || key == "w" then Some(MoveXY(0, -1))
    else if key == "ArrowDown" || key == "s" then Some(MoveXY(0, 1))
    else if key == " " then Some(Drop)
    else None
  }

  /**
   * executeAction: the command's answer from the controls, except that a
   * drop always answers true; an unbound key issues nothing and answers None.
   */
  function ExecuteAction(key: string, controls: Command -> bool): (r: Option<bool>)
    ensures r.None? <==> key !in BoundKeys
    ensures key == " " ==> r == Some(true)
    ensures key != " " && key in BoundKeys ==> r == Some(controls(CommandFor(key).value))
  {
    match CommandFor(key)
    case None => None
    case Some(Drop) => Some(true)
    case Some(c) => Some(controls(c))
  }

  /** The arrow keys are aliases of a, d, w and s. */
  lemma ArrowKeysAlias()
    ensures CommandFor("ArrowLeft") == CommandFor("a") == Some(MoveXY(-1, 0))
    ensures CommandFor("ArrowRight") == CommandFor("d") == Some(MoveXY(1, 0))
    ensures CommandFor("ArrowUp") == CommandFor("w") == Some(MoveXY(0, -1))
    ensures CommandFor("ArrowDown") == CommandFor("s") == Some(MoveXY(0, 1))
  {
  }

  /** Every move a key issues is a unit step along exactly one of x and y. */
  lemma MoveIsUnitStep(key: string)
    requires CommandFor(key).Some? && CommandFor(key).value.MoveXY?
    ensures var c := CommandFor(key).value;
      (c.dx == 0 <==> c.dy != 0) && c.dx * c.dx + c.dy * c.dy == 1
  {
  }

  /** Two keys turn about the same axis in opposite directions. */
  predicate InversePair(k1: string, k2: string, axis: Axis)
  {
    var c1, c2 := CommandFor(k1), CommandFor(k2);
    && c1.Some? && c1.value.Turn? && c1.value.rot.axis == axis
    && c2 == Some(Turn(Rotation(axis, Reverse(c1.value.rot.direction))))
  }

  /** The turn keys come in inverse pairs: q/e about y, x/2 about x, r/t about z; no other key turns. */
  lemma TurnKeysPairUp(key: string)
    ensures InversePair("q", "e", Y) && InversePair("x", "2", X) && InversePair("r", "t", Z)
    ensures CommandFor(key).Some? && CommandFor(key).value.Turn? ==> key in {"q", "e", "x", "2", "r", "t"}
  {
  }

  /**
   * The two commands of an inverse pair are opposite quarter turns:
   * `Pieces.Rotated` by one and then the other is the identity. Whether the
   * game accepts each turn is its own concern and is not modelled here.
   */
  lemma InversePairCancels(k1: string, k2: string, axis: Axis, p: Pieces.Piece)
    requires InversePair(k1, k2, axis)
    ensures Pieces.Rotated(Pieces.Rotated(p, CommandFor(k1).value.rot), CommandFor(k2).value.rot) == p
  {
    Pieces.RotatedInverse(p, CommandFor(k1).value.rot);
  }
}
