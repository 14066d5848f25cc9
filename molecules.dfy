/** The molecule that the optimizer reads its starting coordinates from and
    writes its result back to: an ordered list of atoms, each with a position. */
module Molecules {
  import opened Vectors

  datatype Atom = Atom(element: string, position: Vec3)

  /** The positions of `atoms`, in atom order (Molecule::coordinates()). */
  function Positions(atoms: seq<Atom>): (c: seq<Vec3>)
    ensures |c| == |atoms|
    ensures forall i :: 0 <= i < |atoms| ==> c[i] == atoms[i].position
  {
    seq(|atoms|, i requires 0 <= i < |atoms| => atoms[i].position)
  }

  /** `atoms` with atom `i` moved to `coordinates[i]`, elements kept. */
  function WithPositions(atoms: seq<Atom>, coordinates: seq<Vec3>): (r: seq<Atom>)
    requires |atoms| <= |coordinates|
    ensures |r| == |atoms|
    ensures forall i :: 0 <= i < |atoms| ==> r[i].element == atoms[i].element
    ensures Positions(r) == coordinates[..|atoms|]
  {
    seq(|atoms|, i requires 0 <= i < |atoms| => atoms[i].(position := coordinates[i]))
  }

  class Molecule {
    var atoms: seq<Atom>

    constructor (atoms: seq<Atom>)
      ensures this.atoms == atoms
    {
      this.atoms := atoms;
    }

    function Size(): nat
      reads this
    {
      |atoms|
    }

    function Coordinates(): seq<Vec3>
      reads this
    {
      Positions(atoms)
    }

    /** Atom::setPosition on atom `i`. */
    method SetPosition(i: nat, p: Vec3)
      requires i < |atoms|
      modifies this
      ensures atoms == old(atoms)[i := old(atoms)[i].(position := p)]
    {
      atoms := atoms[i := atoms[i].(position := p)];
    }
  }
}
