/** The force field as the optimizer sees it: an opaque oracle for energy,
    gradient and RMS gradient over a coordinate set, created by name from a
    registry and set up against a molecule. */
module ForceFields {
  import opened Options
  import opened Vectors
  import opened Molecules

  /** A gradient oracle gives one vector per atom of the coordinates it is asked about. */
  type GradientOracle = f: seq<Vec3> -> seq<Vec3> | forall c :: |f(c)| == |c|
    witness (c: seq<Vec3>) => c

  /** What a registered force-field plugin provides. `energy` and `rmsg`
      answer `None` where the C++ code would produce NaN. */
  datatype ForceFieldKind = ForceFieldKind(
    accepts: seq<Atom> -> bool,
    energy: seq<Vec3> -> Option<real>,
    gradient: GradientOracle,
    rmsg: seq<Vec3> -> Option<real>)

  /** ForceField::create: a name either names a registered force field or not. */
  type Registry = string -> Option<ForceFieldKind>

  /** A force field instance bound to a molecule of `atomCount` atoms
      (ForceField::setMolecule fixes atomCount()). */
  datatype ForceField = ForceField(kind: ForceFieldKind, atomCount: nat) {

    function Energy(coordinates: seq<Vec3>): Option<real> {
      kind.energy(coordinates)
    }

    function Gradient(coordinates: seq<Vec3>): (g: seq<Vec3>)
      ensures |g| == |coordinates|
    {
      kind.gradient(coordinates)
    }

    function Rmsg(coordinates: seq<Vec3>): Option<real> {
      kind.rmsg(coordinates)
    }
  }

  /** ForceField::create followed by setMolecule: a fresh instance of `kind` bound to `atoms`. */
  function Bind(kind: ForceFieldKind, atoms: seq<Atom>): (f: ForceField)
    ensures f.kind == kind && f.atomCount == |atoms|
  {
    ForceField(kind, |atoms|)
  }
}
