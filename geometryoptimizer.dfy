/** MoleculeGeometryOptimizer: a session that binds a named force field to a
    molecule, refines a private copy of the coordinates by repeated line
    searches and writes the result back to the molecule at the end. */
module GeometryOptimizer {
  import opened Options
  import opened Vectors
  import opened Molecules
  import opened ForceFields
  import opened LineSearch

  const DefaultForceField: string := "uff"
  const NoMoleculeError: string := "No molecule specified"
  const SetupFailedError: string := "Failed to setup force field."

  function UnsupportedError(name: string): string {
    "Force field '" + name + "' is not supported."
  }

  /** The convergence test: the RMS gradient is a number below the convergence value. */
  predicate Converged(ff: ForceField, coordinates: seq<Vec3>)
    ensures Converged(ff, coordinates) <==>
      ff.Rmsg(coordinates).Some? && ff.Rmsg(coordinates).value < ConvergenceValue
  {
    match ff.Rmsg(coordinates)
    case Some(g) => g < ConvergenceValue
    case None => false
  }

  /** None of the steps before the last one in `trace` reported convergence:
      the loop of `optimize()` stops at the first step that does. */
  predicate NoEarlierConvergence(ff: ForceField, start: seq<Vec3>, trace: seq<seq<seq<Vec3>>>)
    requires ff.atomCount <= |start|
    requires forall k :: 0 <= k < |trace| ==> DrawsFit(ff, trace[k])
    decreases |trace|
  {
    |trace| <= 1 ||
    var earlier := trace[..|trace| - 1];
    NoEarlierConvergence(ff, start, earlier) && !Converged(ff, Descent(ff, start, earlier))
  }

  /** Spelled out: after no earlier convergence, the coordinates after each
      of the steps but the last have not converged. */
  lemma {:induction false} NotConvergedBefore(ff: ForceField, start: seq<Vec3>, trace: seq<seq<seq<Vec3>>>)
    requires ff.atomCount <= |start|
    requires forall k :: 0 <= k < |trace| ==> DrawsFit(ff, trace[k])
    requires NoEarlierConvergence(ff, start, trace)
    ensures forall k :: 0 < k < |trace| ==> !Converged(ff, Descent(ff, start, trace[..k]))
    decreases |trace|
  {
    if |trace| > 1 {
      var earlier := trace[..|trace| - 1];
      NotConvergedBefore(ff, start, earlier);
      forall k | 0 < k < |trace|
        ensures !Converged(ff, Descent(ff, start, trace[..k]))
      {
        if k < |earlier| {
          assert earlier[..k] == trace[..k];
        }
      }
    }
  }

  /** One more step after steps none of which converged extends the trace
      without an earlier convergence. */
  lemma EarlierSteps(ff: ForceField, start: seq<Vec3>, trace: seq<seq<seq<Vec3>>>, draws: seq<seq<Vec3>>)
    requires ff.atomCount <= |start| && DrawsFit(ff, draws)
    requires forall k :: 0 <= k < |trace| ==> DrawsFit(ff, trace[k])
    requires NoEarlierConvergence(ff, start, trace)
    requires trace != [] ==> !Converged(ff, Descent(ff, start, trace))
    ensures forall k :: 0 <= k < |trace + [draws]| ==> DrawsFit(ff, (trace + [draws])[k])
    ensures Descent(ff, start, trace + [draws]) == Run(ff, Start(ff, Descent(ff, start, trace)), draws).coordinates
    ensures NoEarlierConvergence(ff, start, trace + [draws])
  {
    DescentExtend(ff, start, trace, draws);
    assert (trace + [draws])[..|trace|] == trace;
  }

  /** Whether `setup()` succeeds for `molecule` with the force field called `name`. */
  ghost predicate CanSetup(molecule: Molecule?, name: string, registry: Registry)
    reads molecule
  {
    molecule != null && registry(name).Some? && registry(name).value.accepts(molecule.atoms)
  }

  class MoleculeGeometryOptimizer {
    var molecule: Molecule?
    var forceField: Option<ForceField>
    var forceFieldName: string
    var errorString: string
    var coordinates: seq<Vec3>

    /** After a successful setup: the force field is bound to the molecule's
        atoms and the working coordinates have one point per atom. */
    ghost predicate Ready()
      reads this, molecule
    {
      molecule != null && forceField.Some? &&
      forceField.value.atomCount == |coordinates| == |molecule.atoms|
    }

    constructor (molecule: Molecule?)
      ensures this.molecule == molecule && forceField.None? && forceFieldName == DefaultForceField
      ensures errorString == "" && coordinates == []
    {
      this.molecule := molecule;
      forceField := None;
      forceFieldName := DefaultForceField;
      errorString := "";
      coordinates := [];
    }

    method SetMolecule(molecule: Molecule?)
      modifies this
      ensures this.molecule == molecule
      ensures forceField == old(forceField) && forceFieldName == old(forceFieldName)
      ensures errorString == old(errorString) && coordinates == old(coordinates)
    {
      if molecule != this.molecule {
        this.molecule := molecule;
      }
    }

    /** Any name is accepted; it is looked up only by `Setup`. */
    method SetForceField(name: string) returns (ok: bool)
      modifies this
      ensures ok && forceFieldName == name
      ensures molecule == old(molecule) && forceField == old(forceField)
      ensures errorString == old(errorString) && coordinates == old(coordinates)
    {
      forceFieldName := name;
      ok := true;
    }

    /** The force field's energy at the working coordinates (`None`: NaN), or 0 without a force field. */
    function Energy(): (e: Option<real>)
      reads this
      ensures forceField.None? ==> e == Some(0.0)
      ensures forceField.Some? ==> e == forceField.value.Energy(coordinates)
    {
      if forceField.None? then Some(0.0) else forceField.value.Energy(coordinates)
    }

    method Setup(registry: Registry) returns (ok: bool)
      modifies this
      ensures molecule == old(molecule) && forceFieldName == old(forceFieldName)
      ensures ok <==> old(CanSetup(molecule, forceFieldName, registry))
      ensures molecule == null ==>
        errorString == NoMoleculeError && forceField == old(forceField) && coordinates == old(coordinates)
      ensures molecule != null && registry(forceFieldName).None? ==>
        errorString == UnsupportedError(forceFieldName) && forceField.None? &&
        coordinates == old(coordinates) && Energy() == Some(0.0)
      ensures molecule != null && registry(forceFieldName).Some? ==>
        forceField == Some(Bind(registry(forceFieldName).value, molecule.atoms))
      ensures molecule != null && registry(forceFieldName).Some? && !ok ==>
        errorString == SetupFailedError && coordinates == old(coordinates)
      ensures ok ==> errorString == old(errorString) && coordinates == molecule.Coordinates() && Ready()
    {
      if molecule == null {
        errorString := NoMoleculeError;
        return false;
      }

      forceField := None;
      var kind := registry(forceFieldName);
      if kind.None? {
        errorString := UnsupportedError(forceFieldName);
        return false;
      }
      forceField := Some(Bind(kind.value, molecule.atoms));

      if !kind.value.accepts(molecule.atoms) {
        errorString := SetupFailedError;
        return false;
      }

      coordinates := molecule.Coordinates();
      ok := true;
    }
  
    /** Moves every atom below `n` against its gradient by `step`. */
    method MoveAtoms(gradient: seq<Vec3>, step: real, n: nat)
      requires n <= |coordinates| <= |gradient|
      modifies this`coordinates
      ensures coordinates == Move(old(coordinates), gradient, step, n)
    {
      ghost var initial := coordinates;
      for atomIndex := 0 to n
        invariant coordinates == Move(initial, gradient, step, atomIndex)
      {
        coordinates := coordinates[atomIndex := coordinates[atomIndex].Plus(gradient[atomIndex].Negated().Times(step))];
      }
    }

    /** Puts every atom below `n` back at its snapshot position plus an
        arbitrary offset (the random unit vector of the C++ code); the offsets
        drawn are returned in `directions`. */
    method Wiggle(snapshot: seq<Vec3>, n: nat) returns (ghost directions: seq<Vec3>)
      requires n <= |coordinates| == |snapshot|
      requires forall k :: n <= k < |snapshot| ==> coordinates[k] == snapshot[k]
      modifies this`coordinates
      ensures |directions| == n && coordinates == Perturb(snapshot, directions)
    {
      directions := [];
      for atomIndex := 0 to n
        invariant |directions| == atomIndex && |coordinates| == |snapshot|
        invariant forall k :: 0 <= k < atomIndex ==> coordinates[k] == snapshot[k].Plus(directions[k])
        invariant forall k :: n <= k < |coordinates| ==> coordinates[k] == snapshot[k]
      {
        var direction: Vec3 :| true;
        coordinates := coordinates[atomIndex := snapshot[atomIndex].Plus(direction)];
        directions := directions + [direction];
      }
    }

    /** One pass of the line search from the working coordinates: move
        against the gradient; on a NaN energy, wiggle from the snapshot and
        refresh the gradient; otherwise stop, accept, reject or keep the move
        by comparing with the reference energy. The offsets drawn for the
        wiggle are reported in `directions`. */
    method TrialMove(ff: ForceField, gradient: seq<Vec3>, step: real, reference: Option<real>)
      returns (newGradient: seq<Vec3>, newStep: real, newReference: Option<real>, stop: bool,
               ghost directions: seq<Vec3>)
      requires ff.atomCount <= |coordinates| == |gradient|
      modifies this`coordinates
      ensures |directions| <= ff.atomCount
      ensures Search(coordinates, newGradient, newStep, newReference, stop) ==
              Trial(ff, Search(old(coordinates), gradient, step, reference, false), directions)
    {
      newGradient, newStep, newReference, stop := gradient, step, reference, false;
      directions := [];
      var initialCoordinates := coordinates;

      MoveAtoms(gradient, step, ff.atomCount);

      var finalEnergy := ff.Energy(coordinates);
      if finalEnergy.None? {
        directions := Wiggle(initialCoordinates, ff.atomCount);
        newGradient := ff.Gradient(coordinates);
        return;
      }

      var e := finalEnergy.value;
      if Below(e, reference) && Abs(e - reference.value) < StepConvergence {
        stop := true;
      } else if Below(e, reference) {
        newStep := step * 2.0;
        if newStep > 1.0 {
          newStep := 1.0;
        }
        newReference := finalEnergy;
      } else if Above(e, reference) {
        coordinates := initialCoordinates;
        newStep := step * 0.1;
      }
    }

    /** One bounded line search along the gradient at the working coordinates;
        answers whether the RMS gradient afterwards is below the convergence
        value. The random unit offsets used after a NaN energy are arbitrary
        here and are reported in `draws`, one entry per trial move. */
    method Step() returns (converged: bool, ghost draws: seq<seq<Vec3>>)
      requires forceField.Some? ==> forceField.value.atomCount <= |coordinates|
      modifies this`coordinates
      ensures molecule == null || forceField.None? ==> !converged && coordinates == old(coordinates)
      ensures molecule != null && forceField.Some? ==>
        var ff := forceField.value;
        DrawsFit(ff, draws) &&
        var r := Run(ff, Start(ff, old(coordinates)), draws);
        |draws| <= StepCount && (|draws| == StepCount || r.stopped) &&
        coordinates == r.coordinates && converged == Converged(ff, coordinates)
    {
      draws := [];
      if molecule == null || forceField.None? {
        return false, draws;
      }
      var ff := forceField.value;

      draws := Descend(ff);
      converged := Converged(ff, coordinates);
    }

    /** At most `StepCount` trial moves of the line search, stopping early as soon as one says so. */
    method Descend(ff: ForceField) returns (ghost draws: seq<seq<Vec3>>)
      requires ff.atomCount <= |coordinates|
      modifies this`coordinates
      ensures DrawsFit(ff, draws) && |draws| <= StepCount
      ensures var r := Run(ff, Start(ff, old(coordinates)), draws);
        (|draws| == StepCount || r.stopped) && coordinates == r.coordinates
    {
      draws := [];
      var step := InitialStep;
      var initialEnergy := ff.Energy(coordinates);
      var gradient := ff.Gradient(coordinates);
      ghost var start := Start(ff, coordinates);
      ghost var state := start;
      for i := 0 to StepCount
        invariant |draws| == i && DrawsFit(ff, draws)
        invariant state == Run(ff, start, draws) && !state.stopped
        invariant state == Search(coordinates, gradient, step, initialEnergy, false)
      {
        var stop;
        ghost var directions;
        gradient, step, initialEnergy, stop, directions := TrialMove(ff, gradient, step, initialEnergy);
        RunExtend(ff, start, draws, directions);
        draws := draws + [directions];
        state := Search(coordinates, gradient, step, initialEnergy, stop);
        if stop {
          break;
        }
      }
    }

    /** Copies working coordinate `i` to atom `i`, for every atom of the molecule. */
    method WriteCoordinates()
      requires molecule != null && forceField.Some? ==> |molecule.atoms| <= |coordinates|
      modifies molecule
      ensures molecule != null && forceField.None? ==> molecule.atoms == old(molecule.atoms)
      ensures molecule != null && forceField.Some? ==>
        molecule.atoms == WithPositions(old(molecule.atoms), coordinates)
    {
      if molecule == null || forceField.None? {
        return;
      }
      for i := 0 to molecule.Size()
        invariant |molecule.atoms| == |old(molecule.atoms)|
        invariant forall k :: 0 <= k < i ==> molecule.atoms[k] == old(molecule.atoms)[k].(position := coordinates[k])
        invariant forall k :: i <= k < |molecule.atoms| ==> molecule.atoms[k] == old(molecule.atoms)[k]
      {
        molecule.SetPosition(i, coordinates[i]);
      }
    }

    /** The loop of `optimize()`: steps until a step reports convergence, or
        until `fuel` steps have been made. */
    method StepUntilConverged(fuel: nat) returns (done: bool, ghost trace: seq<seq<seq<Vec3>>>)
      requires Ready()
      modifies this`coordinates
      ensures Ready() && |trace| <= fuel && (done || |trace| == fuel)
      ensures (forall k :: 0 <= k < |trace| ==> DrawsFit(forceField.value, trace[k])) &&
              coordinates == Descent(forceField.value, old(coordinates), trace)
      ensures done <==> |trace| > 0 && Converged(forceField.value, coordinates)
      ensures NoEarlierConvergence(forceField.value, old(coordinates), trace)
    {
      done := false;
      trace := [];
      var steps := 0;
      while !done && steps < fuel
        invariant Ready() && steps == |trace| <= fuel
        invariant forall k :: 0 <= k < |trace| ==> DrawsFit(forceField.value, trace[k])
        invariant coordinates == Descent(forceField.value, old(coordinates), trace)
        invariant done <==> |trace| > 0 && Converged(forceField.value, coordinates)
        invariant NoEarlierConvergence(forceField.value, old(coordinates), trace)
        decreases fuel - steps
      {
        ghost var draws;
        done, draws := Step();
        EarlierSteps(forceField.value, old(coordinates), trace, draws);
        trace := trace + [draws];
        steps := steps + 1;
      }
    }

    /** What `optimize()` does after a successful setup: the steps, then the
        write-back of the working coordinates to the molecule. */
    method StepAndWriteBack(fuel: nat) returns (done: bool, ghost trace: seq<seq<seq<Vec3>>>)
      requires Ready()
      modifies this`coordinates, molecule
      ensures molecule == old(molecule) && forceField == old(forceField)
      ensures Ready() && molecule.atoms == WithPositions(old(molecule.atoms), coordinates) &&
        molecule.Coordinates() == coordinates
      ensures var ff := forceField.value;
        |trace| <= fuel && (done || |trace| == fuel) &&
        (forall k :: 0 <= k < |trace| ==> DrawsFit(ff, trace[k])) &&
        coordinates == Descent(ff, old(coordinates), trace) &&
        (done <==> |trace| > 0 && Converged(ff, coordinates)) &&
        NoEarlierConvergence(ff, old(coordinates), trace)
    {
      done, trace := StepUntilConverged(fuel);
      WriteCoordinates();
      assert coordinates[..|coordinates|] == coordinates;
    }

    /** Sets up, steps until a step reports convergence, then writes the
        coordinates back. The C++ loop has no bound; here it gives up after
        `fuel` steps, still writing back, and answers false. */
    method Optimize(registry: Registry, fuel: nat) returns (ok: bool, ghost trace: seq<seq<seq<Vec3>>>)
      modifies this, molecule
      ensures molecule == old(molecule) && forceFieldName == old(forceFieldName)
      ensures !old(CanSetup(molecule, forceFieldName, registry)) ==>
        !ok && (molecule != null ==> molecule.atoms == old(molecule.atoms)) &&
        errorString == (if molecule == null then NoMoleculeError
                        else if registry(forceFieldName).None? then UnsupportedError(forceFieldName)
                        else SetupFailedError)
      ensures old(CanSetup(molecule, forceFieldName, registry)) ==>
        Ready() && forceField == Some(Bind(registry(forceFieldName).value, old(molecule.atoms))) &&
        molecule.atoms == WithPositions(old(molecule.atoms), coordinates) &&
        molecule.Coordinates() == coordinates
      ensures old(CanSetup(molecule, forceFieldName, registry)) ==>
        var ff, start := forceField.value, old(molecule.Coordinates());
        |trace| <= fuel && (ok || |trace| == fuel) &&
        (forall k :: 0 <= k < |trace| ==> DrawsFit(ff, trace[k])) &&
        coordinates == Descent(ff, start, trace) &&
        (ok <==> |trace| > 0 && Converged(ff, coordinates)) &&
        NoEarlierConvergence(ff, start, trace)
    {
      trace := [];
      var setupOk := Setup(registry);
      if !setupOk {
        return false, trace;
      }
      ok, trace := StepAndWriteBack(fuel);
    }

    /** Optimizes `molecule` with a fresh session and the default force field. */
    static method OptimizeCoordinates(molecule: Molecule?, registry: Registry, fuel: nat)
      returns (ok: bool, ghost trace: seq<seq<seq<Vec3>>>)
      modifies molecule
      ensures !old(CanSetup(molecule, DefaultForceField, registry)) ==>
        !ok && (molecule != null ==> molecule.atoms == old(molecule.atoms))
      ensures old(CanSetup(molecule, DefaultForceField, registry)) ==>
        var ff, start := Bind(registry(DefaultForceField).value, old(molecule.atoms)), old(molecule.Coordinates());
        |trace| <= fuel && (ok || |trace| == fuel) &&
        (forall k :: 0 <= k < |trace| ==> DrawsFit(ff, trace[k])) &&
        molecule.atoms == WithPositions(old(molecule.atoms), Descent(ff, start, trace)) &&
        (ok <==> |trace| > 0 && Converged(ff, molecule.Coordinates())) &&
        NoEarlierConvergence(ff, start, trace)
    {
      var optimizer := new MoleculeGeometryOptimizer(molecule);
      ok, trace := optimizer.Optimize(registry, fuel);
    }
  }
}
