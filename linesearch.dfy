/** One call of MoleculeGeometryOptimizer::step as a pure specification: a
    bounded line search along a fixed gradient, with an adaptive step size,
    exact restore on rejection and perturb-and-retry on a NaN energy. */
module LineSearch {
  import opened Options
  import opened Vectors
  import opened ForceFields

  const InitialStep: real := 0.05
  const StepConvergence: real := 0.00001
  const StepCount: nat := 10
  const ConvergenceValue: real := 0.1

  /** The locals of the line search: the coordinates, the gradient moved
      along, the step size, the reference energy (`initialEnergy`, `None`
      when NaN) and whether the search stopped early. */
  datatype Search = Search(coordinates: seq<Vec3>, gradient: seq<Vec3>, step: real,
                           reference: Option<real>, stopped: bool)

  /** The force field moves atoms below its atom count, and the gradient covers every coordinate. */
  predicate Fits(ff: ForceField, s: Search) {
    ff.atomCount <= |s.coordinates| && |s.gradient| == |s.coordinates|
  }

  /** `e < reference` in IEEE terms: false whenever the reference is NaN. */
  predicate Below(e: real, reference: Option<real>)
    ensures reference.None? ==> !Below(e, reference)
    ensures reference.Some? ==> (Below(e, reference) <==> e < reference.value)
  {
    reference.Some? && e < reference.value
  }

  /** `e > reference` in IEEE terms: false whenever the reference is NaN. */
  predicate Above(e: real, reference: Option<real>)
    ensures reference.None? ==> !Above(e, reference)
    ensures reference.Some? ==> (Above(e, reference) <==> e > reference.value)
  {
    reference.Some? && e > reference.value
  }

  function Abs(d: real): real {
    if d < 0.0 then -d else d
  }

  function Min(a: real, b: real): real {
    if a <= b then a else b
  }

  /** The state before the first trial move. */
  function Start(ff: ForceField, coordinates: seq<Vec3>): (s: Search)
    requires ff.atomCount <= |coordinates|
    ensures Fits(ff, s)
  {
    Search(coordinates, ff.Gradient(coordinates), InitialStep, ff.Energy(coordinates), false)
  }

  /** Every atom below `n` moved by `-gradient[i] * step`; the others stay put. */
  function Move(coordinates: seq<Vec3>, gradient: seq<Vec3>, step: real, n: nat): (r: seq<Vec3>)
    requires n <= |coordinates| <= |gradient|
    ensures |r| == |coordinates|
  {
    seq(|coordinates|, i requires 0 <= i < |coordinates| =>
      if i < n then coordinates[i].Plus(gradient[i].Negated().Times(step)) else coordinates[i])
  }

  /** The snapshot with atom `i` displaced by `directions[i]` for every `i < |directions|`. */
  function Perturb(snapshot: seq<Vec3>, directions: seq<Vec3>): (r: seq<Vec3>)
    ensures |r| == |snapshot|
  {
    seq(|snapshot|, i requires 0 <= i < |snapshot| =>
      if i < |directions| then snapshot[i].Plus(directions[i]) else snapshot[i])
  }

  /** Whether the trial move from `s` lands on a NaN energy. */
  predicate Diverges(ff: ForceField, s: Search)
    requires Fits(ff, s)
  {
    ff.Energy(Move(s.coordinates, s.gradient, s.step, ff.atomCount)).None?
  }

  /** One pass of the line-search loop. `directions` are the random offsets
      drawn for the atoms when the trial energy is NaN; other passes ignore them. */
  function Trial(ff: ForceField, s: Search, directions: seq<Vec3>): (r: Search)
    requires Fits(ff, s) && |directions| <= ff.atomCount
    ensures Fits(ff, r) && |r.coordinates| == |s.coordinates|
    ensures 0.0 < s.step <= 1.0 ==> 0.0 < r.step <= 1.0
    ensures forall i :: ff.atomCount <= i < |s.coordinates| ==> r.coordinates[i] == s.coordinates[i]
    ensures r.reference == s.reference || (r.reference.Some? && Below(r.reference.value, s.reference))
    ensures r.gradient == s.gradient || r.gradient == ff.Gradient(r.coordinates)
    ensures r.step != s.step ==> r.coordinates == s.coordinates || r.reference != s.reference
  {
    var moved := Move(s.coordinates, s.gradient, s.step, ff.atomCount);
    match ff.Energy(moved)
    case None =>
      var wiggled := Perturb(s.coordinates, directions);
      s.(coordinates := wiggled, gradient := ff.Gradient(wiggled))
    case Some(e) =>
      if Below(e, s.reference) && Abs(e - s.reference.value) < StepConvergence then
        s.(coordinates := moved, stopped := true)
      else if Below(e, s.reference) then
        s.(coordinates := moved, step := Min(s.step * 2.0, 1.0), reference := Some(e))
      else if Above(e, s.reference) then
        s.(step := s.step * 0.1)
      else
        s.(coordinates := moved)
  }


  /** No draw offsets more atoms than the force field moves. */
  predicate DrawsFit(ff: ForceField, draws: seq<seq<Vec3>>) {
    forall k :: 0 <= k < |draws| ==> |draws[k]| <= ff.atomCount
  }

  /** The line search after one trial per element of `draws`, stopping at
      the early exit: the state of `step()` after that many passes. */
  function Run(ff: ForceField, s: Search, draws: seq<seq<Vec3>>): (r: Search)
    requires Fits(ff, s) && DrawsFit(ff, draws)
    ensures Fits(ff, r) && |r.coordinates| == |s.coordinates|
    ensures 0.0 < s.step <= 1.0 ==> 0.0 < r.step <= 1.0
    ensures forall i :: ff.atomCount <= i < |s.coordinates| ==> r.coordinates[i] == s.coordinates[i]
    ensures r.reference == s.reference || (r.reference.Some? && Below(r.reference.value, s.reference))
    decreases |draws|
  {
    if draws == [] then s
    else
      var p := Run(ff, s, draws[..|draws| - 1]);
      if p.stopped then p else Trial(ff, p, draws[|draws| - 1])
  }

  /** Running one more pass after a run that has not stopped is one more trial. */
  lemma RunExtend(ff: ForceField, s: Search, draws: seq<seq<Vec3>>, directions: seq<Vec3>)
    requires Fits(ff, s) && DrawsFit(ff, draws) && |directions| <= ff.atomCount
    requires !Run(ff, s, draws).stopped
    ensures DrawsFit(ff, draws + [directions])
    ensures Run(ff, s, draws + [directions]) == Trial(ff, Run(ff, s, draws), directions)
  {
    assert (draws + [directions])[..|draws|] == draws;
  }

  /** No pass of the run landed on a NaN energy. */
  predicate Smooth(ff: ForceField, s: Search, draws: seq<seq<Vec3>>)
    requires Fits(ff, s) && DrawsFit(ff, draws)
    decreases |draws|
  {
    draws == [] ||
    (var p := Run(ff, s, draws[..|draws| - 1]);
     Smooth(ff, s, draws[..|draws| - 1]) && (p.stopped || !Diverges(ff, p)))
  }

  /** The reference energy is the energy of the current coordinates, except
      after the early exit, where the coordinates improve on it by less than
      the tolerance. */
  predicate Settled(ff: ForceField, s: Search) {
    s.reference.Some? &&
    if s.stopped then
      ff.Energy(s.coordinates).Some? && ff.Energy(s.coordinates).value < s.reference.value &&
      s.reference.value - ff.Energy(s.coordinates).value < StepConvergence
    else
      ff.Energy(s.coordinates) == s.reference
  }

  /** A pass that does not diverge keeps the reference energy tied to the coordinates:
      accepted moves carry their energy forward, rejected ones restore the
      coordinates exactly, equal ones have the reference energy already. */
  lemma TrialSettles(ff: ForceField, s: Search, directions: seq<Vec3>)
    requires Fits(ff, s) && |directions| <= ff.atomCount
    requires Settled(ff, s) && !s.stopped && !Diverges(ff, s)
    ensures Settled(ff, Trial(ff, s, directions))
  {
  }

  lemma {:induction false} RunSettles(ff: ForceField, s: Search, draws: seq<seq<Vec3>>)
    requires Fits(ff, s) && DrawsFit(ff, draws)
    requires Settled(ff, s) && !s.stopped && Smooth(ff, s, draws)
    ensures Settled(ff, Run(ff, s, draws))
    decreases |draws|
  {
    if draws != [] {
      var init := draws[..|draws| - 1];
      RunSettles(ff, s, init);
      var p := Run(ff, s, init);
      if !p.stopped {
        TrialSettles(ff, p, draws[|draws| - 1]);
      }
    }
  }

  /** Unless a trial energy came out NaN, one line search never ends at a
      higher energy than it started from (when that was a number). */
  lemma StepNeverRaisesEnergy(ff: ForceField, coordinates: seq<Vec3>, draws: seq<seq<Vec3>>)
    requires ff.atomCount <= |coordinates| && DrawsFit(ff, draws)
    requires ff.Energy(coordinates).Some?
    requires Smooth(ff, Start(ff, coordinates), draws)
    ensures var e := ff.Energy(Run(ff, Start(ff, coordinates), draws).coordinates);
            e.Some? && e.value <= ff.Energy(coordinates).value
  {
    RunSettles(ff, Start(ff, coordinates), draws);
  }

  /** When the starting energy is NaN no comparison succeeds: every move is
      kept, the step size never changes and the search never stops early. */
  lemma {:induction false} NaNStartNeverAdapts(ff: ForceField, coordinates: seq<Vec3>, draws: seq<seq<Vec3>>)
    requires ff.atomCount <= |coordinates| && DrawsFit(ff, draws)
    requires ff.Energy(coordinates).None?
    ensures var r := Run(ff, Start(ff, coordinates), draws);
            r.step == InitialStep && r.reference.None? && !r.stopped
    decreases |draws|
  {
    if draws != [] {
      NaNStartNeverAdapts(ff, coordinates, draws[..|draws| - 1]);
    }
  }

  /** The outcome of each pass, compared with the state before it. */
  lemma TrialOutcome(ff: ForceField, s: Search, directions: seq<Vec3>)
    requires Fits(ff, s) && |directions| == ff.atomCount
    ensures var moved := Move(s.coordinates, s.gradient, s.step, ff.atomCount);
            var r := Trial(ff, s, directions);
            match ff.Energy(moved)
            case None =>
              r.step == s.step && r.reference == s.reference && r.stopped == s.stopped &&
              (forall i :: 0 <= i < ff.atomCount ==> r.coordinates[i] == s.coordinates[i].Plus(directions[i])) &&
              r.gradient == ff.Gradient(r.coordinates)
            case Some(e) =>
              (Above(e, s.reference) ==>
                r.coordinates == s.coordinates && r.reference == s.reference && r.step == s.step * 0.1 && r.stopped == s.stopped) &&
              (Below(e, s.reference) ==>
                r.coordinates == moved &&
                (r.stopped <==> s.stopped || Abs(e - s.reference.value) < StepConvergence) &&
                (Abs(e - s.reference.value) < StepConvergence ==> r.stopped && r.step == s.step && r.reference == s.reference) &&
                (Abs(e - s.reference.value) >= StepConvergence ==> r.reference == Some(e) && r.step == Min(2.0 * s.step, 1.0))) &&
              (!Below(e, s.reference) && !Above(e, s.reference) ==>
                r.coordinates == moved && r.step == s.step && r.reference == s.reference && r.stopped == s.stopped)
  {
  }

  /** Successive line searches, each restarting from the initial step size
      at the coordinates the previous one ended with: the coordinates after
      `|trace|` calls of `step()`. */
  function Descent(ff: ForceField, coordinates: seq<Vec3>, trace: seq<seq<seq<Vec3>>>): (r: seq<Vec3>)
    requires ff.atomCount <= |coordinates|
    requires forall k :: 0 <= k < |trace| ==> DrawsFit(ff, trace[k])
    ensures |r| == |coordinates|
    decreases |trace|
  {
    if trace == [] then coordinates
    else
      var before := Descent(ff, coordinates, trace[..|trace| - 1]);
      Run(ff, Start(ff, before), trace[|trace| - 1]).coordinates
  }

  /** One more call of `step()` is one more line search from where the previous calls ended. */
  lemma DescentExtend(ff: ForceField, coordinates: seq<Vec3>, trace: seq<seq<seq<Vec3>>>, draws: seq<seq<Vec3>>)
    requires ff.atomCount <= |coordinates|
    requires forall k :: 0 <= k < |trace| ==> DrawsFit(ff, trace[k])
    requires DrawsFit(ff, draws)
    ensures forall k :: 0 <= k < |trace + [draws]| ==> DrawsFit(ff, (trace + [draws])[k])
    ensures Descent(ff, coordinates, trace + [draws]) ==
            Run(ff, Start(ff, Descent(ff, coordinates, trace)), draws).coordinates
  {
    assert (trace + [draws])[..|trace|] == trace;
  }
}
