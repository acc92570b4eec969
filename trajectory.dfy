/** The trajectory a marching pass records: one circle per step, drawn at the point the
    step started from with the step's length as radius. Both ray classes keep these in
    their `rayCircles` list. */
module Trajectory {
  import opened Vectors

  /** One recorded marching circle: where it was drawn and its radius. */
  datatype Step = Step(center: Vec, radius: real)

  /** The steps of one marching pass and the length it travelled. */
  datatype March = March(steps: seq<Step>, traveled: real)

  function SumRadii(steps: seq<Step>): real
  {
    if steps == [] then 0.0 else steps[0].radius + SumRadii(steps[1..])
  }

  /** Step `k` lies on the ray from `o` along `dir`, at the start length `t` plus the radii
      of the steps before it. */
  predicate OnRay(s: seq<Step>, o: Vec, dir: Vec, t: real)
  {
    forall k :: 0 <= k < |s| ==> s[k].center == Add(o, Scale(dir, t + SumRadii(s[..k])))
  }

  /** Prepending the step taken at `o + dir * t` to a trajectory that continues on the ray
      from `t + d` keeps the whole trajectory on the ray. */
  lemma OnRayCons(o: Vec, dir: Vec, t: real, p: Vec, d: real, rest: seq<Step>)
    requires p == Add(o, Scale(dir, t))
    requires OnRay(rest, o, dir, t + d)
    ensures OnRay([Step(p, d)] + rest, o, dir, t)
  {
    var s := [Step(p, d)] + rest;
    forall k | 0 <= k < |s| ensures s[k].center == Add(o, Scale(dir, t + SumRadii(s[..k]))) {
      if k == 0 {
        assert s[..0] == [];
      } else {
        assert s[k] == rest[k - 1];
        assert s[..k][1..] == rest[..k - 1];
        assert t + d + SumRadii(rest[..k - 1]) == t + SumRadii(s[..k]);
      }
    }
  }
}
