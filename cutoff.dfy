/** How loadNXSCrystal resolves the lower d-spacing cutoff and the index
    bound of the second pass: the maxHKLFromDCut lambda, the first-match
    search over 0.1, 0.15, ..., 0.45 with the 0.5 default, the fallback to
    80% of the upper cutoff, and the limit of 50. D-spacings are reals. */
module CutoffSelection {
  import opened NxsTypes
  import opened Legacy

  /** NC::linspace(0.1, 0.45, 8), as exact decimals. */
  const AutoCandidates: seq<real> := [0.1, 0.15, 0.2, 0.25, 0.3, 0.35, 0.4, 0.45]
  /** The lower cutoff used when no candidate is acceptable. */
  const AutoDefault: real := 0.5
  /** The largest index bound an automatic cutoff may lead to. */
  const AutoMaxHkl: int := 20
  /** The largest index bound the loader accepts for the second pass. */
  const MaxHklLimit: int := 50
  /** The lower-cutoff value that disables reflections. */
  const HklDisabled: real := -1.0

  /** The maxHKLFromDCut lambda: the largest of the three axis bounds that
      estimateHKLRange gives for the cell at cutoff dcut. */
  function MaxHklFromDCut(o: Oracles, p: CellParams, dcut: real): (m: int)
    ensures var e := o.estimateHklRange(dcut, p);
            && m >= e.h && m >= e.k && m >= e.l
            && (m == e.h || m == e.k || m == e.l)
  {
    var e := o.estimateHklRange(dcut, p);
    if e.h >= e.k && e.h >= e.l then e.h else if e.k >= e.l then e.k else e.l
  }

  /** The first candidate whose index bound is at most 20, or the default. */
  function FirstFit(cands: seq<real>, maxAt: real -> int): real {
    if cands == [] then AutoDefault
    else if maxAt(cands[0]) <= AutoMaxHkl then cands[0]
    else FirstFit(cands[1..], maxAt)
  }

  /** FirstFit is the first match: either a candidate whose bound is at most
      20 and every earlier candidate's bound exceeds 20, or the default and
      every candidate's bound exceeds 20. */
  lemma {:induction false} FirstFitIsFirstMatch(cands: seq<real>, maxAt: real -> int)
    ensures var d := FirstFit(cands, maxAt);
            || (exists i :: 0 <= i < |cands| && cands[i] == d && maxAt(d) <= AutoMaxHkl
                             && forall j :: 0 <= j < i ==> maxAt(cands[j]) > AutoMaxHkl)
            || (d == AutoDefault && forall j :: 0 <= j < |cands| ==> maxAt(cands[j]) > AutoMaxHkl)
  {
    if cands != [] && maxAt(cands[0]) > AutoMaxHkl {
      FirstFitIsFirstMatch(cands[1..], maxAt);
      var d := FirstFit(cands, maxAt);
      if exists i :: 0 <= i < |cands[1..]| && cands[1..][i] == d && maxAt(d) <= AutoMaxHkl
                     && forall j :: 0 <= j < i ==> maxAt(cands[1..][j]) > AutoMaxHkl {
        var i :| 0 <= i < |cands[1..]| && cands[1..][i] == d && maxAt(d) <= AutoMaxHkl
                 && forall j :: 0 <= j < i ==> maxAt(cands[1..][j]) > AutoMaxHkl;
        assert cands[i + 1] == d;
        forall j | 0 <= j < i + 1 ensures maxAt(cands[j]) > AutoMaxHkl {
          if j > 0 { assert cands[j] == cands[1..][j - 1]; }
        }
      } else {
        forall j | 0 <= j < |cands| ensures maxAt(cands[j]) > AutoMaxHkl {
          if j > 0 { assert cands[j] == cands[1..][j - 1]; }
        }
      }
    } else if cands != [] {
      assert cands[0] == FirstFit(cands, maxAt);
    }
  }

  /** The automatically chosen lower cutoff for upper cutoff `upper`. */
  function AutoCutoffSpec(upper: real, maxAt: real -> int): real {
    var d := FirstFit(AutoCandidates, maxAt);
    if d >= upper * 0.95 then 0.8 * upper else d
  }

  /** The lower cutoff the loader works with: the automatic one for 0, the
      caller's otherwise. */
  function ResolveLowerCutoff(lower: real, upper: real, maxAt: real -> int): (d: real)
    ensures lower != 0.0 ==> d == lower
  {
    if lower == 0.0 then AutoCutoffSpec(upper, maxAt) else lower
  }

  /** The automatic cutoff is one of 0.1, 0.15, ..., 0.5 below 95% of the
      upper cutoff, whose index bound is at most 20 unless it is the 0.5
      default, or else it is 80% of the upper cutoff. */
  lemma AutoCutoffValues(upper: real, maxAt: real -> int)
    ensures var d := AutoCutoffSpec(upper, maxAt);
            || d == 0.8 * upper
            || (d < upper * 0.95
                && (d in AutoCandidates || d == AutoDefault)
                && (d != AutoDefault ==> maxAt(d) <= AutoMaxHkl))
    ensures FirstFit(AutoCandidates, maxAt) < upper * 0.95 ==>
              AutoCutoffSpec(upper, maxAt) == FirstFit(AutoCandidates, maxAt)
  {
    FirstFitIsFirstMatch(AutoCandidates, maxAt);
  }

  /** The first-match loop of loadNXSCrystal with its fallback. */
  method AutoCutoff(upper: real, maxAt: real -> int) returns (d: real)
    ensures d == AutoCutoffSpec(upper, maxAt)
  {
    d := AutoDefault;
    var i := 0;
    while i < |AutoCandidates|
      invariant 0 <= i <= |AutoCandidates|
      invariant d == AutoDefault
      invariant FirstFit(AutoCandidates[i..], maxAt) == FirstFit(AutoCandidates, maxAt)
    {
      var dcut := AutoCandidates[i];
      if maxAt(dcut) <= AutoMaxHkl {
        d := dcut;
        break;
      }
      assert AutoCandidates[i..][1..] == AutoCandidates[i + 1..];
      i := i + 1;
    }
    assert d == FirstFit(AutoCandidates, maxAt);
    if d >= upper * 0.95 {
      d := 0.8 * upper;
    }
  }
}
