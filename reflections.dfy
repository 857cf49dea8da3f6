/** The reflection list loadNXSCrystal hands to NCrystal: the legacy entries
    whose d-spacing lies in the resolved range and whose squared structure
    factor is not negligible, in their original order, with the structure
    factor rescaled from legacy units. */
module Reflections {
  import opened NxsTypes

  /** NCrystal's HKLInfo as the loader fills it. */
  datatype HklInfo = HklInfo(h: int, k: int, l: int, multiplicity: int,
                             dspacing: real, fsquared: real)

  /** The reflection data of the result: the d-spacing range and the list. */
  datatype HklPlanes = HklPlanes(dspacingLower: real, dspacingUpper: real,
                                 source: seq<HklInfo>)

  /** fsquare_cut, 100 * 1e-5 in legacy units. */
  const FSquareCut: real := 100.0 * 0.00001
  /** The factor from legacy squared structure factors to NCrystal's. */
  const FSquaredScale: real := 0.01

  /** The two tests of the loop, as written there: neither outside the
      d-spacing range nor below the structure-factor cut. */
  predicate Selected(e: HklEntry, lower: real, upper: real) {
    !(e.dhkl < lower || e.dhkl > upper) && !(e.fSquare < FSquareCut)
  }

  /** The HKLInfo built for one kept entry. */
  function ToHklInfo(e: HklEntry): HklInfo {
    HklInfo(e.h, e.k, e.l, e.multiplicity, e.dhkl, FSquaredScale * e.fSquare)
  }

  /** The converted kept entries among the first n of s, in order. */
  function FilteredUpTo(s: seq<HklEntry>, n: nat, lower: real, upper: real): seq<HklInfo>
    requires n <= |s|
  {
    if n == 0 then []
    else FilteredUpTo(s, n - 1, lower, upper)
         + (if Selected(s[n - 1], lower, upper) then [ToHklInfo(s[n - 1])] else [])
  }

  /** The converted kept entries of s, in order. */
  function Filtered(s: seq<HklEntry>, lower: real, upper: real): seq<HklInfo> {
    FilteredUpTo(s, |s|, lower, upper)
  }

  /** The positions of the kept entries among the first n of s, in
      increasing order. */
  function KeptUpTo(s: seq<HklEntry>, n: nat, lower: real, upper: real): seq<nat>
    requires n <= |s|
  {
    if n == 0 then []
    else KeptUpTo(s, n - 1, lower, upper)
         + (if Selected(s[n - 1], lower, upper) then [n - 1] else [])
  }

  /** The positions in s of the kept entries, in increasing order. */
  function KeptIndices(s: seq<HklEntry>, lower: real, upper: real): seq<nat> {
    KeptUpTo(s, |s|, lower, upper)
  }

  /** Entry j of the filter's output is the conversion of the entry at the
      j-th kept position. */
  lemma {:induction false} FilteredAtKept(s: seq<HklEntry>, n: nat, lower: real, upper: real)
    requires n <= |s|
    ensures var out := FilteredUpTo(s, n, lower, upper);
            var ks := KeptUpTo(s, n, lower, upper);
            && |out| == |ks|
            && (forall j :: 0 <= j < |ks| ==> ks[j] < n && out[j] == ToHklInfo(s[ks[j]]))
  {
    if n > 0 {
      FilteredAtKept(s, n - 1, lower, upper);
    }
  }

  /** The kept positions are below n and strictly increasing. */
  lemma {:induction false} KeptUpToIncrease(s: seq<HklEntry>, n: nat, lower: real, upper: real)
    requires n <= |s|
    ensures forall j :: 0 <= j < |KeptUpTo(s, n, lower, upper)| ==> KeptUpTo(s, n, lower, upper)[j] < n
    ensures forall j1, j2 :: 0 <= j1 < j2 < |KeptUpTo(s, n, lower, upper)| ==>
              KeptUpTo(s, n, lower, upper)[j1] < KeptUpTo(s, n, lower, upper)[j2]
  {
    if n > 0 {
      KeptUpToIncrease(s, n - 1, lower, upper);
      var kp := KeptUpTo(s, n - 1, lower, upper);
      var ks := KeptUpTo(s, n, lower, upper);
      assert forall j :: 0 <= j < |kp| ==> ks[j] == kp[j];
    }
  }

  /** A position below n is kept exactly when its entry passes both tests. */
  lemma {:induction false} KeptUpToMembers(s: seq<HklEntry>, n: nat, lower: real, upper: real)
    requires n <= |s|
    ensures forall i :: 0 <= i < n ==>
              (i in KeptUpTo(s, n, lower, upper) <==> Selected(s[i], lower, upper))
  {
    if n > 0 {
      KeptUpToMembers(s, n - 1, lower, upper);
      KeptUpToIncrease(s, n - 1, lower, upper);
      var kp := KeptUpTo(s, n - 1, lower, upper);
      assert n - 1 !in kp;
    }
  }

  /** There are at most n kept positions among the first n entries. */
  lemma {:induction false} KeptUpToShorter(s: seq<HklEntry>, n: nat, lower: real, upper: real)
    requires n <= |s|
    ensures |KeptUpTo(s, n, lower, upper)| <= n
  {
    if n > 0 {
      KeptUpToShorter(s, n - 1, lower, upper);
    }
  }

  /** The filter is the order-preserving selection: entry j of the result is
      the conversion of the j-th kept entry; the kept positions increase;
      and a position is kept exactly when its entry passes both tests. */
  lemma FilteredIsOrderedSelection(s: seq<HklEntry>, lower: real, upper: real)
    ensures var out := Filtered(s, lower, upper);
            var ks := KeptIndices(s, lower, upper);
            && |out| == |ks|
            && (forall j :: 0 <= j < |ks| ==> ks[j] < |s| && out[j] == ToHklInfo(s[ks[j]]))
            && (forall j1, j2 :: 0 <= j1 < j2 < |ks| ==> ks[j1] < ks[j2])
            && (forall i :: 0 <= i < |s| ==> (i in ks <==> Selected(s[i], lower, upper)))
  {
    FilteredAtKept(s, |s|, lower, upper);
    KeptUpToIncrease(s, |s|, lower, upper);
    KeptUpToMembers(s, |s|, lower, upper);
  }

  /** Every reflection handed on lies in the d-spacing range and its
      rescaled squared structure factor is at least 1e-5, and nothing is
      added: there are at most as many as legacy entries. */
  lemma FilteredBounds(s: seq<HklEntry>, lower: real, upper: real)
    ensures var out := Filtered(s, lower, upper);
            && |out| <= |s|
            && forall j :: 0 <= j < |out| ==>
                 lower <= out[j].dspacing <= upper && out[j].fsquared >= 0.00001
  {
    FilteredIsOrderedSelection(s, lower, upper);
    var ks := KeptIndices(s, lower, upper);
    KeptUpToShorter(s, |s|, lower, upper);
    forall j | 0 <= j < |ks| ensures Selected(s[ks[j]], lower, upper) {
      assert ks[j] in ks;
    }
  }

  lemma {:induction false} EmptyRangeKeepsNone(s: seq<HklEntry>, n: nat, lower: real, upper: real)
    requires upper < lower && n <= |s|
    ensures FilteredUpTo(s, n, lower, upper) == []
  {
    if n > 0 {
      EmptyRangeKeepsNone(s, n - 1, lower, upper);
    }
  }

  /** With an empty range nothing is kept, and this is not an error. */
  lemma EmptyRangeKeepsNothing(s: seq<HklEntry>, lower: real, upper: real)
    requires upper < lower
    ensures Filtered(s, lower, upper) == []
  {
    EmptyRangeKeepsNone(s, |s|, lower, upper);
  }

  /** The reflection loop of loadNXSCrystal over nHKL legacy entries. */
  method SelectReflections(entries: seq<HklEntry>, lower: real, upper: real)
    returns (out: seq<HklInfo>)
    ensures out == Filtered(entries, lower, upper)
  {
    out := [];
    var i := 0;
    while i < |entries|
      invariant 0 <= i <= |entries|
      invariant out == FilteredUpTo(entries, i, lower, upper)
    {
      var e := entries[i];
      if e.dhkl < lower || e.dhkl > upper {
        i := i + 1;
        continue;
      }
      if e.fSquare < FSquareCut {
        i := i + 1;
        continue;
      }
      out := out + [HklInfo(e.h, e.k, e.l, e.multiplicity, e.dhkl, FSquaredScale * e.fSquare)];
      i := i + 1;
    }
  }
}
